/** The host snapshot: what a capsule is, when `restore` accepts one, and why acceptance and the
    kernel invariant are the same thing. Instants and derived tool metadata are not modelled. */
module Snapshot {
  import opened Wire
  import opened Replay
  import opened Kernel
  import opened KernelInvariant

  datatype PendingSnapshot = PendingSnapshot(
    id: RequestId,
    rpc: Method,
    sequence: u64,
    payload: Payload,
    contract: ReplayContract,
    knowledge: ExecutionKnowledge,
    attempts: u8,
    scheduled: Option<RequestDisposition>)

  datatype Capsule = Capsule(
    version: nat,
    phase: SessionPhase,
    seed: Option<Seed>,
    pending: seq<PendingSnapshot>,
    queue: seq<Payload>,
    next: u64)

  datatype Limits = Limits(maxPending: nat, maxQueued: nat, maxFrameBytes: nat, maxAttempts: u8)

  datatype Resource = PendingRequests | QueuedFrames | FrameBytes | ReplayAttempts | InitializationBytes

  datatype SnapshotError = UnsupportedVersion(found: nat) | Capacity(resource: Resource) | InvalidFrame | Contradiction

  datatype Restored = Accepted(kernel: State) | Rejected(error: SnapshotError)

  const FORMAT_VERSION := 1

  // ---------------------------------------------------------------- taking a snapshot

  function ItemOf(id: RequestId, r: PendingRequest): PendingSnapshot {
    PendingSnapshot(id, r.rpc, r.sequence, r.frame.payload, r.contract, r.knowledge, r.attempts, r.scheduled)
  }

  function Items(ids: seq<RequestId>, pending: PendingMap): seq<PendingSnapshot>
    requires AllIn(ids, pending)
  {
    if ids == [] then []
    else
      assert forall id :: id in ids[..|ids| - 1] ==> id in ids;
      Items(ids[..|ids| - 1], pending) + [ItemOf(ids[|ids| - 1], pending[ids[|ids| - 1]])]
  }

  function Payloads(queue: seq<Frame>): (payloads: seq<Payload>)
    ensures |payloads| == |queue|
    ensures forall i :: 0 <= i < |queue| ==> payloads[i] == queue[i].payload
  {
    seq(|queue|, i requires 0 <= i < |queue| => queue[i].payload)
  }

  ghost function SnapshotOf(k: State): Capsule
    requires DistinctSequences(k.pending)
  {
    Capsule(FORMAT_VERSION, k.phase, k.seed, Items(Ordered(k.pending), k.pending), Payloads(k.queue), k.next)
  }

  // ---------------------------------------------------------------- acceptance

  function Record(x: PendingSnapshot): PendingRequest {
    PendingRequest(x.rpc, x.sequence, Frame(x.payload, Request(x.id, x.rpc)), x.contract, x.knowledge, x.attempts,
        x.scheduled)
  }

  predicate ItemOk(x: PendingSnapshot, next: u64, limits: Limits, parse: Parser) {
    && |x.payload| <= limits.maxFrameBytes
    && x.attempts <= limits.maxAttempts
    && x.sequence < next
    && ValidSchedule(Record(x))
    && parse(x.payload) == Some(Request(x.id, x.rpc))
  }

  predicate Fresh(x: PendingSnapshot, earlier: seq<PendingSnapshot>) {
    forall y :: y in earlier ==> y.id != x.id && y.sequence != x.sequence
  }

  predicate ItemsOk(items: seq<PendingSnapshot>, next: u64, limits: Limits, parse: Parser) {
    items == [] || (
      && ItemsOk(items[..|items| - 1], next, limits, parse)
      && ItemOk(items[|items| - 1], next, limits, parse)
      && Fresh(items[|items| - 1], items[..|items| - 1]))
  }

  function Hydrate(items: seq<PendingSnapshot>): PendingMap {
    if items == [] then map[]
    else Hydrate(items[..|items| - 1])[items[|items| - 1].id := Record(items[|items| - 1])]
  }

  predicate Readable(payload: Payload, limits: Limits, parse: Parser) {
    |payload| <= limits.maxFrameBytes && parse(payload).Some?
  }

  function FrameOf(payload: Payload, parse: Parser): Frame
    requires parse(payload).Some?
  {
    Frame(payload, parse(payload).value)
  }

  function FramesFrom(payloads: seq<Payload>, parse: Parser): (frames: seq<Frame>)
    requires forall i :: 0 <= i < |payloads| ==> parse(payloads[i]).Some?
    ensures |frames| == |payloads|
    ensures forall i :: 0 <= i < |payloads| ==> frames[i] == FrameOf(payloads[i], parse)
  {
    seq(|payloads|, i requires 0 <= i < |payloads| => FrameOf(payloads[i], parse))
  }

  predicate SeedOk(seed: Seed, limits: Limits, parse: Parser) {
    && |seed.payload| <= limits.maxFrameBytes
    && (seed.notification.Some? ==> |seed.notification.value| <= limits.maxFrameBytes)
    && SealedSeed(seed, parse)
  }

  predicate InitializePending(pending: PendingMap) {
    exists id :: id in pending && pending[id].rpc.Initialize?
  }

  /** The initialization clause of acceptance: stricter than the invariant in one place, because an
      initializing session must still have its initialize request pending. */
  ghost predicate SessionOk(k: State, limits: Limits, parse: Parser) {
    && (k.seed.Some? ==> SeedOk(k.seed.value, limits, parse))
    && SessionAgrees(k)
    && (k.phase.Initializing? ==> InitializePending(k.pending))
  }

  function Hydrated(c: Capsule, parse: Parser): State
    requires forall i :: 0 <= i < |c.queue| ==> parse(c.queue[i]).Some?
  {
    State(c.phase, c.seed, Hydrate(c.pending), FramesFrom(c.queue, parse), c.next)
  }

  ghost predicate Admissible(c: Capsule, limits: Limits, parse: Parser) {
    && c.version == FORMAT_VERSION
    && |c.pending| <= limits.maxPending
    && |c.queue| <= limits.maxQueued
    && ItemsOk(c.pending, c.next, limits, parse)
    && (forall i :: 0 <= i < |c.queue| ==> Readable(c.queue[i], limits, parse))
    && (exists ids, backlog :: Split(Hydrated(c, parse), ids, backlog))
    && SessionOk(Hydrated(c, parse), limits, parse)
  }

  // ---------------------------------------------------------------- soundness of acceptance

  lemma {:induction false} ItemsOkPrefix(items: seq<PendingSnapshot>, i: nat, next: u64, limits: Limits, parse: Parser)
    requires i <= |items| && ItemsOk(items, next, limits, parse)
    ensures ItemsOk(items[..i], next, limits, parse)
    decreases |items|
  {
    if i == |items| {
      assert items[..i] == items;
    } else {
      ItemsOkPrefix(items[..|items| - 1], i, next, limits, parse);
      assert items[..|items| - 1][..i] == items[..i];
    }
  }

  /** Hydrating accepted items loses nothing: the map holds exactly one record for each item. */
  lemma {:induction false} HydrateHolds(items: seq<PendingSnapshot>, next: u64, limits: Limits, parse: Parser)
    requires ItemsOk(items, next, limits, parse)
    ensures |Hydrate(items)| == |items|
    ensures forall x :: x in items ==>
        x.id in Hydrate(items) && Hydrate(items)[x.id] == Record(x) && ItemOk(x, next, limits, parse)
    ensures forall id :: id in Hydrate(items) ==> ItemOf(id, Hydrate(items)[id]) in items
    decreases |items|
  {
    if items != [] {
      var init, last := items[..|items| - 1], items[|items| - 1];
      assert items == init + [last];
      HydrateHolds(init, next, limits, parse);
      forall id | id in Hydrate(init) ensures id != last.id {
        assert ItemOf(id, Hydrate(init)[id]) in init;
      }
    }
  }

  lemma {:induction false} ItemsAreDistinct(items: seq<PendingSnapshot>, next: u64, limits: Limits, parse: Parser,
      x: PendingSnapshot, y: PendingSnapshot)
    requires ItemsOk(items, next, limits, parse) && x in items && y in items && x.sequence == y.sequence
    ensures x == y
    decreases |items|
  {
    var init, last := items[..|items| - 1], items[|items| - 1];
    assert items == init + [last];
    if x in init && y in init {
      ItemsAreDistinct(init, next, limits, parse, x, y);
    }
  }

  lemma {:induction false} HydratedIsSane(c: Capsule, limits: Limits, parse: Parser)
    requires ItemsOk(c.pending, c.next, limits, parse)
    requires forall i :: 0 <= i < |c.queue| ==> parse(c.queue[i]).Some?
    requires forall x :: x in c.pending ==> x.scheduled == Some(RequestDisposition.Replay) ==> x.attempts < 255
    ensures Identified(Hydrated(c, parse)) && DistinctSequences(Hydrate(c.pending))
  {
    var p := Hydrate(c.pending);
    HydrateHolds(c.pending, c.next, limits, parse);
    forall id | id in p ensures Sane(id, p[id], c.next) {
      var x := ItemOf(id, p[id]);
      assert x in c.pending && p[x.id] == Record(x) && ItemOk(x, c.next, limits, parse);
    }
    forall a, b | Twins(a, b, p) ensures a == b {
      assert ItemOf(a, p[a]) in c.pending && ItemOf(b, p[b]) in c.pending;
      ItemsAreDistinct(c.pending, c.next, limits, parse, ItemOf(a, p[a]), ItemOf(b, p[b]));
    }
  }

  /** Whatever `restore` accepts, from an arbitrary capsule, satisfies the whole kernel invariant,
      provided no accepted replay already stands at the last eight-bit attempt. */
  lemma {:induction false} RestoreIsSound(c: Capsule, limits: Limits, parse: Parser)
    requires Admissible(c, limits, parse)
    ensures (forall x :: x in c.pending ==> x.scheduled == Some(RequestDisposition.Replay) ==> x.attempts < 255) <==>
        Inv(Hydrated(c, parse))
  {
    HydrateHolds(c.pending, c.next, limits, parse);
    if forall x :: x in c.pending ==> x.scheduled == Some(RequestDisposition.Replay) ==> x.attempts < 255 {
      HydratedIsSane(c, limits, parse);
    } else {
      var x :| x in c.pending && x.scheduled == Some(RequestDisposition.Replay) && x.attempts == 255;
      assert !Sane(x.id, Hydrate(c.pending)[x.id], c.next);
    }
  }

  // ---------------------------------------------------------------- the round trip

  ghost predicate SealedPending(pending: PendingMap, parse: Parser) {
    forall id :: id in pending ==> Sealed(pending[id].frame, parse)
  }

  ghost predicate SealedQueue(queue: seq<Frame>, parse: Parser) {
    forall i :: 0 <= i < |queue| ==> Sealed(queue[i], parse)
  }

  predicate SealedSeed(seed: Seed, parse: Parser) {
    && parse(seed.payload) == Some(Request(seed.id, Initialize))
    && (seed.notification.Some? ==>
         && parse(seed.notification.value).Some?
         && parse(seed.notification.value).value.Notification?
         && IsInitializedNotification(parse(seed.notification.value).value.note))
  }

  /** Every frame and seed of a kernel came out of the parser. */
  ghost predicate SealedKernel(k: State, parse: Parser) {
    && SealedPending(k.pending, parse)
    && SealedQueue(k.queue, parse)
    && (k.seed.Some? ==> SealedSeed(k.seed.value, parse))
  }

  ghost predicate Fits(k: State, limits: Limits) {
    && |k.pending| <= limits.maxPending
    && |k.queue| <= limits.maxQueued
    && (forall id :: id in k.pending ==> RecordFits(k.pending[id], limits))
    && (forall i :: 0 <= i < |k.queue| ==> |k.queue[i].payload| <= limits.maxFrameBytes)
    && SeedFits(k, limits)
  }

  lemma {:induction false} ItemsComeFrom(ids: seq<RequestId>, p: PendingMap)
    requires AllIn(ids, p)
    ensures |Items(ids, p)| == |ids|
    ensures forall x :: x in Items(ids, p) <==> x.id in ids && x == ItemOf(x.id, p[x.id])
    decreases |ids|
  {
    if ids != [] {
      var init := ids[..|ids| - 1];
      assert ids == init + [ids[|ids| - 1]];
      assert AllIn(init, p);
      ItemsComeFrom(init, p);
    }
  }

  lemma {:induction false} HydrateAppend(items: seq<PendingSnapshot>, x: PendingSnapshot)
    ensures Hydrate(items + [x]) == Hydrate(items)[x.id := Record(x)]
  {
    assert (items + [x])[..|items|] == items;
  }

  lemma {:induction false} ItemsOkAppend(items: seq<PendingSnapshot>, x: PendingSnapshot, next: u64,
      limits: Limits, parse: Parser)
    ensures ItemsOk(items + [x], next, limits, parse) <==>
        ItemsOk(items, next, limits, parse) && ItemOk(x, next, limits, parse) && Fresh(x, items)
  {
    assert (items + [x])[..|items|] == items;
  }

  lemma {:induction false} RecordIsBack(id: RequestId, r: PendingRequest, next: u64)
    requires Sane(id, r, next)
    ensures ItemOf(id, r).id == id && Record(ItemOf(id, r)) == r
  {
  }

  ghost predicate Restores(h: PendingMap, ids: seq<RequestId>, p: PendingMap)
    requires AllIn(ids, p)
  {
    (forall id :: id in h <==> id in ids) && (forall id :: id in h ==> h[id] == p[id])
  }

  lemma {:induction false} RestoresOneMore(h: PendingMap, init: seq<RequestId>, last: RequestId, p: PendingMap)
    requires AllIn(init, p) && last in p && Restores(h, init, p)
    ensures AllIn(init + [last], p) && Restores(h[last := p[last]], init + [last], p)
  {
    assert forall id :: id in init + [last] <==> id in init || id == last;
  }

  lemma {:induction false} ItemsHydrateBack(ids: seq<RequestId>, k: State)
    requires Identified(k) && AllIn(ids, k.pending)
    ensures Restores(Hydrate(Items(ids, k.pending)), ids, k.pending)
    decreases |ids|
  {
    if ids != [] {
      var init, last := ids[..|ids| - 1], ids[|ids| - 1];
      assert ids == init + [last] && AllIn(init, k.pending) && last in ids;
      ItemsHydrateBack(init, k);
      assert Sane(last, k.pending[last], k.next);
      RecordIsBack(last, k.pending[last], k.next);
      assert Items(ids, k.pending) == Items(init, k.pending) + [ItemOf(last, k.pending[last])];
      HydrateAppend(Items(init, k.pending), ItemOf(last, k.pending[last]));
      RestoresOneMore(Hydrate(Items(init, k.pending)), init, last, k.pending);
    }
  }

  predicate RecordFits(r: PendingRequest, limits: Limits) {
    |r.frame.payload| <= limits.maxFrameBytes && r.attempts <= limits.maxAttempts
  }

  lemma {:induction false} ItemAcceptance(id: RequestId, r: PendingRequest, next: u64, limits: Limits, parse: Parser)
    requires Sane(id, r, next) && Sealed(r.frame, parse)
    ensures ItemOk(ItemOf(id, r), next, limits, parse) <==> RecordFits(r, limits)
  {
  }

  lemma {:induction false} ItemsAreFresh(init: seq<RequestId>, last: RequestId, p: PendingMap)
    requires last in p && AllIn(init, p) && Ascending(init + [last], p)
    ensures Fresh(ItemOf(last, p[last]), Items(init, p))
  {
    assert last in [last] && AllIn([last], p);
    AscendingAppends(init, [last], p);
    ItemsComeFrom(init, p);
    forall y | y in Items(init, p) ensures y.id != last && y.sequence != p[last].sequence {
      assert Older(y.id, [last], p);
    }
  }

  /** The items of a snapshot pass the item checks exactly when the records fit the limits. */
  lemma {:induction false} ItemsAcceptance(ids: seq<RequestId>, k: State, limits: Limits, parse: Parser)
    requires Identified(k) && Ascending(ids, k.pending)
    requires SealedPending(k.pending, parse)
    ensures ItemsOk(Items(ids, k.pending), k.next, limits, parse) <==>
        (forall id :: id in ids ==> RecordFits(k.pending[id], limits))
    decreases |ids|
  {
    if ids != [] {
      var init, last := ids[..|ids| - 1], ids[|ids| - 1];
      assert ids == init + [last];
      assert AllIn(init, k.pending) && last in ids;
      AscendingAppends(init, [last], k.pending);
      ItemsAcceptance(init, k, limits, parse);
      ItemsAreFresh(init, last, k.pending);
      assert Items(ids, k.pending) == Items(init, k.pending) + [ItemOf(last, k.pending[last])];
      ItemsOkAppend(Items(init, k.pending), ItemOf(last, k.pending[last]), k.next, limits, parse);
      assert forall id :: id in ids <==> id in init || id == last;
      assert Sane(last, k.pending[last], k.next);
      ItemAcceptance(last, k.pending[last], k.next, limits, parse);
    }
  }

  lemma {:induction false} SnapshotHydratesBack(k: State, parse: Parser)
    requires Inv(k) && SealedKernel(k, parse)
    ensures forall i :: 0 <= i < |k.queue| ==> parse(SnapshotOf(k).queue[i]).Some?
    ensures Hydrated(SnapshotOf(k), parse) == k
  {
    ItemsHydrateBack(Ordered(k.pending), k);
    assert Hydrate(Items(Ordered(k.pending), k.pending)) == k.pending;
    assert FramesFrom(Payloads(k.queue), parse) == k.queue;
  }

  predicate SeedFits(k: State, limits: Limits) {
    && (k.seed.Some? ==> |k.seed.value.payload| <= limits.maxFrameBytes)
    && (k.seed.Some? && k.seed.value.notification.Some? ==> |k.seed.value.notification.value| <= limits.maxFrameBytes)
  }

  lemma {:induction false} SessionAcceptance(k: State, limits: Limits, parse: Parser)
    requires SessionAgrees(k) && SealedKernel(k, parse)
    ensures SessionOk(k, limits, parse) <==>
        SeedFits(k, limits) && (k.phase.Initializing? ==> InitializePending(k.pending))
  {
  }

  lemma {:induction false} QueueAcceptance(k: State, limits: Limits, parse: Parser)
    requires SealedQueue(k.queue, parse)
    ensures (forall i :: 0 <= i < |k.queue| ==> Readable(Payloads(k.queue)[i], limits, parse)) <==>
      (forall i :: 0 <= i < |k.queue| ==> |k.queue[i].payload| <= limits.maxFrameBytes)
  {
    assert forall i :: 0 <= i < |k.queue| ==> Payloads(k.queue)[i] == k.queue[i].payload;
  }

  lemma {:induction false} AdmissionOf(k: State, limits: Limits, parse: Parser)
    requires Inv(k) && SealedKernel(k, parse)
    ensures Admissible(SnapshotOf(k), limits, parse) <==> (
      && |Ordered(k.pending)| <= limits.maxPending
      && |k.queue| <= limits.maxQueued
      && ItemsOk(Items(Ordered(k.pending), k.pending), k.next, limits, parse)
      && (forall i :: 0 <= i < |k.queue| ==> Readable(Payloads(k.queue)[i], limits, parse))
      && SessionOk(k, limits, parse))
  {
    SnapshotHydratesBack(k, parse);
    ItemsComeFrom(Ordered(k.pending), k.pending);
  }

  /** Snapshot and restore are inverse: for every kernel that satisfies the invariant, restoring its
      snapshot is accepted exactly when it fits the limits and its initialize was not dropped, and
      then yields the very same kernel. */
  lemma {:induction false} SnapshotRoundTrip(k: State, limits: Limits, parse: Parser)
    requires Inv(k) && SealedKernel(k, parse)
    ensures Admissible(SnapshotOf(k), limits, parse) <==>
        Fits(k, limits) && (k.phase.Initializing? ==> InitializePending(k.pending))
    ensures Hydrated(SnapshotOf(k), parse) == k
  {
    var ids := Ordered(k.pending);
    SnapshotHydratesBack(k, parse);
    AdmissionOf(k, limits, parse);
    ItemsAcceptance(ids, k, limits, parse);
    DistinctIds(ids, k.pending);
    assert k.pending.Keys == set id | id in ids;
    QueueAcceptance(k, limits, parse);
    SessionAcceptance(k, limits, parse);
  }

  // ---------------------------------------------------------------- acceptance is exact

  predicate Confirms(e: Envelope) {
    e.Notification? && (e.note.Initialized? || e.note.NotificationsInitialized?)
  }

  /** Whatever is accepted reads as what it is said to be: every pending invocation as that request,
      every queued frame as some frame, and the seed as the initialize request with its id and as the
      notification that confirms it. */
  lemma {:induction false} AcceptedIsSealed(c: Capsule, limits: Limits, parse: Parser)
    requires Admissible(c, limits, parse)
    ensures forall x :: x in c.pending ==> parse(x.payload) == Some(Request(x.id, x.rpc))
    ensures c.seed.Some? ==> parse(c.seed.value.payload) == Some(Request(c.seed.value.id, Initialize))
    ensures c.seed.Some? && c.seed.value.notification.Some? ==> (
      parse(c.seed.value.notification.value).Some? && Confirms(parse(c.seed.value.notification.value).value))
    ensures SealedKernel(Hydrated(c, parse), parse)
  {
    HydrateHolds(c.pending, c.next, limits, parse);
    var p := Hydrate(c.pending);
    forall id | id in p ensures Sealed(p[id].frame, parse) {
      var x := ItemOf(id, p[id]);
      assert x in c.pending && p[x.id] == Record(x) && ItemOk(x, c.next, limits, parse);
    }
  }

  /** The capsule describes this kernel; its pending invocations may come in any order. */
  ghost predicate Captures(c: Capsule, k: State) {
    && c.version == FORMAT_VERSION && c.phase == k.phase && c.seed == k.seed && c.next == k.next
    && c.queue == Payloads(k.queue)
    && (forall x :: x in c.pending ==> x.id in k.pending && x == ItemOf(x.id, k.pending[x.id]))
    && (forall id :: id in k.pending ==> ItemOf(id, k.pending[id]) in c.pending)
    && (forall i, j :: 0 <= i < j < |c.pending| ==> c.pending[i].id != c.pending[j].id)
  }

  /** A kernel that the host can be in, whose frames came out of the parser, within the limits. */
  ghost predicate Legal(k: State, limits: Limits, parse: Parser) {
    && Inv(k) && SealedKernel(k, parse) && Fits(k, limits)
    && (k.phase.Initializing? ==> InitializePending(k.pending))
  }

  ghost predicate Earlier(items: seq<PendingSnapshot>) {
    forall x :: x in items ==> x.scheduled == Some(RequestDisposition.Replay) ==> x.attempts < 255
  }

  lemma {:induction false} ItemsHaveDistinctIds(items: seq<PendingSnapshot>, next: u64, limits: Limits, parse: Parser,
      i: nat, j: nat)
    requires ItemsOk(items, next, limits, parse) && i < j < |items|
    ensures items[i].id != items[j].id
    decreases |items|
  {
    var init, last := items[..|items| - 1], items[|items| - 1];
    assert items == init + [last];
    if j == |items| - 1 {
      assert items[i] == init[i] && init[i] in init;
    } else {
      ItemsHaveDistinctIds(init, next, limits, parse, i, j);
    }
  }

  lemma {:induction false} HydratedIsCaptured(c: Capsule, limits: Limits, parse: Parser)
    requires Admissible(c, limits, parse)
    ensures Captures(c, Hydrated(c, parse))
  {
    HydrateHolds(c.pending, c.next, limits, parse);
    var p := Hydrate(c.pending);
    forall x | x in c.pending ensures x.id in p && x == ItemOf(x.id, p[x.id]) {
      assert p[x.id] == Record(x);
    }
    forall i, j | 0 <= i < j < |c.pending| ensures c.pending[i].id != c.pending[j].id {
      ItemsHaveDistinctIds(c.pending, c.next, limits, parse, i, j);
    }
    assert Payloads(FramesFrom(c.queue, parse)) == c.queue;
  }

  lemma {:induction false} HydratedFits(c: Capsule, limits: Limits, parse: Parser)
    requires Admissible(c, limits, parse)
    ensures Fits(Hydrated(c, parse), limits)
  {
    HydrateHolds(c.pending, c.next, limits, parse);
    var p := Hydrate(c.pending);
    forall id | id in p ensures RecordFits(p[id], limits) {
      var x := ItemOf(id, p[id]);
      assert x in c.pending && p[x.id] == Record(x) && ItemOk(x, c.next, limits, parse);
    }
    forall i | 0 <= i < |c.queue| ensures |FramesFrom(c.queue, parse)[i].payload| <= limits.maxFrameBytes {
      assert Readable(c.queue[i], limits, parse);
    }
  }

  predicate Describes(x: PendingSnapshot, p: PendingMap) {
    x.id in p && x == ItemOf(x.id, p[x.id])
  }

  lemma {:induction false} CapturedItem(x: PendingSnapshot, k: State, limits: Limits, parse: Parser)
    requires Identified(k) && SealedPending(k.pending, parse) && Describes(x, k.pending)
    requires RecordFits(k.pending[x.id], limits)
    ensures ItemOk(x, k.next, limits, parse) && Record(x) == k.pending[x.id]
  {
    assert Sane(x.id, k.pending[x.id], k.next);
    ItemAcceptance(x.id, k.pending[x.id], k.next, limits, parse);
    RecordIsBack(x.id, k.pending[x.id], k.next);
  }

  lemma {:induction false} CapturedIsFresh(init: seq<PendingSnapshot>, last: PendingSnapshot, p: PendingMap)
    requires DistinctSequences(p) && Describes(last, p) && forall y :: y in init ==> Describes(y, p) && y.id != last.id
    ensures Fresh(last, init)
  {
    forall y | y in init ensures y.id != last.id && y.sequence != last.sequence {
      assert !Twins(y.id, last.id, p);
    }
  }

  predicate DistinctIdsOf(items: seq<PendingSnapshot>) {
    forall i, j :: 0 <= i < j < |items| ==> items[i].id != items[j].id
  }

  lemma {:induction false} DistinctFront(items: seq<PendingSnapshot>)
    requires DistinctIdsOf(items) && items != []
    ensures DistinctIdsOf(items[..|items| - 1])
    ensures forall y :: y in items[..|items| - 1] ==> y.id != items[|items| - 1].id
  {
  }

  /** The items of a capsule that describes a legal kernel pass, and hydrate to its pending map. */
  lemma {:induction false} CapturedItems(items: seq<PendingSnapshot>, k: State, limits: Limits, parse: Parser)
    requires Identified(k) && DistinctSequences(k.pending) && SealedPending(k.pending, parse)
    requires forall id :: id in k.pending ==> RecordFits(k.pending[id], limits)
    requires DistinctIdsOf(items) && forall x :: x in items ==> Describes(x, k.pending)
    ensures ItemsOk(items, k.next, limits, parse)
    ensures forall id :: id in Hydrate(items) ==> id in k.pending && Hydrate(items)[id] == k.pending[id]
    ensures forall x :: x in items ==> x.id in Hydrate(items)
    decreases |items|
  {
    hide Identified, DistinctSequences, SealedPending, DistinctIdsOf, RecordFits, ItemOk, Fresh, Record;
    if items != [] {
      var init, last := items[..|items| - 1], items[|items| - 1];
      assert items == init + [last] && last in items;
      DistinctFront(items);
      CapturedItems(init, k, limits, parse);
      CapturedItem(last, k, limits, parse);
      CapturedIsFresh(init, last, k.pending);
    }
  }

  lemma {:induction false} CapturedQueue(c: Capsule, k: State, limits: Limits, parse: Parser)
    requires c.queue == Payloads(k.queue) && SealedQueue(k.queue, parse)
    requires forall i :: 0 <= i < |k.queue| ==> |k.queue[i].payload| <= limits.maxFrameBytes
    ensures forall i :: 0 <= i < |c.queue| ==> Readable(c.queue[i], limits, parse)
    ensures FramesFrom(c.queue, parse) == k.queue
  {
    assert forall i :: 0 <= i < |c.queue| ==> c.queue[i] == k.queue[i].payload && Sealed(k.queue[i], parse);
  }

  lemma {:induction false} CapturedPending(c: Capsule, k: State, limits: Limits, parse: Parser)
    requires Captures(c, k) && Legal(k, limits, parse)
    ensures ItemsOk(c.pending, c.next, limits, parse) && Hydrate(c.pending) == k.pending
    ensures |c.pending| == |k.pending|
  {
    hide Identified, DistinctSequences, SealedPending, SealedQueue, SealedSeed, SessionAgrees, Split, RecordFits,
      SeedFits, InitializePending, ItemsOk, Hydrate;
    forall x | x in c.pending ensures Describes(x, k.pending) { }
    CapturedItems(c.pending, k, limits, parse);
    HydrateHolds(c.pending, c.next, limits, parse);
    forall id | id in k.pending ensures id in Hydrate(c.pending) {
      assert ItemOf(id, k.pending[id]) in c.pending;
    }
  }

  lemma {:induction false} CapturedIsAdmissible(c: Capsule, k: State, limits: Limits, parse: Parser)
    requires Captures(c, k) && Legal(k, limits, parse)
    ensures Admissible(c, limits, parse)
  {
    hide Identified, DistinctSequences, SealedPending, SealedQueue, Split, RecordFits, SeedFits, InitializePending,
      ItemsOk, Hydrate, SessionOk, SessionAgrees;
    CapturedPending(c, k, limits, parse);
    CapturedQueue(c, k, limits, parse);
    SessionAcceptance(k, limits, parse);
    assert Hydrated(c, parse) == k;
  }

  lemma {:induction false} CapturedIsEarlier(c: Capsule, k: State)
    requires Captures(c, k) && Identified(k)
    ensures Earlier(c.pending)
  {
    forall x | x in c.pending && x.scheduled == Some(RequestDisposition.Replay) ensures x.attempts < 255 {
      assert Sane(x.id, k.pending[x.id], k.next);
    }
  }

  /** Restoring accepts a capsule, short of the last eight-bit attempt, if and only if the capsule describes
      a legal kernel: soundness and completeness of every check at once. */
  lemma {:induction false} AcceptanceIsExact(c: Capsule, limits: Limits, parse: Parser)
    ensures Admissible(c, limits, parse) && Earlier(c.pending) <==>
        exists k :: Captures(c, k) && Legal(k, limits, parse)
  {
    hide Captures, Admissible, SealedKernel, Fits, Identified, Split, SessionAgrees, DistinctSequences, Earlier;
    if Admissible(c, limits, parse) && Earlier(c.pending) {
      AdmissibleIsLegal(c, limits, parse);
    }
    if exists k :: Captures(c, k) && Legal(k, limits, parse) {
      var k :| Captures(c, k) && Legal(k, limits, parse);
      CapturedIsAdmissible(c, k, limits, parse);
      CapturedIsEarlier(c, k);
    }
  }

  lemma {:induction false} AdmissibleIsLegal(c: Capsule, limits: Limits, parse: Parser)
    requires Earlier(c.pending) && Admissible(c, limits, parse)
    ensures Captures(c, Hydrated(c, parse)) && Legal(Hydrated(c, parse), limits, parse)
  {
    hide SealedKernel, Fits, Captures;
    RestoreIsSound(c, limits, parse);
    AcceptedIsSealed(c, limits, parse);
    HydratedIsCaptured(c, limits, parse);
    HydratedFits(c, limits, parse);
  }

  // ---------------------------------------------------------------- the last attempt

  /** The head of the queue is a replay that already stands at attempt 255. */
  predicate LastAttemptAtHead(k: State) {
    && k.queue != [] && k.queue[0].envelope.Request? && k.queue[0].envelope.id in k.pending
    && k.pending[k.queue[0].envelope.id].scheduled == Some(RequestDisposition.Replay)
    && k.pending[k.queue[0].envelope.id].attempts == 255
  }

  lemma {:induction false} PopErrsAtHead(k: State)
    requires k.queue != [] && k.queue[0].envelope.Request? && k.queue[0].envelope.id in k.pending ==>
      ValidSchedule(k.pending[k.queue[0].envelope.id]) && k.pending[k.queue[0].envelope.id].scheduled.Some?
    ensures k.Pop().result.Err? <==> LastAttemptAtHead(k)
  {
  }

  /** On an accepted capsule `pop_next_dispatch` errs exactly when the head of the queue is a replay
      that already stands at attempt 255. */
  lemma {:induction false} AcceptedPopErrs(c: Capsule, limits: Limits, parse: Parser)
    requires Admissible(c, limits, parse)
    ensures Hydrated(c, parse).Pop().result.Err? <==> LastAttemptAtHead(Hydrated(c, parse))
  {
    var k := Hydrated(c, parse);
    HydrateHolds(c.pending, c.next, limits, parse);
    if k.queue != [] && k.queue[0].envelope.Request? && k.queue[0].envelope.id in k.pending {
      var id := k.queue[0].envelope.id;
      assert ItemOf(id, k.pending[id]) in c.pending;
      var ids, backlog :| Split(k, ids, backlog);
      AcceptedHead(k, ids, backlog);
    }
    PopErrsAtHead(k);
  }

  /** No capsule accepted under a smaller ceiling gets there. */
  lemma {:induction false} LowerCeilingNeverErrs(c: Capsule, limits: Limits, parse: Parser)
    requires Admissible(c, limits, parse) && limits.maxAttempts < 255
    ensures Inv(Hydrated(c, parse)) && Hydrated(c, parse).Pop().result.Ok?
  {
    HydrateHolds(c.pending, c.next, limits, parse);
    RestoreIsSound(c, limits, parse);
    PopNeverErrs(Hydrated(c, parse));
  }

  lemma {:induction false} AcceptedHead(k: State, ids: seq<RequestId>, backlog: seq<Frame>)
    requires Split(k, ids, backlog) && k.queue != [] && k.queue[0].envelope.Request?
    requires k.queue[0].envelope.id in k.pending
    requires forall id :: id in k.pending ==> k.pending[id].frame.envelope == Request(id, k.pending[id].rpc)
    ensures k.pending[k.queue[0].envelope.id].scheduled.Some?
  {
    assert ids == [] ==> k.queue == backlog;
    assert k.queue[0].envelope.id in QueuedIds(k.queue);
    if ids == [] {
      assert false;
    } else {
      assert ids[0] in ids && k.queue[0] == k.pending[ids[0]].frame;
    }
  }

  lemma {:induction false} OneItemOk(x: PendingSnapshot, next: u64, limits: Limits, parse: Parser)
    requires ItemOk(x, next, limits, parse)
    ensures ItemsOk([x], next, limits, parse)
  {
    ItemsOkAppend([], x, next, limits, parse);
    assert [] + [x] == [x];
  }

  const LastAttempt := PendingSnapshot(
    Callback(0), ToolsList, 0, [1], Convergent, OutcomeUnknown, 255, Some(RequestDisposition.Replay))
  const LastAttemptCapsule := Capsule(FORMAT_VERSION, Cold, None, [LastAttempt], [[1]], 1)
  const LastAttemptParser: Parser := (p: Payload) => Some(Request(Callback(0), ToolsList))

  lemma {:induction false} LastAttemptHydrates()
    ensures Hydrate([LastAttempt]) == map[Callback(0) := Record(LastAttempt)]
    ensures ItemsOk([LastAttempt], 1, Limits(1, 1, 1, 255), LastAttemptParser)
  {
    assert [] + [LastAttempt] == [LastAttempt];
    HydrateAppend([], LastAttempt);
    assert LastAttemptParser([1]) == Some(Request(Callback(0), ToolsList));
    assert |LastAttempt.payload| <= 1 && LastAttempt.attempts <= 255 && ValidSchedule(Record(LastAttempt));
    OneItemOk(LastAttempt, 1, Limits(1, 1, 1, 255), LastAttemptParser);
  }

  /** With the ceiling at 255 such a capsule exists: it is accepted, its first pop reports an
      exhausted budget, and the error leaves the invocation marked in flight and still scheduled. */
  lemma {:induction false} LastAttemptIsAccepted()
    ensures Admissible(LastAttemptCapsule, Limits(1, 1, 1, 255), LastAttemptParser)
    ensures var k := Hydrated(LastAttemptCapsule, LastAttemptParser);
      k.Pop().result == Err(ReplayBudgetExhausted) && k.Pop().kernel != k &&
          !ValidSchedule(k.Pop().kernel.pending[Callback(0)])
  {
    var k := Hydrated(LastAttemptCapsule, LastAttemptParser);
    LastAttemptHydrates();
    var lane := [Callback(0)];
    assert lane[1..] == [] && FramesOf(lane[1..], k.pending) == [];
    assert k.queue == FramesOf(lane, k.pending) + [];
    assert Ascending(lane[1..], k.pending) && Older(lane[0], lane[1..], k.pending);
    assert Callback(0) in lane && Lane(lane, k.pending);
    assert Split(k, lane, []);
    assert LastAttemptParser([1]) == Some(Request(Callback(0), ToolsList));
  }
}
