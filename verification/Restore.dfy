/** Restoring a kernel from an arbitrary capsule: the loops of the restorer, proved to accept
    exactly the admissible capsules and to report only defects that the capsule has. */
module Restore {
  import opened Wire
  import opened Replay
  import opened Kernel
  import opened KernelInvariant
  import opened Snapshot

  // ---------------------------------------------------------------- the handshake clause

  function ValidateSession(k: State, limits: Limits, parse: Parser): Option<SnapshotError> {
    var initializes := set id | id in k.pending && k.pending[id].rpc.Initialize?;
    if |initializes| > 1 then Some(Contradiction)
    else if k.seed.None? then
      if k.phase.Cold? && initializes == {} then None else Some(Contradiction)
    else
      var s := k.seed.value;
      if |s.payload| > limits.maxFrameBytes || (s.notification.Some? &&
          |s.notification.value| > limits.maxFrameBytes) then
        Some(Capacity(InitializationBytes))
      else if parse(s.payload).None? then Some(InvalidFrame)
      else if parse(s.payload).value != Request(s.id, Initialize) then Some(Contradiction)
      else if s.notification.Some? && parse(s.notification.value).None? then Some(InvalidFrame)
      else if s.notification.Some? && !(parse(s.notification.value).value.Notification?
                && IsInitializedNotification(parse(s.notification.value).value.note)) then Some(Contradiction)
      else
        var valid := match k.phase
          case Cold => initializes == {} && s.notification.None?
          case Initializing =>
            s.notification.None? && initializes == {s.id} && k.pending[s.id].frame.payload == s.payload
          case AwaitingInitialized => initializes == {} && s.notification.None?
          case Live => initializes == {} && s.notification.Some?;
        if valid then None else Some(Contradiction)
  }

  lemma {:induction false} ValidatesSession(k: State, limits: Limits, parse: Parser)
    ensures ValidateSession(k, limits, parse).None? <==> SessionOk(k, limits, parse)
  {
    var initializes := set id | id in k.pending && k.pending[id].rpc.Initialize?;
    assert forall id :: id in initializes <==> id in k.pending && k.pending[id].rpc.Initialize?;
    if initializes != {} && SessionAgrees(k) {
      var x :| x in initializes;
      assert x == k.seed.value.id;
      assert initializes == {x};
    }
  }

  lemma {:induction false} ContradictionIsUnshaken(k: State, limits: Limits, parse: Parser)
    requires ValidateSession(k, limits, parse) == Some(Contradiction)
    ensures Unshaken(k, limits, parse)
  {
    ValidatesSession(k, limits, parse);
    var initializes := set id | id in k.pending && k.pending[id].rpc.Initialize?;
    if |initializes| > 1 {
      var a :| a in initializes;
      assert |initializes - {a}| > 0;
      var b :| b in initializes - {a};
      assert Initializes(k.pending, a) && Initializes(k.pending, b);
    }
  }

  // ---------------------------------------------------------------- the queue clause

  ghost predicate FrameIds(p: PendingMap) {
    forall id :: id in p ==> p[id].frame.envelope == Request(id, p[id].rpc)
  }

  predicate Recovery(f: Frame, p: PendingMap) {
    f.envelope.Request? && f.envelope.id in p
  }

  /** A queue read so far: scheduled invocations oldest first, then client backlog. */
  ghost predicate Routed(frames: seq<Frame>, p: PendingMap, lane: seq<RequestId>, backlog: seq<Frame>) {
    && Ascending(lane, p)
    && (forall id :: id in lane ==> p[id].scheduled.Some?)
    && Backlog(backlog, p)
    && frames == FramesOf(lane, p) + backlog
  }

  lemma {:induction false} FrameAt(ids: seq<RequestId>, p: PendingMap, i: nat)
    requires AllIn(ids, p) && i < |ids|
    ensures ids[i] in p && FramesOf(ids, p)[i] == p[ids[i]].frame
  {
    assert ids[i] in ids;
    assert AllIn(ids[1..], p);
    if i > 0 {
      FrameAt(ids[1..], p, i - 1);
    }
  }

  lemma {:induction false} QueuedAt(frames: seq<Frame>, i: nat)
    requires i < |frames| && frames[i].envelope.Request?
    ensures frames[i].envelope.id in QueuedIds(frames)
  {
    if i > 0 {
      QueuedAt(frames[1..], i - 1);
    }
  }

  lemma {:induction false} AscendingAt(ids: seq<RequestId>, p: PendingMap, j: nat, i: nat)
    requires Ascending(ids, p) && j < i < |ids|
    ensures ids[j] in p && ids[i] in p && p[ids[j]].sequence < p[ids[i]].sequence
  {
    if j == 0 {
      assert ids[1..][i - 1] in ids[1..];
    } else {
      AscendingAt(ids[1..], p, j - 1, i - 1);
    }
  }

  /** Where the lane of a queue ends is determined by the queue. */
  lemma {:induction false} LaneEnds(frames: seq<Frame>, p: PendingMap, lane: seq<RequestId>, backlog: seq<Frame>,
      j: nat)
    requires FrameIds(p) && Routed(frames, p, lane, backlog) && j < |frames|
    ensures j < |lane| <==> Recovery(frames[j], p)
    ensures j < |lane| ==> (
      lane[j] in p && lane[j] in lane && frames[j] == p[lane[j]].frame && frames[j].envelope.id == lane[j])
  {
    if j < |lane| {
      FrameAt(lane, p, j);
    } else {
      assert frames[j] == backlog[j - |lane|];
      if frames[j].envelope.Request? {
        QueuedAt(backlog, j - |lane|);
      }
    }
  }

  lemma {:induction false} LaneNoRepeats(lane: seq<RequestId>, p: PendingMap)
    requires FrameIds(p) && Ascending(lane, p)
    ensures NoRepeats(FramesOf(lane, p)) && QueuedIds(FramesOf(lane, p)) == set id | id in lane
  {
    if lane != [] {
      LaneNoRepeats(lane[1..], p);
      assert lane[0] !in lane[1..];
      assert (set id | id in lane) == {lane[0]} + set id | id in lane[1..];
    }
  }

  lemma {:induction false} RoutedNoRepeats(frames: seq<Frame>, p: PendingMap, lane: seq<RequestId>, backlog: seq<Frame>)
    requires FrameIds(p) && Routed(frames, p, lane, backlog)
    ensures NoRepeats(frames)
  {
    LaneNoRepeats(lane, p);
    NoRepeatsAppend(FramesOf(lane, p), backlog);
  }

  lemma {:induction false} NoRepeatsAt(frames: seq<Frame>, i: nat)
    requires NoRepeats(frames) && i < |frames| && frames[i].envelope.Request?
    ensures frames[i].envelope.id !in QueuedIds(frames[..i])
  {
    if i > 0 {
      NoRepeatsAt(frames[1..], i - 1);
      QueuedAt(frames[1..], i - 1);
      assert frames[..i][1..] == frames[1..][..i - 1];
    }
  }

  /** What the restorer demands of the next queued frame. */
  ghost predicate MayFollow(f: Frame, frames: seq<Frame>, p: PendingMap, lane: seq<RequestId>, backlog: seq<Frame>)
    requires Ascending(lane, p)
  {
    && (f.envelope.Request? ==> f.envelope.id !in QueuedIds(frames))
    && (Recovery(f, p) ==>
         && backlog == []
         && p[f.envelope.id].scheduled.Some?
         && p[f.envelope.id].frame == f
         && (forall x :: x in lane ==> p[x].sequence < p[f.envelope.id].sequence))
  }

  /** A queue that splits into lane and backlog passes every check on the way ... */
  lemma {:induction false} RoutedPasses(all: seq<Frame>, p: PendingMap, lane2: seq<RequestId>,
      backlog2: seq<Frame>, i: nat, lane: seq<RequestId>, backlog: seq<Frame>)
    requires FrameIds(p) && Routed(all, p, lane2, backlog2) && i < |all| && Routed(all[..i], p, lane, backlog)
    ensures MayFollow(all[i], all[..i], p, lane, backlog)
  {
    RoutedNoRepeats(all, p, lane2, backlog2);
    if all[i].envelope.Request? {
      NoRepeatsAt(all, i);
    }
    LaneEnds(all, p, lane2, backlog2, i);
    if Recovery(all[i], p) {
      assert |lane| + |backlog| == i;
      if |lane| < i {
        LaneEnds(all, p, lane2, backlog2, |lane|);
        LaneEnds(all[..i], p, lane, backlog, |lane|);
        assert false;
      }
      forall j | 0 <= j < i ensures lane[j] == lane2[j] {
        LaneEnds(all, p, lane2, backlog2, j);
        LaneEnds(all[..i], p, lane, backlog, j);
      }
      forall x | x in lane ensures p[x].sequence < p[lane2[i]].sequence {
        var j :| 0 <= j < |lane| && lane[j] == x;
        AscendingAt(lane2, p, j, i);
      }
    }
  }

  lemma {:induction false} LaneExtends(frames: seq<Frame>, f: Frame, p: PendingMap, lane: seq<RequestId>)
    requires Routed(frames, p, lane, []) && MayFollow(f, frames, p, lane, []) && Recovery(f, p)
    ensures Routed(frames + [f], p, lane + [f.envelope.id], [])
  {
    var id := f.envelope.id;
    assert AllIn([id], p);
    forall x | x in lane ensures Older(x, [id], p) { }
    AscendingAppends(lane, [id], p);
    FramesAppend(lane, [id], p);
    assert [id][1..] == [] && FramesOf([id], p) == [f] + FramesOf([id][1..], p);
    assert frames + [f] == FramesOf(lane + [id], p) + [];
    assert forall x :: x in lane + [id] ==> x in lane || x == id;
  }

  lemma {:induction false} BacklogExtends(frames: seq<Frame>, f: Frame, p: PendingMap, lane: seq<RequestId>,
      backlog: seq<Frame>)
    requires Routed(frames, p, lane, backlog) && MayFollow(f, frames, p, lane, backlog) && !Recovery(f, p)
    ensures Routed(frames + [f], p, lane, backlog + [f])
  {
    QueuedIdsAppend(FramesOf(lane, p), backlog);
    QueuedIdsAppend(backlog, [f]);
    NoRepeatsAppend(backlog, [f]);
    assert frames + [f] == FramesOf(lane, p) + (backlog + [f]);
  }

  /** ... and a frame that passes extends the split. */
  lemma {:induction false} RoutedExtends(frames: seq<Frame>, f: Frame, p: PendingMap, lane: seq<RequestId>,
      backlog: seq<Frame>)
    requires FrameIds(p) && Routed(frames, p, lane, backlog) && MayFollow(f, frames, p, lane, backlog)
    ensures Recovery(f, p) ==> Routed(frames + [f], p, lane + [f.envelope.id], [])
    ensures !Recovery(f, p) ==> Routed(frames + [f], p, lane, backlog + [f])
  {
    if Recovery(f, p) {
      LaneExtends(frames, f, p, lane);
    } else {
      BacklogExtends(frames, f, p, lane, backlog);
    }
  }

  // ---------------------------------------------------------------- the restorer

  predicate Clash(x: PendingSnapshot, y: PendingSnapshot) {
    x.sequence == y.sequence || x.id == y.id
  }

  /** Two invocations share a number or an id. */
  ghost predicate Repeats(items: seq<PendingSnapshot>) {
    exists i, j :: 0 <= i < j < |items| && Clash(items[i], items[j])
  }

  /** The number was never issued, knowledge and disposition disagree, or the frame is another request. */
  predicate Mislabelled(x: PendingSnapshot, next: u64, parse: Parser) {
    x.sequence >= next || !ValidSchedule(Record(x)) || (parse(x.payload).Some? &&
        parse(x.payload) != Some(Request(x.id, x.rpc)))
  }

  /** A readable part of the queue is not scheduled invocations, oldest first, before client frames. */
  ghost predicate Misrouted(queue: seq<Payload>, p: PendingMap, limits: Limits, parse: Parser) {
    exists n: nat :: n <= |queue| && !QueueOk(queue[..n], p, limits, parse) && forall i :: 0 <= i < n ==>
        Readable(queue[i], limits, parse)
  }

  /** An invocation is scheduled, but nothing queued carries its id. */
  ghost predicate Unqueued(queue: seq<Payload>, p: PendingMap, parse: Parser) {
    && (forall i :: 0 <= i < |queue| ==> parse(queue[i]).Some?)
    && (exists id :: id in p && p[id].scheduled.Some? && id !in QueuedIds(FramesFrom(queue, parse)))
  }

  ghost predicate Initializes(p: PendingMap, id: RequestId) {
    id in p && p[id].rpc.Initialize?
  }

  /** Two initialize requests are pending; or the seed can be read, but seed, phase and pending
      invocations do not fit together. */
  ghost predicate Unshaken(k: State, limits: Limits, parse: Parser) {
    && !SessionOk(k, limits, parse)
    && (|| (exists a, b :: a != b && Initializes(k.pending, a) && Initializes(k.pending, b))
        || (k.seed.Some? ==> SeedFits(k, limits) && parse(k.seed.value.payload).Some?))
  }

  ghost predicate Contradictory(c: Capsule, limits: Limits, parse: Parser) {
    || Repeats(c.pending)
    || (exists x :: x in c.pending && Mislabelled(x, c.next, parse))
    || Misrouted(c.queue, Hydrate(c.pending), limits, parse)
    || Unqueued(c.queue, Hydrate(c.pending), parse)
    || ((forall i :: 0 <= i < |c.queue| ==> parse(c.queue[i]).Some?) && Unshaken(Hydrated(c, parse), limits, parse))
  }

  /** A rejection names a defect that the capsule has. */
  ghost predicate Justified(e: SnapshotError, c: Capsule, limits: Limits, parse: Parser) {
    match e
    case UnsupportedVersion(found) => found == c.version != FORMAT_VERSION
    case Capacity(PendingRequests) => |c.pending| > limits.maxPending
    case Capacity(QueuedFrames) => |c.queue| > limits.maxQueued
    case Capacity(FrameBytes) =>
      || (exists x :: x in c.pending && |x.payload| > limits.maxFrameBytes)
      || (exists payload :: payload in c.queue && |payload| > limits.maxFrameBytes)
    case Capacity(ReplayAttempts) => exists x :: x in c.pending && x.attempts > limits.maxAttempts
    case Capacity(InitializationBytes) =>
      c.seed.Some? && (|c.seed.value.payload| > limits.maxFrameBytes
        || (c.seed.value.notification.Some? && |c.seed.value.notification.value| > limits.maxFrameBytes))
    case InvalidFrame =>
      || (exists x :: x in c.pending && parse(x.payload).None?)
      || (exists payload :: payload in c.queue && parse(payload).None?)
      || (c.seed.Some? && parse(c.seed.value.payload).None?)
      || (c.seed.Some? && c.seed.value.notification.Some? && parse(c.seed.value.notification.value).None?)
    case Contradiction => Contradictory(c, limits, parse)
  }

  function Sequences(items: seq<PendingSnapshot>): set<u64> {
    set x | x in items :: x.sequence
  }

  function Ids(items: seq<PendingSnapshot>): set<RequestId> {
    set x | x in items :: x.id
  }

  lemma {:induction false} FreshBySets(x: PendingSnapshot, earlier: seq<PendingSnapshot>)
    ensures Fresh(x, earlier) <==> x.sequence !in Sequences(earlier) && x.id !in Ids(earlier)
  {
  }

  lemma {:induction false} SetsGrow(items: seq<PendingSnapshot>, x: PendingSnapshot)
    ensures Sequences(items + [x]) == Sequences(items) + {x.sequence} && Ids(items + [x]) == Ids(items) + {x.id}
    ensures Hydrate(items + [x]) == Hydrate(items)[x.id := Record(x)]
  {
    assert (items + [x])[..|items|] == items;
  }

  lemma {:induction false} NextItem(items: seq<PendingSnapshot>, i: nat, next: u64, limits: Limits, parse: Parser)
    requires i < |items| && ItemsOk(items[..i], next, limits, parse)
    ensures ItemsOk(items[..i + 1], next, limits, parse) <==>
      (ItemOk(items[i], next, limits, parse) && items[i].sequence !in Sequences(items[..i]) &&
          items[i].id !in Ids(items[..i]))
    ensures !ItemsOk(items[..i + 1], next, limits, parse) ==> !ItemsOk(items, next, limits, parse)
    ensures Hydrate(items[..i + 1]) == Hydrate(items[..i])[items[i].id := Record(items[i])]
    ensures Sequences(items[..i + 1]) == Sequences(items[..i]) + {items[i].sequence}
    ensures Ids(items[..i + 1]) == Ids(items[..i]) + {items[i].id}
  {
    hide ItemOk, ItemsOk, Fresh, Sequences, Ids, Hydrate, Record;
    assert items[..i + 1] == items[..i] + [items[i]];
    FreshBySets(items[i], items[..i]);
    SetsGrow(items[..i], items[i]);
    ItemsOkAppend(items[..i], items[i], next, limits, parse);
    if ItemsOk(items, next, limits, parse) {
      ItemsOkPrefix(items, i + 1, next, limits, parse);
    }
  }

  lemma {:induction false} ItemDefect(c: Capsule, i: nat, limits: Limits, parse: Parser)
    requires i < |c.pending|
    ensures |c.pending[i].payload| > limits.maxFrameBytes ==> Justified(Capacity(FrameBytes), c, limits, parse)
    ensures c.pending[i].attempts > limits.maxAttempts ==> Justified(Capacity(ReplayAttempts), c, limits, parse)
    ensures parse(c.pending[i].payload).None? ==> Justified(InvalidFrame, c, limits, parse)
    ensures Mislabelled(c.pending[i], c.next, parse) ==> Justified(Contradiction, c, limits, parse)
    ensures c.pending[i].sequence in Sequences(c.pending[..i]) || c.pending[i].id in Ids(c.pending[..i]) ==>
        Justified(Contradiction, c, limits, parse)
  {
    assert c.pending[i] in c.pending;
    if c.pending[i].sequence in Sequences(c.pending[..i]) || c.pending[i].id in Ids(c.pending[..i]) {
      var y :| y in c.pending[..i] && Clash(y, c.pending[i]);
      var j :| 0 <= j < i && c.pending[j] == y;
      assert Clash(c.pending[j], c.pending[i]);
    }
  }

  method HydratePending(c: Capsule, limits: Limits, parse: Parser) returns (pending: PendingMap,
      error: Option<SnapshotError>)
    ensures error.None? <==> ItemsOk(c.pending, c.next, limits, parse)
    ensures error.None? ==> pending == Hydrate(c.pending)
    ensures error.Some? ==> Justified(error.value, c, limits, parse)
  {
    hide Justified;
    pending := map[];
    var sequences: set<u64> := {};
    for i := 0 to |c.pending|
      invariant ItemsOk(c.pending[..i], c.next, limits, parse) && pending == Hydrate(c.pending[..i])
      invariant sequences == Sequences(c.pending[..i]) && pending.Keys == Ids(c.pending[..i])
    {
      var x := c.pending[i];
      ItemDefect(c, i, limits, parse);
      NextItem(c.pending, i, c.next, limits, parse);
      if |x.payload| > limits.maxFrameBytes {
        return pending, Some(Capacity(FrameBytes));
      }
      if x.attempts > limits.maxAttempts {
        return pending, Some(Capacity(ReplayAttempts));
      }
      if x.sequence in sequences || x.sequence >= c.next {
        return pending, Some(Contradiction);
      }
      if !ValidSchedule(Record(x)) {
        return pending, Some(Contradiction);
      }
      var parsed := parse(x.payload);
      if parsed.None? {
        return pending, Some(InvalidFrame);
      }
      if parsed.value != Request(x.id, x.rpc) || x.id in pending {
        return pending, Some(Contradiction);
      }
      sequences := sequences + {x.sequence};
      pending := pending[x.id := Record(x)];
    }
    assert c.pending[..|c.pending|] == c.pending;
    error := None;
  }

  ghost predicate QueueOk(queue: seq<Payload>, p: PendingMap, limits: Limits, parse: Parser) {
    && (forall i :: 0 <= i < |queue| ==> Readable(queue[i], limits, parse))
    && (exists ids, backlog :: Routed(FramesFrom(queue, parse), p, ids, backlog))
  }

  /** Stopping at a frame that may not follow is right: no split of the whole queue exists. */
  lemma {:induction false} StuckQueue(queue: seq<Payload>, p: PendingMap, limits: Limits, parse: Parser, i: nat,
      frames: seq<Frame>, lane: seq<RequestId>, backlog: seq<Frame>)
    requires FrameIds(p) && i < |queue| && parse(queue[i]).Some? && |frames| == i
    requires forall j :: 0 <= j < i ==> parse(queue[j]).Some? && frames[j] == FrameOf(queue[j], parse)
    requires Routed(frames, p, lane, backlog) && !MayFollow(FrameOf(queue[i], parse), frames, p, lane, backlog)
    ensures !QueueOk(queue, p, limits, parse)
  {
    if QueueOk(queue, p, limits, parse) {
      var all := FramesFrom(queue, parse);
      var lane2, backlog2 :| Routed(all, p, lane2, backlog2);
      assert all[..i] == frames;
      RoutedPasses(all, p, lane2, backlog2, i, lane, backlog);
      assert false;
    }
  }

  /** What the restorer has learned from the frames read so far. */
  ghost predicate Reading(frames: seq<Frame>, p: PendingMap, lane: seq<RequestId>, backlog: seq<Frame>,
                          queuedIds: set<RequestId>, seen: set<RequestId>, last: Option<u64>, reached: bool)
  {
    && Routed(frames, p, lane, backlog)
    && queuedIds == QueuedIds(frames)
    && seen == (set id | id in lane)
    && (reached <==> backlog != [])
    && (last.None? <==> lane == [])
    && (last.Some? ==> lane[|lane| - 1] in p && p[lane[|lane| - 1]].sequence == last.value)
  }

  predicate Refused(f: Frame, p: PendingMap, queuedIds: set<RequestId>, last: Option<u64>, reached: bool) {
    f.envelope.Request? && (
      || f.envelope.id in queuedIds
      || (f.envelope.id in p && (
           || reached
           || p[f.envelope.id].scheduled.None?
           || p[f.envelope.id].frame.payload != f.payload
           || (last.Some? && last.value >= p[f.envelope.id].sequence))))
  }

  /** The restorer's test on one frame is the demand above: the last sequence stands for the lane. */
  lemma {:induction false} TestIsExact(f: Frame, frames: seq<Frame>, p: PendingMap, lane: seq<RequestId>,
      backlog: seq<Frame>, queuedIds: set<RequestId>, seen: set<RequestId>, last: Option<u64>, reached: bool,
      parse: Parser)
    requires Reading(frames, p, lane, backlog, queuedIds, seen, last, reached)
    requires Sealed(f, parse) && forall id :: id in p ==> Sealed(p[id].frame, parse)
    ensures Refused(f, p, queuedIds, last, reached) <==> !MayFollow(f, frames, p, lane, backlog)
  {
    LastIsYoungest(lane, p);
    if Recovery(f, p) {
      assert Sealed(p[f.envelope.id].frame, parse);
      assert last.Some? ==> lane[|lane| - 1] in lane;
    }
  }

  lemma {:induction false} ReadingExtends(f: Frame, frames: seq<Frame>, p: PendingMap, lane: seq<RequestId>,
      backlog: seq<Frame>, queuedIds: set<RequestId>, seen: set<RequestId>, last: Option<u64>, reached: bool)
    requires FrameIds(p) && Reading(frames, p, lane, backlog, queuedIds, seen, last, reached)
    requires MayFollow(f, frames, p, lane, backlog)
    ensures Recovery(f, p) ==>
        Reading(frames + [f], p, lane + [f.envelope.id], [], queuedIds + {f.envelope.id}, seen + {f.envelope.id},
          Some(p[f.envelope.id].sequence), reached)
    ensures !Recovery(f, p) ==>
        Reading(frames + [f], p, lane, backlog + [f],
          queuedIds + (if f.envelope.Request? then {f.envelope.id} else {}), seen, last, true)
  {
    RoutedExtends(frames, f, p, lane, backlog);
    QueuedIdsAppend(frames, [f]);
  }

  /** The first objection to one queued payload, if there is any. */
  function Defect(payload: Payload, p: PendingMap, queuedIds: set<RequestId>, last: Option<u64>, reached: bool,
      limits: Limits, parse: Parser): Option<SnapshotError> {
    if |payload| > limits.maxFrameBytes then Some(Capacity(FrameBytes))
    else if parse(payload).None? then Some(InvalidFrame)
    else if Refused(FrameOf(payload, parse), p, queuedIds, last, reached) then Some(Contradiction)
    else None
  }

  lemma {:induction false} UnreadableIsReal(c: Capsule, p: PendingMap, limits: Limits, parse: Parser, i: nat)
    requires i < |c.queue| && !Readable(c.queue[i], limits, parse)
    ensures !QueueOk(c.queue, p, limits, parse)
    ensures |c.queue[i]| > limits.maxFrameBytes ==> Justified(Capacity(FrameBytes), c, limits, parse)
    ensures parse(c.queue[i]).None? ==> Justified(InvalidFrame, c, limits, parse)
  {
    assert c.queue[i] in c.queue;
  }

  lemma {:induction false} RefusalIsReal(c: Capsule, limits: Limits, parse: Parser, i: nat,
      frames: seq<Frame>, lane: seq<RequestId>, backlog: seq<Frame>)
    requires FrameIds(Hydrate(c.pending)) && i < |c.queue| && |frames| == i
    requires forall j :: 0 <= j < i ==> Readable(c.queue[j], limits, parse) && frames[j] == FrameOf(c.queue[j], parse)
    requires Readable(c.queue[i], limits, parse) && Routed(frames, Hydrate(c.pending), lane, backlog)
    requires !MayFollow(FrameOf(c.queue[i], parse), frames, Hydrate(c.pending), lane, backlog)
    ensures !QueueOk(c.queue, Hydrate(c.pending), limits, parse) && Justified(Contradiction, c, limits, parse)
  {
    hide QueueOk, Routed, MayFollow, Hydrate, Unqueued, Unshaken, Repeats, Mislabelled;
    var p := Hydrate(c.pending);
    StuckQueue(c.queue, p, limits, parse, i, frames, lane, backlog);
    StuckQueue(c.queue[..i + 1], p, limits, parse, i, frames, lane, backlog);
  }

  lemma {:induction false} DefectIsReal(c: Capsule, p: PendingMap, limits: Limits, parse: Parser, i: nat,
      frames: seq<Frame>, lane: seq<RequestId>, backlog: seq<Frame>,
      queuedIds: set<RequestId>, seen: set<RequestId>, last: Option<u64>, reached: bool)
    requires FrameIds(p) && p == Hydrate(c.pending) && forall id :: id in p ==> Sealed(p[id].frame, parse)
    requires i < |c.queue| && |frames| == i
    requires forall j :: 0 <= j < i ==> Readable(c.queue[j], limits, parse) && frames[j] == FrameOf(c.queue[j], parse)
    requires Reading(frames, p, lane, backlog, queuedIds, seen, last, reached)
    ensures var d := Defect(c.queue[i], p, queuedIds, last, reached, limits, parse);
      if d.None? then Readable(c.queue[i], limits, parse) &&
          MayFollow(FrameOf(c.queue[i], parse), frames, p, lane, backlog)
      else Justified(d.value, c, limits, parse) && !QueueOk(c.queue, p, limits, parse)
  {
    hide Justified, QueueOk, Refused, MayFollow, Hydrate, FrameIds;
    if !Readable(c.queue[i], limits, parse) {
      UnreadableIsReal(c, p, limits, parse, i);
    } else {
      TestIsExact(FrameOf(c.queue[i], parse), frames, p, lane, backlog, queuedIds, seen, last, reached, parse);
      if Refused(FrameOf(c.queue[i], parse), p, queuedIds, last, reached) {
        RefusalIsReal(c, limits, parse, i, frames, lane, backlog);
      }
    }
  }

  lemma {:induction false} NothingRead(p: PendingMap)
    ensures Reading([], p, [], [], {}, {}, None, false)
  {
  }

  lemma {:induction false} AllRead(queue: seq<Payload>, p: PendingMap, limits: Limits, parse: Parser,
      frames: seq<Frame>, lane: seq<RequestId>, backlog: seq<Frame>,
      queuedIds: set<RequestId>, seen: set<RequestId>, last: Option<u64>, reached: bool)
    requires |frames| == |queue|
    requires forall j :: 0 <= j < |queue| ==> Readable(queue[j], limits, parse)
    requires forall j :: 0 <= j < |queue| ==> parse(queue[j]).Some? && frames[j] == FrameOf(queue[j], parse)
    requires Reading(frames, p, lane, backlog, queuedIds, seen, last, reached)
    ensures frames == FramesFrom(queue, parse) && QueueOk(queue, p, limits, parse)
    ensures Routed(frames, p, lane, backlog) && seen == set id | id in lane
  {
    hide Routed;
  }

  method HydrateQueue(c: Capsule, pending: PendingMap, limits: Limits, parse: Parser)
    returns (frames: seq<Frame>, scheduledSeen: set<RequestId>, error: Option<SnapshotError>,
        ghost lane: seq<RequestId>, ghost backlog: seq<Frame>)
    requires FrameIds(pending) && pending == Hydrate(c.pending) && forall id :: id in pending ==> (
      Sealed(pending[id].frame, parse))
    ensures error.None? <==> QueueOk(c.queue, pending, limits, parse)
    ensures error.None? ==> frames == FramesFrom(c.queue, parse)
    ensures error.None? ==> Routed(frames, pending, lane, backlog) && scheduledSeen == set id | id in lane
    ensures error.Some? ==> Justified(error.value, c, limits, parse)
  {
    hide Justified, QueueOk, Routed, Defect, Reading, Sealed, FrameIds, Hydrate, MayFollow;
    NothingRead(pending);
    frames, scheduledSeen, lane, backlog := [], {}, [], [];
    var queuedIds: set<RequestId> := {};
    var last: Option<u64> := None;
    var reachedBacklog := false;
    for i := 0 to |c.queue|
      invariant |frames| == i
      invariant forall j :: 0 <= j < i ==>
          Readable(c.queue[j], limits, parse) && frames[j] == FrameOf(c.queue[j], parse)
      invariant Reading(frames, pending, lane, backlog, queuedIds, scheduledSeen, last, reachedBacklog)
    {
      DefectIsReal(c, pending, limits, parse, i, frames, lane, backlog, queuedIds, scheduledSeen, last, reachedBacklog);
      error := Defect(c.queue[i], pending, queuedIds, last, reachedBacklog, limits, parse);
      if error.Some? {
        return;
      }
      var frame := FrameOf(c.queue[i], parse);
      ReadingExtends(frame, frames, pending, lane, backlog, queuedIds, scheduledSeen, last, reachedBacklog);
      assert queuedIds + {} == queuedIds;
      if frame.envelope.Request? {
        queuedIds := queuedIds + {frame.envelope.id};
      }
      if frame.envelope.Request? && frame.envelope.id in pending {
        last := Some(pending[frame.envelope.id].sequence);
        scheduledSeen := scheduledSeen + {frame.envelope.id};
        lane, backlog := lane + [frame.envelope.id], [];
      } else {
        reachedBacklog := true;
        backlog := backlog + [frame];
      }
      frames := frames + [frame];
    }
    AllRead(c.queue, pending, limits, parse, frames, lane, backlog, queuedIds, scheduledSeen, last, reachedBacklog);
    error := None;
  }

  lemma {:induction false} LastIsYoungest(lane: seq<RequestId>, p: PendingMap)
    requires Ascending(lane, p)
    ensures forall x :: x in lane ==> lane[|lane| - 1] in p && p[x].sequence <= p[lane[|lane| - 1]].sequence
  {
    forall x | x in lane ensures lane[|lane| - 1] in p && p[x].sequence <= p[lane[|lane| - 1]].sequence {
      var j :| 0 <= j < |lane| && lane[j] == x;
      if j < |lane| - 1 {
        AscendingAt(lane, p, j, |lane| - 1);
      }
    }
  }

  lemma {:induction false} HydratedFrames(c: Capsule, limits: Limits, parse: Parser)
    requires ItemsOk(c.pending, c.next, limits, parse)
    ensures var p := Hydrate(c.pending); FrameIds(p) && forall id :: id in p ==> Sealed(p[id].frame, parse)
  {
    HydrateHolds(c.pending, c.next, limits, parse);
    var p := Hydrate(c.pending);
    forall id | id in p ensures p[id].frame.envelope == Request(id, p[id].rpc) && Sealed(p[id].frame, parse) {
      var x := ItemOf(id, p[id]);
      assert x in c.pending && p[x.id] == Record(x) && ItemOk(x, c.next, limits, parse);
    }
  }

  /** Once items and queue have passed and nothing scheduled is missing, only the handshake decides. */
  lemma {:induction false} SessionDecides(c: Capsule, limits: Limits, parse: Parser, lane: seq<RequestId>,
      backlog: seq<Frame>)
    requires c.version == FORMAT_VERSION && |c.pending| <= limits.maxPending && |c.queue| <= limits.maxQueued
    requires ItemsOk(c.pending, c.next, limits, parse) && QueueOk(c.queue, Hydrate(c.pending), limits, parse)
    requires Routed(FramesFrom(c.queue, parse), Hydrate(c.pending), lane, backlog)
    requires forall id :: id in Hydrate(c.pending) && Hydrate(c.pending)[id].scheduled.Some? ==> id in lane
    ensures Admissible(c, limits, parse) <==> SessionOk(Hydrated(c, parse), limits, parse)
  {
    assert Split(Hydrated(c, parse), lane, backlog);
  }

  method Restore(c: Capsule, limits: Limits, parse: Parser) returns (r: Restored)
    ensures r.Accepted? <==> Admissible(c, limits, parse)
    ensures r.Accepted? ==> r.kernel == Hydrated(c, parse)
    ensures c.seed.Some? && parse(c.seed.value.payload) != Some(Request(c.seed.value.id, Initialize)) ==> r.Rejected?
    ensures c.seed.Some? && c.seed.value.notification.Some? ==>
      !(parse(c.seed.value.notification.value).Some? && Confirms(parse(c.seed.value.notification.value).value)) ==>
      r.Rejected?
    ensures r.Rejected? ==> Justified(r.error, c, limits, parse)
  {
    if c.version != FORMAT_VERSION {
      return Rejected(UnsupportedVersion(c.version));
    }
    if |c.pending| > limits.maxPending {
      return Rejected(Capacity(PendingRequests));
    }
    if |c.queue| > limits.maxQueued {
      return Rejected(Capacity(QueuedFrames));
    }
    var pending, pendingError := HydratePending(c, limits, parse);
    if pendingError.Some? {
      return Rejected(pendingError.value);
    }
    HydratedFrames(c, limits, parse);
    var frames, scheduledSeen, queueError, lane, backlog := HydrateQueue(c, pending, limits, parse);
    if queueError.Some? {
      SplitIsRouted(c, limits, parse);
      return Rejected(queueError.value);
    }
    if exists id :: id in pending && pending[id].scheduled.Some? && id !in scheduledSeen {
      MissingFromQueue(c, limits, parse, lane, backlog);
      return Rejected(Contradiction);
    }
    SessionDecides(c, limits, parse, lane, backlog);
    var k := State(c.phase, c.seed, pending, frames, c.next);
    ValidatesSession(k, limits, parse);
    var sessionError := ValidateSession(k, limits, parse);
    if sessionError == Some(Contradiction) {
      ContradictionIsUnshaken(k, limits, parse);
    }
    if sessionError.Some? {
      return Rejected(sessionError.value);
    }
    AcceptedIsSealed(c, limits, parse);
    r := Accepted(k);
  }

  lemma {:induction false} SplitIsRouted(c: Capsule, limits: Limits, parse: Parser)
    ensures Admissible(c, limits, parse) ==> QueueOk(c.queue, Hydrate(c.pending), limits, parse)
  {
    if Admissible(c, limits, parse) {
      var ids, backlog :| Split(Hydrated(c, parse), ids, backlog);
      assert Routed(FramesFrom(c.queue, parse), Hydrate(c.pending), ids, backlog);
    }
  }

  lemma {:induction false} MissingFromQueue(c: Capsule, limits: Limits, parse: Parser, lane: seq<RequestId>,
      backlog: seq<Frame>)
    requires ItemsOk(c.pending, c.next, limits, parse)
    requires forall i :: 0 <= i < |c.queue| ==> parse(c.queue[i]).Some?
    requires FrameIds(Hydrate(c.pending)) && Routed(FramesFrom(c.queue, parse), Hydrate(c.pending), lane, backlog)
    requires exists id :: id in Hydrate(c.pending) && Hydrate(c.pending)[id].scheduled.Some? && id !in lane
    ensures !Admissible(c, limits, parse) && Unqueued(c.queue, Hydrate(c.pending), parse)
  {
    var p, frames := Hydrate(c.pending), FramesFrom(c.queue, parse);
    QueuedIdsAppend(FramesOf(lane, p), backlog);
    LaneNoRepeats(lane, p);
    assert QueuedIds(frames) == (set id | id in lane) + QueuedIds(backlog);
    if Admissible(c, limits, parse) {
      var ids, rest :| Split(Hydrated(c, parse), ids, rest);
      var id :| id in p && p[id].scheduled.Some? && id !in lane;
      assert id in ids && Routed(frames, p, ids, rest);
      var j :| 0 <= j < |ids| && ids[j] == id;
      assert |frames| == |ids| + |rest|;
      LaneEnds(frames, p, ids, rest, j);
      LaneEnds(frames, p, lane, backlog, j);
      assert false;
    }
  }
}
