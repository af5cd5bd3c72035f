/** Every transition keeps the kernel invariant. */
module KernelInvariant {
  import opened Wire
  import opened Replay
  import opened Kernel

  // ---------------------------------------------------------------- queues

  lemma {:induction false} QueuedIdsAppend(a: seq<Frame>, b: seq<Frame>)
    ensures QueuedIds(a + b) == QueuedIds(a) + QueuedIds(b)
  {
    if a == [] {
      assert a + b == b;
    } else {
      QueuedIdsAppend(a[1..], b);
      assert (a + b)[1..] == a[1..] + b;
    }
  }

  lemma {:induction false} NoRepeatsAppend(a: seq<Frame>, b: seq<Frame>)
    requires NoRepeats(a) && NoRepeats(b) && QueuedIds(a) !! QueuedIds(b)
    ensures NoRepeats(a + b)
  {
    if a == [] {
      assert a + b == b;
    } else {
      NoRepeatsAppend(a[1..], b);
      QueuedIdsAppend(a[1..], b);
      assert (a + b)[1..] == a[1..] + b;
    }
  }

  lemma {:induction false} WithoutCons(f: Frame, rest: seq<Frame>, ids: set<RequestId>)
    ensures Without([f] + rest, ids) == (if f.envelope.Request? && f.envelope.id in ids then [] else [f])
        + Without(rest, ids)
  {
    assert ([f] + rest)[1..] == rest;
  }

  lemma {:induction false} WithoutAppends(a: seq<Frame>, b: seq<Frame>, ids: set<RequestId>)
    ensures Without(a + b, ids) == Without(a, ids) + Without(b, ids)
  {
    if a == [] {
      assert a + b == b;
    } else {
      assert a == [a[0]] + a[1..] && a + b == [a[0]] + (a[1..] + b);
      WithoutAppends(a[1..], b, ids);
      WithoutCons(a[0], a[1..], ids);
      WithoutCons(a[0], a[1..] + b, ids);
    }
  }

  lemma {:induction false} WithoutKeepsAll(a: seq<Frame>, ids: set<RequestId>)
    requires QueuedIds(a) !! ids
    ensures Without(a, ids) == a
  {
    if a != [] {
      WithoutKeepsAll(a[1..], ids);
    }
  }

  /** The queue entries of a lane carry exactly its ids. */
  lemma {:induction false} LaneIds(k: State, ids: seq<RequestId>)
    requires Identified(k) && AllIn(ids, k.pending)
    ensures QueuedIds(FramesOf(ids, k.pending)) == set id | id in ids
  {
    if ids != [] {
      assert AllIn(ids[1..], k.pending);
      LaneIds(k, ids[1..]);
      assert ids[0] in k.pending;
      assert Sane(ids[0], k.pending[ids[0]], k.next);
      assert forall x :: x in ids <==> x == ids[0] || x in ids[1..];
    }
  }

  lemma {:induction false} WithoutDropsLane(k: State, ids: seq<RequestId>, gone: set<RequestId>)
    requires Identified(k) && AllIn(ids, k.pending)
    requires forall id :: id in ids ==> id in gone
    ensures Without(FramesOf(ids, k.pending), gone) == []
  {
    if ids != [] {
      assert ids[0] in ids && forall x :: x in ids[1..] ==> x in ids;
      WithoutDropsLane(k, ids[1..], gone);
      assert Sane(ids[0], k.pending[ids[0]], k.next);
    }
  }

  lemma {:induction false} FramesAgree(ids: seq<RequestId>, p: PendingMap, q: PendingMap)
    requires AllIn(ids, p) && AllIn(ids, q)
    requires forall id :: id in ids ==> p[id].frame == q[id].frame
    ensures FramesOf(ids, p) == FramesOf(ids, q)
  {
    if ids != [] {
      assert ids[0] in ids && forall x :: x in ids[1..] ==> x in ids;
      FramesAgree(ids[1..], p, q);
    }
  }

  lemma {:induction false} FramesAppend(a: seq<RequestId>, b: seq<RequestId>, p: PendingMap)
    requires AllIn(a, p) && AllIn(b, p)
    ensures AllIn(a + b, p)
    ensures FramesOf(a + b, p) == FramesOf(a, p) + FramesOf(b, p)
  {
    if a == [] {
      assert a + b == b;
    } else {
      assert AllIn(a[1..], p);
      FramesAppend(a[1..], b, p);
      var whole, rest := a + b, FramesOf(a[1..], p);
      assert whole[1..] == a[1..] + b && whole[0] == a[0];
      assert [p[a[0]].frame] + (rest + FramesOf(b, p)) == ([p[a[0]].frame] + rest) + FramesOf(b, p);
    }
  }

  /** The backlog that recovery retains is exactly the part of the queue behind the lane. */
  lemma {:induction false} BacklogIsTail(k: State, ids: seq<RequestId>, backlog: seq<Frame>)
    requires Identified(k) && Split(k, ids, backlog)
    ensures Without(k.queue, k.pending.Keys) == backlog
  {
    WithoutAppends(FramesOf(ids, k.pending), backlog, k.pending.Keys);
    WithoutDropsLane(k, ids, k.pending.Keys);
    WithoutKeepsAll(backlog, k.pending.Keys);
    assert [] + backlog == backlog;
  }

  // ---------------------------------------------------------------- one transition at a time

  lemma {:induction false} ColdKernel()
    ensures Inv(State(Cold, None, map[], [], 0)) && Settled(State(Cold, None, map[], [], 0))
  {
    assert Split(State(Cold, None, map[], [], 0), [], []);
  }

  lemma {:induction false} ObserveKeeps(k: State, f: Frame)
    requires Inv(k)
    ensures Inv(k.Observe(f).kernel)
  {
    var ids, backlog :| Split(k, ids, backlog);
    assert Split(k.Observe(f).kernel, ids, backlog);
  }

  lemma {:induction false} EnqueueKeepsSplit(k: State, f: Frame, ids: seq<RequestId>, backlog: seq<Frame>)
    requires Split(k, ids, backlog)
    requires f.envelope.Request? ==> f.envelope.id !in k.pending && f.envelope.id !in QueuedIds(k.queue)
    ensures Split(k.(queue := k.queue + [f]), ids, backlog + [f])
  {
    QueuedIdsAppend(FramesOf(ids, k.pending), backlog);
    QueuedIdsAppend(backlog, [f]);
    NoRepeatsAppend(backlog, [f]);
  }

  lemma {:induction false} EnqueueKeeps(k: State, f: Frame, capacity: nat)
    requires Inv(k)
    ensures Inv(k.Enqueue(f, capacity).kernel)
  {
    if k.Enqueue(f, capacity).result.Ok? {
      var ids, backlog :| Split(k, ids, backlog);
      EnqueueKeepsSplit(k, f, ids, backlog);
    }
  }

  lemma {:induction false} AdmissionKeepsSplit(k: State, id: RequestId, r: PendingRequest, ids: seq<RequestId>,
      backlog: seq<Frame>)
    requires Split(k, ids, backlog)
    requires id !in k.pending && id !in QueuedIds(k.queue) && r.scheduled.None?
    ensures Split(k.(pending := k.pending[id := r]), ids, backlog)
  {
    QueuedIdsAppend(FramesOf(ids, k.pending), backlog);
    FramesAgree(ids, k.pending, k.pending[id := r]);
    AscendingAgrees(ids, k.pending, k.pending[id := r]);
  }

  lemma {:induction false} AdmissionIsDistinct(k: State, id: RequestId, r: PendingRequest)
    requires Identified(k) && DistinctSequences(k.pending) && id !in k.pending && r.sequence == k.next
    ensures DistinctSequences(k.pending[id := r])
  {
    var after := k.pending[id := r];
    forall x | x in k.pending ensures k.pending[x].sequence < k.next {
      assert Sane(x, k.pending[x], k.next);
    }
    assert forall a, b :: Twins(a, b, after) && a != id && b != id ==> Twins(a, b, k.pending);
  }

  lemma {:induction false} AdmittedIsIdentified(k: State, f: Frame, contract: ReplayContract)
    requires Identified(k) && f.envelope.Request? && k.next < 0xFFFF_FFFF_FFFF_FFFF
    ensures Identified(k.Admitted(f, contract))
  {
    var k' := k.Admitted(f, contract);
    forall id | id in k'.pending ensures Sane(id, k'.pending[id], k'.next) {
      if id != f.envelope.id {
        assert Sane(id, k.pending[id], k.next);
      }
    }
  }

  lemma {:induction false} AdmittedAgrees(k: State, f: Frame, contract: ReplayContract)
    requires SessionAgrees(k) && f.envelope.Request? && k.next < 0xFFFF_FFFF_FFFF_FFFF && f.envelope.id !in k.pending
    requires f.envelope.rpc.Initialize? ==> (
      k.phase.Cold? && (k.seed.Some? ==> k.seed.value.id == f.envelope.id && k.seed.value.payload == f.payload))
    ensures SessionAgrees(k.Admitted(f, contract))
  {
  }

  lemma {:induction false} AdmittedSplits(k: State, f: Frame, contract: ReplayContract)
    requires Identified(k) && DistinctSequences(k.pending) && (exists ids, backlog :: Split(k, ids, backlog))
    requires f.envelope.Request? && k.next < 0xFFFF_FFFF_FFFF_FFFF && f.envelope.id !in k.pending
    requires f.envelope.id !in QueuedIds(k.queue)
    ensures DistinctSequences(k.Admitted(f, contract).pending)
    ensures exists ids, backlog :: Split(k.Admitted(f, contract), ids, backlog)
  {
    hide Identified, DistinctSequences, Lane, Backlog;
    var k' := k.Admitted(f, contract);
    var id := f.envelope.id;
    var ids, backlog :| Split(k, ids, backlog);
    AdmissionKeepsSplit(k, id, k'.pending[id], ids, backlog);
    AdmissionIsDistinct(k, id, k'.pending[id]);
    assert Split(k', ids, backlog);
  }

  lemma {:induction false} AdmittedKeeps(k: State, f: Frame, contract: ReplayContract)
    requires Inv(k) && f.envelope.Request? && k.next < 0xFFFF_FFFF_FFFF_FFFF
    requires f.envelope.id !in k.pending && f.envelope.id !in QueuedIds(k.queue)
    requires f.envelope.rpc.Initialize? ==> (
      k.phase.Cold? && (k.seed.Some? ==> k.seed.value.id == f.envelope.id && k.seed.value.payload == f.payload))
    ensures Inv(k.Admitted(f, contract))
  {
    hide Identified, SessionAgrees, DistinctSequences;
    AdmittedIsIdentified(k, f, contract);
    AdmittedAgrees(k, f, contract);
    AdmittedSplits(k, f, contract);
  }

  lemma {:induction false} BeginKeeps(k: State, f: Frame, contract: ReplayContract, capacity: nat)
    requires Inv(k)
    ensures Inv(k.Begin(f, contract, capacity).kernel)
  {
    hide Identified, SessionAgrees, DistinctSequences, Split;
    if k.BeginRefusal(f, capacity).None? {
      AdmittedKeeps(k, f, contract);
    }
  }

  /** With the invariant, the head of the queue is the oldest scheduled invocation or backlog. */
  lemma {:induction false} HeadOfQueue(k: State, ids: seq<RequestId>, backlog: seq<Frame>)
    requires Identified(k) && Split(k, ids, backlog) && k.queue != []
    ensures ids == [] ==> k.queue == backlog && !(k.queue[0].envelope.Request? && k.queue[0].envelope.id in k.pending)
    ensures ids != [] ==> AllIn(ids[1..], k.pending) && k.queue[1..] == FramesOf(ids[1..], k.pending) + backlog
    ensures ids != [] ==> Carries(k.queue[0], ids[0]) && ids[0] in k.pending && k.pending[ids[0]].scheduled.Some?
  {
    if ids != [] {
      assert ids[0] in k.pending && Sane(ids[0], k.pending[ids[0]], k.next);
      assert ids[0] in ids;
    } else {
      assert k.queue == backlog;
    }
  }

  /** `pop_next_dispatch` never reports an error. */
  lemma {:induction false} PopNeverErrs(k: State)
    requires Inv(k)
    ensures k.Pop().result.Ok?
  {
    if k.queue != [] {
      var ids, backlog :| Split(k, ids, backlog);
      HeadOfQueue(k, ids, backlog);
      if ids != [] {
        assert Sane(ids[0], k.pending[ids[0]], k.next);
      }
    }
  }

  /** Taking one invocation out of the lane, whether it leaves or stays in flight. */
  lemma {:induction false} LaneWithout(a: seq<RequestId>, x: RequestId, b: seq<RequestId>, p: PendingMap, q: PendingMap)
    requires Lane(a + [x] + b, p)
    requires x in q ==> q[x].scheduled.None?
    requires forall id :: id != x ==> (id in p <==> id in q) && (id in p ==> p[id] == q[id])
    ensures x in p && x !in a && x !in b
    ensures AllIn(a, p) && AllIn(b, p)
    ensures Lane(a + b, q)
  {
    assert forall y :: y in a + [x] + b <==> y in a || y == x || y in b;
    AscendingAppends(a + [x], b, p);
    AscendingAppends(a, [x], p);
    assert x in a + [x];
    assert Older(x, b, p) && x in [x];
    forall y | y in a ensures Older(y, b, p) && y != x {
      assert y in a + [x] && Older(y, [x], p);
    }
    AscendingAppends(a, b, p);
    AscendingAgrees(a + b, p, q);
  }

  /** The oldest scheduled invocation crosses the dispatch boundary. */
  function Replaying(k: State, id: RequestId): State
    requires id in k.pending && k.pending[id].attempts < 255 && k.queue != []
  {
    var r := k.pending[id];
    k.(pending := k.pending[id := r.(knowledge := InFlight, attempts := r.attempts + 1, scheduled := None)], queue :=
        k.queue[1..])
  }

  lemma {:induction false} ReplayKeepsSplit(k: State, ids: seq<RequestId>, backlog: seq<Frame>)
    requires Identified(k) && Split(k, ids, backlog) && ids != [] && k.queue != [] && ids[0] in k.pending
    requires k.pending[ids[0]].attempts < 255
    ensures Split(Replaying(k, ids[0]), ids[1..], backlog)
  {
    HeadOfQueue(k, ids, backlog);
    assert ids == [] + [ids[0]] + ids[1..];
    assert [] + ids[1..] == ids[1..];
    LaneWithout([], ids[0], ids[1..], k.pending, Replaying(k, ids[0]).pending);
    FramesAgree(ids[1..], k.pending, Replaying(k, ids[0]).pending);
  }

  /** A pop changes nothing, hands out the head of the backlog, or replays the head of the lane. */
  lemma {:induction false} PopShape(k: State, ids: seq<RequestId>, backlog: seq<Frame>)
    requires Inv(k) && Split(k, ids, backlog) && k.Pop().kernel != k
    ensures k.queue != []
    ensures ids == [] ==> k.Pop() == Step(k.(queue := k.queue[1..]), Ok(ClientFrame(k.queue[0])))
    ensures ids != [] ==> (
      && ids[0] in k.pending && k.pending[ids[0]].attempts < 255
      && k.pending[ids[0]].scheduled == Some(RequestDisposition.Replay))
    ensures ids != [] ==> k.Pop() == Step(Replaying(k, ids[0]), Ok(Replayed(k.queue[0])))
  {
    HeadOfQueue(k, ids, backlog);
    if ids != [] {
      assert Sane(ids[0], k.pending[ids[0]], k.next);
    }
  }

  lemma {:induction false} HandOutKeeps(k: State, backlog: seq<Frame>)
    requires Inv(k) && Split(k, [], backlog) && k.queue != []
    ensures Inv(k.(queue := k.queue[1..]))
  {
    assert Split(k.(queue := k.queue[1..]), [], backlog[1..]);
  }

  lemma {:induction false} ReplayKeeps(k: State, ids: seq<RequestId>, backlog: seq<Frame>)
    requires Inv(k) && Split(k, ids, backlog) && ids != [] && k.queue != [] && ids[0] in k.pending
    requires k.pending[ids[0]].attempts < 255
    ensures Inv(Replaying(k, ids[0]))
  {
    hide Identified, SessionAgrees, DistinctSequences, Split, Replaying;
    ReplayKeepsSplit(k, ids, backlog);
    ReplayIsIdentified(k, ids[0]);
    ReplayAgrees(k, ids[0]);
  }

  lemma {:induction false} ReplayAgrees(k: State, id: RequestId)
    requires SessionAgrees(k) && DistinctSequences(k.pending) && id in k.pending && k.pending[id].attempts < 255
    requires k.queue != []
    ensures SessionAgrees(Replaying(k, id)) && DistinctSequences(Replaying(k, id).pending)
  {
    assert forall a, b :: Twins(a, b, Replaying(k, id).pending) ==> Twins(a, b, k.pending);
  }

  lemma {:induction false} ReplayIsIdentified(k: State, id: RequestId)
    requires Identified(k) && id in k.pending && k.pending[id].attempts < 255 && k.queue != []
    ensures Identified(Replaying(k, id))
  {
    forall x | x in k.pending ensures Sane(x, Replaying(k, id).pending[x], k.next) {
      assert Sane(x, k.pending[x], k.next);
    }
  }

  lemma {:induction false} PopKeeps(k: State)
    requires Inv(k)
    ensures Inv(k.Pop().kernel)
  {
    var ids, backlog :| Split(k, ids, backlog);
    if k.Pop().kernel != k {
      PopShape(k, ids, backlog);
      if ids == [] {
        HandOutKeeps(k, backlog);
      } else {
        ReplayKeeps(k, ids, backlog);
      }
    }
  }

  /** The kernel without one pending invocation and without its queue entry, if it has one. */
  function Removed(k: State, id: RequestId): State {
    k.(pending := k.pending - {id}, queue := Without(k.queue, {id}))
  }

  lemma {:induction false} LaneFramesWithout(k: State, a: seq<RequestId>, x: RequestId, b: seq<RequestId>)
    requires Identified(k) && x !in a && x !in b && x in k.pending && AllIn(a, k.pending) && AllIn(b, k.pending)
    ensures AllIn(a + [x] + b, k.pending) && AllIn(a + b, k.pending)
    ensures Without(FramesOf(a + [x] + b, k.pending), {x}) == FramesOf(a + b, k.pending)
  {
    FramesAppend(a, [x], k.pending);
    FramesAppend(a + [x], b, k.pending);
    FramesAppend(a, b, k.pending);
    LaneIds(k, a);
    LaneIds(k, b);
    var fa, fx, fb := FramesOf(a, k.pending), FramesOf([x], k.pending), FramesOf(b, k.pending);
    WithoutAppends(fa + fx, fb, {x});
    WithoutAppends(fa, fx, {x});
    WithoutKeepsAll(fa, {x});
    WithoutKeepsAll(fb, {x});
    WithoutDropsLane(k, [x], {x});
    assert fa + [] == fa;
  }

  lemma {:induction false} RemovalFromLane(k: State, id: RequestId, ids: seq<RequestId>, backlog: seq<Frame>, j: nat)
    requires Identified(k) && Split(k, ids, backlog) && j < |ids| && ids[j] == id && id in k.pending
    ensures Split(Removed(k, id), ids[..j] + ids[j + 1..], backlog)
  {
    var a, b := ids[..j], ids[j + 1..];
    assert ids == a + [id] + b;
    WithoutAppends(FramesOf(ids, k.pending), backlog, {id});
    WithoutKeepsAll(backlog, {id});
    LaneWithout(a, id, b, k.pending, k.pending - {id});
    LaneFramesWithout(k, a, id, b);
    FramesAgree(a + b, k.pending, k.pending - {id});
  }

  lemma {:induction false} RemovalBesideLane(k: State, id: RequestId, ids: seq<RequestId>, backlog: seq<Frame>)
    requires Identified(k) && Split(k, ids, backlog) && id !in ids && id in k.pending
    ensures Split(Removed(k, id), ids, backlog)
  {
    WithoutAppends(FramesOf(ids, k.pending), backlog, {id});
    WithoutKeepsAll(backlog, {id});
    LaneIds(k, ids);
    WithoutKeepsAll(FramesOf(ids, k.pending), {id});
    AscendingAgrees(ids, k.pending, k.pending - {id});
    FramesAgree(ids, k.pending, k.pending - {id});
  }

  lemma {:induction false} RemovalKeeps(k: State, id: RequestId)
    requires Inv(k) && id in k.pending
    ensures exists ids, backlog :: Split(Removed(k, id), ids, backlog)
    ensures Identified(Removed(k, id)) && DistinctSequences(Removed(k, id).pending)
  {
    var ids, backlog :| Split(k, ids, backlog);
    if id in ids {
      var j :| 0 <= j < |ids| && ids[j] == id;
      RemovalFromLane(k, id, ids, backlog, j);
    } else {
      RemovalBesideLane(k, id, ids, backlog);
    }
    assert forall a, b :: Twins(a, b, k.pending - {id}) ==> Twins(a, b, k.pending);
  }

  lemma {:induction false} CompleteKeeps(k: State, f: Frame)
    requires Inv(k)
    ensures Inv(k.Complete(f).kernel)
  {
    if k.Complete(f).result.Ok? {
      var id := f.envelope.id;
      RemovalKeeps(k, id);
      var ids, backlog :| Split(Removed(k, id), ids, backlog);
      assert Split(k.Complete(f).kernel, ids, backlog);
    }
  }

  lemma {:induction false} ReschedulingKeepsSplit(k: State, id: RequestId, r: PendingRequest, ids: seq<RequestId>,
      backlog: seq<Frame>)
    requires Split(k, ids, backlog) && id in k.pending && k.pending[id].scheduled.Some? && r.scheduled.Some?
    requires r.sequence == k.pending[id].sequence && r.frame == k.pending[id].frame
    ensures Split(k.(pending := k.pending[id := r]), ids, backlog)
  {
    AscendingAgrees(ids, k.pending, k.pending[id := r]);
    FramesAgree(ids, k.pending, k.pending[id := r]);
  }

  /** Rescheduling in place: a held probe becomes an authorised replay. */
  lemma {:induction false} ReschedulingKeeps(k: State, id: RequestId, r: PendingRequest)
    requires Inv(k) && id in k.pending && k.pending[id].scheduled.Some? && r.scheduled.Some?
    requires Sane(id, r, k.next) && r.sequence == k.pending[id].sequence && r.frame == k.pending[id].frame
    requires r.rpc == k.pending[id].rpc
    ensures Inv(k.(pending := k.pending[id := r]))
  {
    var after := k.pending[id := r];
    assert forall a, b :: Twins(a, b, after) ==> Twins(a, b, k.pending);
    var ids, backlog :| Split(k, ids, backlog);
    ReschedulingKeepsSplit(k, id, r, ids, backlog);
  }

  function Authorised(k: State, id: RequestId): State
    requires id in k.pending
  {
    k.(pending := k.pending[id := k.pending[id].(scheduled := Some(RequestDisposition.Replay))])
  }

  /** A probe answer changes nothing, authorises the held replay, or removes the invocation. */
  lemma {:induction false} ResolveShape(k: State, id: RequestId, answer: ProbeResolution, max: u8)
    requires Identified(k) && k.Resolve(id, answer, max).kernel != k
    ensures id in k.pending && k.pending[id].scheduled == Some(RequestDisposition.HoldForProbe)
    ensures k.Resolve(id, answer, max).kernel == Removed(k, id)
         || (k.Resolve(id, answer, max).kernel == Authorised(k, id) && k.pending[id].attempts < max)
  {
    assert Sane(id, k.pending[id], k.next);
  }

  lemma {:induction false} ResolveKeeps(k: State, id: RequestId, answer: ProbeResolution, max: u8)
    requires Inv(k)
    ensures Inv(k.Resolve(id, answer, max).kernel)
  {
    if k.Resolve(id, answer, max).kernel != k {
      ResolveShape(k, id, answer, max);
      assert Sane(id, k.pending[id], k.next);
      if k.pending[id].attempts < max {
        ReschedulingKeeps(k, id, k.pending[id].(scheduled := Some(RequestDisposition.Replay)));
      }
      RemovalKeeps(k, id);
    }
  }

  // ---------------------------------------------------------------- requeue

  lemma {:induction false} DistinctIds(ids: seq<RequestId>, pending: PendingMap)
    requires Ascending(ids, pending)
    ensures |set id | id in ids| == |ids|
  {
    if ids != [] {
      DistinctIds(ids[1..], pending);
      assert ids[0] !in ids[1..];
      assert (set id | id in ids) == {ids[0]} + set id | id in ids[1..];
    }
  }

  /** Selecting the recoverable invocations keeps their order. */
  lemma {:induction false} RecoverablesAscend(ids: seq<RequestId>, pending: PendingMap, max: u8)
    requires Ascending(ids, pending)
    ensures Ascending(Recoverables(ids, pending, max), pending)
  {
    if ids != [] {
      RecoverablesAscend(ids[1..], pending, max);
    }
  }

  lemma {:induction false} SurvivorsAscend(ids: seq<RequestId>, pending: PendingMap, max: u8, room: nat)
    requires Ascending(ids, pending)
    ensures Ascending(Survivors(ids, pending, max, room), pending)
  {
    RecoverablesAscend(ids, pending, max);
    var all := Recoverables(ids, pending, max);
    if |all| > room {
      assert all == all[..room] + all[room..];
      assert forall x :: x in all[..room] || x in all[room..] ==> x in all;
      AscendingAppends(all[..room], all[room..], pending);
    }
  }

  /** What recovery leaves behind, with the sorted ids and the backlog made explicit. */
  lemma {:induction false} RequeueSplit(k: State, budget: ReplayBudget, ids: seq<RequestId>,
      backlog: seq<Frame>) returns (kept: seq<RequestId>)
    requires Inv(k) && Split(k, ids, backlog)
    ensures kept == Survivors(Ordered(k.pending), k.pending, budget.maxAttempts, Room(budget.queueCapacity, |backlog|))
    ensures Ascending(kept, k.pending)
    ensures k.Requeue(budget).0.pending == map id | id in k.pending && id in kept ::
        Scheduled(k.pending[id], budget.maxAttempts)
    ensures Split(k.Requeue(budget).0, kept, backlog)
  {
    BacklogIsTail(k, ids, backlog);
    kept := Survivors(Ordered(k.pending), k.pending, budget.maxAttempts, Room(budget.queueCapacity, |backlog|));
    SurvivorsAscend(Ordered(k.pending), k.pending, budget.maxAttempts, Room(budget.queueCapacity, |backlog|));
    var k' := k.Requeue(budget).0;
    FramesAgree(kept, k.pending, k'.pending);
    AscendingAgrees(kept, k.pending, k'.pending);
  }

  /** The parts of a requeue, named. */
  lemma {:induction false} RequeueParts(k: State, budget: ReplayBudget) returns (kept: seq<RequestId>)
    requires Inv(k)
    ensures Ascending(kept, k.pending)
    ensures forall id :: id in kept ==> Recoverable(k.pending[id], budget.maxAttempts)
    ensures k.Requeue(budget).0.pending == map id | id in k.pending && id in kept ::
        Scheduled(k.pending[id], budget.maxAttempts)
    ensures k.Requeue(budget).0.next == k.next
    ensures k.Requeue(budget).1.rejected == Rejections(Ordered(k.pending), k.pending, budget.maxAttempts, kept)
    ensures k.Requeue(budget).1.held == Held(kept, k.pending, budget.maxAttempts)
    ensures k.Requeue(budget).0.queue == FramesOf(kept, k.pending) + Without(k.queue, k.pending.Keys)
    ensures kept == Survivors(Ordered(k.pending), k.pending, budget.maxAttempts,
        Room(budget.queueCapacity, |Without(k.queue, k.pending.Keys)|))
    ensures |kept| <= Room(budget.queueCapacity, |Without(k.queue, k.pending.Keys)|)
  {
    var ids, backlog :| Split(k, ids, backlog);
    kept := RequeueSplit(k, budget, ids, backlog);
    BacklogIsTail(k, ids, backlog);
  }

  lemma {:induction false} ScheduledIsSane(id: RequestId, r: PendingRequest, next: u64, max: u8)
    requires Sane(id, r, next) && Recoverable(r, max)
    ensures Sane(id, Scheduled(r, max), next)
  {
  }

  lemma {:induction false} RequeueKeeps(k: State, budget: ReplayBudget)
    requires Inv(k)
    ensures Inv(k.Requeue(budget).0)
    ensures Settled(k.Requeue(budget).0)
  {
    var ids, backlog :| Split(k, ids, backlog);
    var kept := RequeueSplit(k, budget, ids, backlog);
    var k' := k.Requeue(budget).0;
    assert Split(k', kept, backlog);
    forall id | id in k'.pending
      ensures Sane(id, k'.pending[id], k'.next)
    {
      ScheduledIsSane(id, k.pending[id], k.next, budget.maxAttempts);
    }
    assert forall a, b :: Twins(a, b, k'.pending) ==> Twins(a, b, k.pending);
  }
}
