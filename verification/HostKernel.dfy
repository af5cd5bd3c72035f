/** The host-session kernel as the host holds it: fields updated in place, loops over the queue and
    the pending map. Every method is proved against the value-level transitions of module Kernel. */
module HostKernel {
  import opened Wire
  import opened Replay
  import opened Kernel
  import opened KernelInvariant
  import opened Snapshot

  // ---------------------------------------------------------------- recovery order

  method Oldest(candidates: set<RequestId>, pending: PendingMap) returns (oldest: RequestId)
    requires candidates != {} && candidates <= pending.Keys
    ensures oldest in candidates && forall id :: id in candidates ==> pending[oldest].sequence <= pending[id].sequence
  {
    oldest :| oldest in candidates;
    var rest := candidates - {oldest};
    while rest != {}
      invariant rest <= candidates && oldest in candidates
      invariant forall id :: id in candidates && id !in rest ==> pending[oldest].sequence <= pending[id].sequence
      decreases rest
    {
      var id :| id in rest;
      if pending[id].sequence < pending[oldest].sequence {
        oldest := id;
      }
      rest := rest - {id};
    }
  }

  /** The pending ids sorted by sequence number. */
  method SortBySequence(pending: PendingMap) returns (ids: seq<RequestId>)
    requires DistinctSequences(pending)
    ensures ids == Ordered(pending)
  {
    ids := [];
    var rest := pending.Keys;
    while rest != {}
      invariant rest <= pending.Keys
      invariant Ascending(ids, pending)
      invariant forall id :: id in pending ==> (id in rest <==> id !in ids)
      invariant forall id :: id in ids ==> forall y :: y in rest ==> pending[id].sequence < pending[y].sequence
      decreases rest
    {
      var id := Oldest(rest, pending);
      forall x | x in ids ensures Older(x, [id], pending) { }
      AscendingAppends(ids, [id], pending);
      forall y | y in rest - {id} ensures pending[id].sequence < pending[y].sequence {
        assert !Twins(id, y, pending);
      }
      ids := ids + [id];
      rest := rest - {id};
    }
    InOrderIsUnique(ids, Ordered(pending), pending);
  }

  // ---------------------------------------------------------------- one step of the requeue loop

  lemma {:induction false} RecoverablesAppend(a: seq<RequestId>, id: RequestId, p: PendingMap, max: u8)
    requires AllIn(a, p) && id in p
    ensures AllIn(a + [id], p)
    ensures Recoverables(a + [id], p, max) == Recoverables(a, p, max) + (if Recoverable(p[id], max) then [id] else [])
  {
    if a == [] {
      assert a + [id] == [id];
      assert [id][1..] == [];
    } else {
      assert AllIn(a[1..], p);
      RecoverablesAppend(a[1..], id, p, max);
      assert (a + [id])[1..] == a[1..] + [id];
    }
  }

  /** The loop keeps an invocation when it is recoverable and the survivors so far leave room. */
  lemma {:induction false} SurvivorsAppend(a: seq<RequestId>, id: RequestId, p: PendingMap, max: u8, room: nat)
    requires AllIn(a, p) && id in p
    ensures AllIn(a + [id], p)
    ensures Survivors(a + [id], p, max, room) ==
      Survivors(a, p, max, room) + (if Recoverable(p[id], max) && |Survivors(a, p, max, room)| < room then [id] else [])
  {
    RecoverablesAppend(a, id, p, max);
  }

  lemma {:induction false} RejectionsAppend(a: seq<RequestId>, id: RequestId, p: PendingMap, max: u8,
      kept: seq<RequestId>)
    requires AllIn(a, p) && id in p
    ensures AllIn(a + [id], p)
    ensures Rejections(a + [id], p, max, kept) == Rejections(a, p, max, kept)
        + (if id in kept then [] else [Rejection(id, p[id], max)])
  {
    if a == [] {
      assert a + [id] == [id];
      assert [id][1..] == [];
    } else {
      assert AllIn(a[1..], p);
      RejectionsAppend(a[1..], id, p, max, kept);
      var first := if a[0] in kept then [] else [Rejection(a[0], p[a[0]], max)];
      var last := if id in kept then [] else [Rejection(id, p[id], max)];
      assert (a + [id])[1..] == a[1..] + [id] && (a + [id])[0] == a[0];
      assert first + (Rejections(a[1..], p, max, kept) + last) == (first + Rejections(a[1..], p, max, kept)) + last;
    }
  }

  /** Whether later ids survive does not change the earlier rejections. */
  lemma {:induction false} RejectionsIgnore(a: seq<RequestId>, p: PendingMap, max: u8, kept: seq<RequestId>,
      more: seq<RequestId>)
    requires AllIn(a, p) && forall id :: id in a ==> id !in more
    ensures Rejections(a, p, max, kept + more) == Rejections(a, p, max, kept)
  {
    if a != [] {
      assert a[0] in a && forall id :: id in a[1..] ==> id in a;
      RejectionsIgnore(a[1..], p, max, kept, more);
    }
  }

  lemma {:induction false} HeldAppend(a: seq<RequestId>, id: RequestId, p: PendingMap, max: u8)
    requires AllIn(a, p) && id in p
    ensures AllIn(a + [id], p)
    ensures Held(a + [id], p, max) == Held(a, p, max) + (if Verdict(p[id], max).HoldForProbe? then [id] else [])
  {
    if a == [] {
      assert a + [id] == [id];
      assert [id][1..] == [];
    } else {
      assert AllIn(a[1..], p);
      HeldAppend(a[1..], id, p, max);
      assert (a + [id])[1..] == a[1..] + [id];
    }
  }

  /** One more survivor: the earlier rejections stand, and its frame and hold are appended. */
  lemma {:induction false} SurvivorJoins(a: seq<RequestId>, id: RequestId, p: PendingMap, max: u8, kept: seq<RequestId>)
    requires AllIn(a, p) && AllIn(kept, p) && id in p && id !in a
    ensures AllIn(a + [id], p) && AllIn(kept + [id], p)
    ensures Rejections(a + [id], p, max, kept + [id]) == Rejections(a, p, max, kept)
    ensures FramesOf(kept + [id], p) == FramesOf(kept, p) + [p[id].frame]
    ensures Held(kept + [id], p, max) == Held(kept, p, max) + (if Verdict(p[id], max).HoldForProbe? then [id] else [])
  {
    RejectionsIgnore(a, p, max, kept, [id]);
    RejectionsAppend(a, id, p, max, kept + [id]);
    HeldAppend(kept, id, p, max);
    FramesAppend(kept, [id], p);
  }

  // ---------------------------------------------------------------- the kernel object

  class HostSessionKernel {
    var phase: SessionPhase
    var seed: Option<Seed>
    var pending: PendingMap
    var queue: seq<Frame>
    var next: u64

    ghost function Model(): State
      reads this
    {
      State(phase, seed, pending, queue, next)
    }

    constructor Cold()
      ensures Model() == State(SessionPhase.Cold, None, map[], [], 0)
    {
      phase, seed, pending, queue, next := SessionPhase.Cold, None, map[], [], 0;
    }

    constructor FromRestored(k: State)
      ensures Model() == k
    {
      phase, seed, pending, queue, next := k.phase, k.seed, k.pending, k.queue, k.next;
    }

    method Snapshot() returns (c: Capsule)
      requires DistinctSequences(pending)
      ensures c == SnapshotOf(Model())
    {
      var ids := SortBySequence(pending);
      var items := [];
      for i := 0 to |ids|
        invariant AllIn(ids[..i], pending) && items == Items(ids[..i], pending)
      {
        assert ids[..i + 1] == ids[..i] + [ids[i]];
        assert ids[i] in pending;
        assert ids[..i + 1][..i] == ids[..i];
        items := items + [ItemOf(ids[i], pending[ids[i]])];
      }
      assert ids[..|ids|] == ids;
      c := Capsule(FORMAT_VERSION, phase, seed, items, Payloads(queue), next);
    }

    method ObserveClientFrame(f: Frame) returns (r: Result<()>)
      modifies this
      ensures Step(Model(), r) == old(Model()).Observe(f)
    {
      if f.envelope.Request? && f.envelope.rpc.Initialize? {
        if phase != SessionPhase.Cold || seed.Some? {
          return Err(InvalidExecutionState);
        }
        seed := Some(Seed(f.envelope.id, f.payload, None));
      } else if f.envelope.Notification? && IsInitializedNotification(f.envelope.note) {
        if phase != AwaitingInitialized || seed.None? {
          return Err(InvalidExecutionState);
        }
        seed := Some(seed.value.(notification := Some(f.payload)));
        phase := Live;
      }
      r := Ok(());
    }

    method HasInFlightDispatches() returns (found: bool)
      ensures found == Model().HasInFlight()
    {
      found := false;
      var rest := pending.Keys;
      while rest != {}
        invariant rest <= pending.Keys
        invariant found <==> exists id :: id in pending.Keys - rest && pending[id].scheduled.None?
        decreases rest
      {
        var id :| id in rest;
        found := found || pending[id].scheduled.None?;
        rest := rest - {id};
      }
    }

    /** The handshake that a later worker is given, once there is one. */
    method PrepareReplaySeed() returns (r: Result<Option<Seed>>)
      ensures r == Model().ReplaySeed()
    {
      if phase == SessionPhase.Cold || phase == SessionPhase.Initializing {
        return Ok(None);
      }
      if seed.None? || (phase == AwaitingInitialized && seed.value.notification.Some?) || (phase == Live &&
          seed.value.notification.None?) {
        return Err(InvalidExecutionState);
      }
      r := Ok(seed);
    }

    method QueuedRequestId(id: RequestId) returns (found: bool)
      ensures found <==> id in QueuedIds(queue)
    {
      found := false;
      for i := 0 to |queue|
        invariant found <==> id in QueuedIds(queue[..i])
      {
        assert queue[..i + 1] == queue[..i] + [queue[i]];
        QueuedIdsAppend(queue[..i], [queue[i]]);
        found := found || Carries(queue[i], id);
      }
      assert queue[..|queue|] == queue;
    }

    method RemoveQueuedRequest(id: RequestId)
      modifies this`queue
      ensures queue == Without(old(queue), {id})
    {
      var kept: seq<Frame> := [];
      for i := 0 to |queue|
        invariant queue == old(queue)
        invariant kept == Without(queue[..i], {id})
      {
        assert queue[..i + 1] == queue[..i] + [queue[i]];
        WithoutAppends(queue[..i], [queue[i]], {id});
        if !Carries(queue[i], id) {
          kept := kept + [queue[i]];
        }
      }
      assert queue[..|queue|] == queue;
      queue := kept;
    }

    method QueueClientFrame(f: Frame, capacity: nat) returns (r: Result<()>)
      modifies this
      ensures Step(Model(), r) == old(Model()).Enqueue(f, capacity)
      ensures r.Ok? ==> Model() == old(Model()).(queue := old(queue) + [f])
      ensures r.Err? ==> Model() == old(Model())
    {
      if |queue| >= capacity {
        return Err(QueueOverflow);
      }
      if f.envelope.Request? {
        var waiting := QueuedRequestId(f.envelope.id);
        if f.envelope.id in pending || waiting {
          return Err(DuplicateRequestId);
        }
      }
      queue := queue + [f];
      r := Ok(());
    }

    method PopNextDispatch() returns (r: Result<DispatchOutcome>)
      modifies this
      ensures Step(Model(), r) == old(Model()).Pop()
    {
      if queue == [] {
        return Ok(Empty);
      }
      var frame := queue[0];
      if !frame.envelope.Request? || frame.envelope.id !in pending {
        queue := queue[1..];
        return Ok(ClientFrame(frame));
      }
      var id := frame.envelope.id;
      var request := pending[id];
      if request.scheduled == Some(RequestDisposition.HoldForProbe) {
        return Ok(DispatchOutcome.HeldForProbe(id));
      }
      if request.scheduled != Some(RequestDisposition.Replay) {
        return Err(InvalidExecutionState);
      }
      var knowledge := AfterDispatch(request.knowledge, RequestDisposition.Replay);
      if knowledge.None? {
        return Err(InvalidExecutionState);
      }
      pending := pending[id := request.(knowledge := knowledge.value)];
      if request.attempts == 255 {
        return Err(ReplayBudgetExhausted);
      }
      pending := pending[id := pending[id].(attempts := request.attempts + 1, scheduled := None)];
      queue := queue[1..];
      r := Ok(Replayed(frame));
    }

    method BeginRequestDispatch(f: Frame, contract: ReplayContract, capacity: nat) returns (r: Result<RequestId>)
      modifies this
      ensures Step(Model(), r) == old(Model()).Begin(f, contract, capacity)
    {
      if !f.envelope.Request? {
        return Err(InvalidRequestFrame);
      }
      var id := f.envelope.id;
      var waiting := QueuedRequestId(id);
      if id in pending || waiting {
        return Err(DuplicateRequestId);
      }
      if |pending| >= capacity {
        return Err(PendingCapacityExhausted);
      }
      if next == 0xFFFF_FFFF_FFFF_FFFF {
        return Err(InvalidExecutionState);
      }
      if f.envelope.rpc.Initialize? {
        if phase != SessionPhase.Cold {
          return Err(InvalidExecutionState);
        }
        if seed.Some? && !(seed.value.id == id && seed.value.payload == f.payload) {
          return Err(InvalidExecutionState);
        }
        if seed.None? {
          seed := Some(Seed(id, f.payload, None));
        }
        phase := Initializing;
      }
      pending := pending[id := PendingRequest(f.envelope.rpc, next, f, contract, InFlight, 0, None)];
      next := next + 1;
      r := Ok(id);
    }

    method CompleteResponse(f: Frame) returns (r: Result<PendingRequest>)
      modifies this
      ensures Step(Model(), r) == old(Model()).Complete(f)
      ensures r.Ok? && r.value.rpc.Initialize? ==>
        if f.envelope.hasError then phase.Cold? && seed.None? else phase.AwaitingInitialized? && seed == old(seed)
      ensures r.Ok? && !r.value.rpc.Initialize? ==> phase == old(phase) && seed == old(seed)
      ensures r.Err? ==> Model() == old(Model())
    {
      if !f.envelope.Response? {
        return Err(InvalidRequestFrame);
      }
      var id := f.envelope.id;
      if id !in pending {
        return Err(RequestNotPending);
      }
      var request := pending[id];
      var knowledge := AfterTerminalOutcome(request.knowledge);
      if knowledge.None? {
        return Err(InvalidExecutionState);
      }
      if request.rpc.Initialize? && phase != Initializing {
        return Err(InvalidExecutionState);
      }
      pending := pending - {id};
      if request.rpc.Initialize? {
        if f.envelope.hasError {
          phase, seed := SessionPhase.Cold, None;
        } else {
          phase := AwaitingInitialized;
        }
      }
      RemoveQueuedRequest(id);
      r := Ok(request.(knowledge := knowledge.value));
    }

    /** The queue without the frames of pending invocations, in order. */
    method RetainBacklog() returns (backlog: seq<Frame>)
      ensures backlog == Without(queue, pending.Keys)
    {
      backlog := [];
      for i := 0 to |queue|
        invariant backlog == Without(queue[..i], pending.Keys)
      {
        assert queue[..i + 1] == queue[..i] + [queue[i]];
        WithoutAppends(queue[..i], [queue[i]], pending.Keys);
        if !(queue[i].envelope.Request? && queue[i].envelope.id in pending) {
          backlog := backlog + [queue[i]];
        }
      }
      assert queue[..|queue|] == queue;
    }

    /** The recovery loop: one pass over the pending invocations, oldest first. */
    method RequeuePendingForReplay(budget: ReplayBudget) returns (outcome: RequeueOutcome)
      requires DistinctSequences(pending)
      modifies this
      ensures (Model(), outcome) == old(Model()).Requeue(budget)
    {
      var max := budget.maxAttempts;
      var ids := SortBySequence(pending);
      var backlog := RetainBacklog();
      ghost var room := Room(budget.queueCapacity, |backlog|);
      var kept: seq<RequestId> := [];
      var frames: seq<Frame> := [];
      var rejected: seq<RejectedReplay> := [];
      var held: seq<RequestId> := [];
      for i := 0 to |ids|
        invariant AllIn(ids[..i], pending) && unchanged(this)
        invariant kept == Survivors(ids[..i], pending, max, room)
        invariant frames == FramesOf(kept, pending)
        invariant rejected == Rejections(ids[..i], pending, max, kept)
        invariant held == Held(kept, pending, max)
      {
        var id := ids[i];
        assert ids[..i + 1] == ids[..i] + [id];
        NotAmongEarlier(ids, i, pending);
        SurvivorsAppend(ids[..i], id, pending, max, room);
        var disposition := Verdict(pending[id], max);
        if (disposition.Replay? || disposition.HoldForProbe?) && |frames| + |backlog| < budget.queueCapacity {
          SurvivorJoins(ids[..i], id, pending, max, kept);
          if disposition.HoldForProbe? {
            held := held + [id];
          }
          frames := frames + [pending[id].frame];
          kept := kept + [id];
        } else {
          RejectionsAppend(ids[..i], id, pending, max, kept);
          rejected := rejected + [Rejection(id, pending[id], max)];
        }
      }
      assert ids[..|ids|] == ids;
      pending := map id | id in pending && id in kept :: Scheduled(pending[id], max);
      queue := frames + backlog;
      outcome := RequeueOutcome(rejected, held);
    }

    method ResolveProbe(id: RequestId, answer: ProbeResolution, max: u8) returns (r: Result<ProbeOutcome>)
      modifies this
      ensures Step(Model(), r) == old(Model()).Resolve(id, answer, max)
      ensures r.Ok? && r.value.ReplayAuthorized? ==> answer.SafeToReplay? && old(pending)[id].attempts < max
      ensures r.Ok? && r.value.ProvedComplete? ==> answer.AlreadyCompleted? && id !in pending
      ensures r == Err(ReplayBudgetExhausted) ==>
          answer.SafeToReplay? && old(pending)[id].attempts >= max && id !in pending
    {
      if id !in pending {
        return Err(RequestNotPending);
      }
      var request := pending[id];
      if request.scheduled != Some(RequestDisposition.HoldForProbe) {
        return Err(InvalidExecutionState);
      }
      var disposition := Disposition(request.knowledge, request.contract, Some(answer), request.attempts, max);
      if disposition.Replay? {
        pending := pending[id := request.(scheduled := Some(RequestDisposition.Replay))];
        return Ok(ReplayAuthorized(id));
      }
      if disposition.CompleteFromProbe? {
        var knowledge := AfterCompletedProbe(request.knowledge);
        if knowledge.None? {
          return Err(InvalidExecutionState);
        }
        RemoveQueuedRequest(id);
        pending := pending - {id};
        return Ok(ProvedComplete(request.(knowledge := knowledge.value)));
      }
      if disposition.RejectReplayExhausted? {
        RemoveQueuedRequest(id);
        pending := pending - {id};
        return Err(ReplayBudgetExhausted);
      }
      r := Err(InvalidExecutionState);
    }
  }

  lemma {:induction false} NotAmongEarlier(ids: seq<RequestId>, i: nat, pending: PendingMap)
    requires Ascending(ids, pending) && i < |ids|
    ensures ids[i] in pending && ids[i] !in ids[..i]
  {
    assert ids == ids[..i] + ids[i..];
    assert ids[i..][0] == ids[i] && ids[i] in ids[i..];
    assert forall x :: x in ids[..i] || x in ids[i..] ==> x in ids;
    AscendingAppends(ids[..i], ids[i..], pending);
    forall x | x in ids[..i] ensures x != ids[i] {
      assert Older(x, ids[i..], pending);
    }
  }
}
