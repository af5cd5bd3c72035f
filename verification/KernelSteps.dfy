/** What the kernel's operations come to, said of state and result alone: when each is refused and
    for which reason, and what is different afterwards. */
module KernelSteps {
  import opened Wire
  import opened Replay
  import opened Kernel
  import opened KernelInvariant

  // ---------------------------------------------------------------- client frames

  /** Something that waits in the queue is a request with this id. */
  predicate Awaits(queue: seq<Frame>, id: RequestId) {
    exists f :: f in queue && Carries(f, id)
  }

  lemma {:induction false} QueuedIdsAwait(queue: seq<Frame>)
    ensures forall id :: id in QueuedIds(queue) <==> Awaits(queue, id)
  {
    if queue != [] {
      QueuedIdsAwait(queue[1..]);
      forall id ensures id in QueuedIds(queue) <==> Awaits(queue, id) {
        assert queue[0] in queue && forall f :: f in queue <==> f == queue[0] || f in queue[1..];
        assert id in QueuedIds(queue) <==> Carries(queue[0], id) || Awaits(queue[1..], id);
      }
    }
  }

  /** An initialize request of the client opens the handshake, and its notification confirms it, each
      exactly once and in that order; no other frame touches the kernel. */
  lemma {:induction false} ObservationIsExact(k: State, f: Frame)
    ensures var opens := f.envelope.Request? && f.envelope.rpc.Initialize?;
      var confirms := f.envelope.Notification? && (f.envelope.note.Initialized? ||
          f.envelope.note.NotificationsInitialized?);
      var s := k.Observe(f);
      && (s.result.Ok? <==>
            (opens ==> k.phase.Cold? && k.seed.None?) && (confirms ==> k.phase.AwaitingInitialized? && k.seed.Some?))
      && (s.result.Err? ==> s == Step(k, Err(InvalidExecutionState)))
      && (s.result.Ok? && opens ==> s.kernel == k.(seed := Some(Seed(f.envelope.id, f.payload, None))))
      && (s.result.Ok? && confirms ==>
            s.kernel == k.(phase := Live, seed := Some(Seed(k.seed.value.id, k.seed.value.payload, Some(f.payload)))))
      && (!opens && !confirms ==> s.kernel == k)
  {
  }

  /** A frame is accepted into the queue as its last entry, or refused without effect: for want of
      room, or else because a pending or waiting request has its id. */
  lemma {:induction false} AdmissionToBacklogIsExact(k: State, f: Frame, capacity: nat)
    ensures var s := k.Enqueue(f, capacity);
      var repeated := f.envelope.Request? && (f.envelope.id in k.pending || Awaits(k.queue, f.envelope.id));
      && (s.result == Err(QueueOverflow) <==> |k.queue| >= capacity)
      && (s.result == Err(DuplicateRequestId) <==> |k.queue| < capacity && repeated)
      && (s.result.Ok? <==> |k.queue| < capacity && !repeated)
      && (s.result.Ok? ==>
           && s.kernel.queue == k.queue + [f] && s.kernel.pending == k.pending
           && s.kernel.phase == k.phase && s.kernel.seed == k.seed && s.kernel.next == k.next)
      && (s.result.Err? ==> s.kernel == k)
  {
    QueuedIdsAwait(k.queue);
  }

  /** A first dispatch is refused exactly for these reasons, in this order and without effect; otherwise
      the request is in flight under the next number, and an initialize request opens the handshake. */
  lemma {:induction false} FirstDispatchIsExact(k: State, f: Frame, contract: ReplayContract, capacity: nat)
    requires f.envelope.Request?
    ensures var id, initialize := f.envelope.id, f.envelope.rpc.Initialize?;
      var s := k.Begin(f, contract, capacity);
      var repeated := id in k.pending || Awaits(k.queue, id);
      var full := |k.pending| >= capacity;
      var spent := k.next == 0xFFFF_FFFF_FFFF_FFFF;
      var untimely := initialize && !(k.phase.Cold? &&
          (k.seed.Some? ==> k.seed.value.id == id && k.seed.value.payload == f.payload));
      && (s.result == Err(DuplicateRequestId) <==> repeated)
      && (s.result == Err(PendingCapacityExhausted) <==> !repeated && full)
      && (s.result == Err(InvalidExecutionState) <==> !repeated && !full && (spent || untimely))
      && (s.result == Ok(id) <==> !repeated && !full && !spent && !untimely)
      && (s.result.Ok? || s.kernel == k)
      && (s.result.Ok? ==>
           && s.kernel.pending ==
                k.pending[id := PendingRequest(f.envelope.rpc, k.next, f, contract, InFlight, 0, None)]
           && s.kernel.queue == k.queue && s.kernel.next == k.next + 1
           && (!initialize ==> s.kernel.phase == k.phase && s.kernel.seed == k.seed)
           && (initialize ==>
                && s.kernel.phase.Initializing? && s.kernel.seed.Some?
                && s.kernel.seed.value.id == id && s.kernel.seed.value.payload == f.payload))
  {
    QueuedIdsAwait(k.queue);
  }

  /** The head of the queue decides what comes next. A client frame is handed out; an invocation that
      may run again is in flight once more, with one more attempt; a held one keeps everything waiting. */
  lemma {:induction false} NextDispatchIsExact(k: State)
    requires Inv(k)
    ensures k.queue == [] ==> k.Pop() == Step(k, Ok(Empty))
    ensures k.queue != [] && !(k.queue[0].envelope.Request? && k.queue[0].envelope.id in k.pending) ==>
        k.Pop() == Step(k.(queue := k.queue[1..]), Ok(ClientFrame(k.queue[0])))
    ensures k.queue != [] && k.queue[0].envelope.Request? && k.queue[0].envelope.id in k.pending ==>
      var id := k.queue[0].envelope.id;
      var r := k.pending[id];
      && (r.scheduled == Some(HoldForProbe) || r.scheduled == Some(Replay))
      && r.frame == k.queue[0]
      && (r.scheduled == Some(HoldForProbe) ==> k.Pop() == Step(k, Ok(HeldForProbe(id))))
      && (r.scheduled == Some(Replay) ==>
           && r.attempts < 255 && k.Pop().result == Ok(Replayed(r.frame))
           && k.Pop().kernel == k.(
                pending := k.pending[id := r.(knowledge := InFlight, attempts := r.attempts + 1, scheduled := None)],
                queue := k.queue[1..]))
  {
    if k.queue != [] {
      var ids, backlog :| Split(k, ids, backlog);
      HeadOfQueue(k, ids, backlog);
      if ids != [] {
        assert Sane(ids[0], k.pending[ids[0]], k.next) && k.queue[0] == k.pending[ids[0]].frame;
      }
    }
  }

  // ---------------------------------------------------------------- answers

  /** Everything of one invocation is gone, and nothing of any other. */
  predicate Cleared(k: State, id: RequestId, k': State) {
    k'.pending == k.pending - {id} && k'.queue == Without(k.queue, {id}) && k'.next == k.next
  }

  /** An answer counts exactly if its request is pending, and then ends that request. The answer to the
      initialize request decides the handshake: it goes on if and only if the answer is no error;
      otherwise the session is as if it had never begun, and takes any initialize request. */
  lemma {:induction false} AnswerIsExact(k: State, f: Frame)
    requires Inv(k)
    ensures var s := k.Complete(f);
      && (s.result == Err(InvalidRequestFrame) <==> !f.envelope.Response?)
      && (s.result == Err(RequestNotPending) <==> f.envelope.Response? && f.envelope.id !in k.pending)
      && (s.result.Ok? <==> f.envelope.Response? && f.envelope.id in k.pending)
      && (s.result.Err? ==> s.kernel == k)
      && (s.result.Ok? ==>
           var r := k.pending[f.envelope.id];
           && Cleared(k, f.envelope.id, s.kernel) && s.result.value == r.(knowledge := Completed)
           && (!r.rpc.Initialize? ==> s.kernel.phase == k.phase && s.kernel.seed == k.seed)
           && (r.rpc.Initialize? ==>
                && (s.kernel.phase.AwaitingInitialized? <==> !f.envelope.hasError)
                && (!f.envelope.hasError ==> s.kernel.seed == k.seed)
                && (f.envelope.hasError ==> s.kernel.phase.Cold? && s.kernel.seed.None?)))
  {
    if f.envelope.Response? && f.envelope.id in k.pending {
      assert Sane(f.envelope.id, k.pending[f.envelope.id], k.next);
    }
  }

  /** After a failed handshake the client may open another, with any id and any parameters. */
  lemma {:induction false} FailureReopens(k: State, f: Frame, again: Frame)
    requires Inv(k) && f.envelope.Response? && f.envelope.hasError
    requires f.envelope.id in k.pending && k.pending[f.envelope.id].rpc.Initialize?
    requires again.envelope.Request? && again.envelope.rpc.Initialize?
    ensures var failed := k.Complete(f).kernel;
      && failed.Observe(again).result.Ok?
      && failed.Observe(again).kernel.seed == Some(Seed(again.envelope.id, again.payload, None))
  {
    AnswerIsExact(k, f);
    ObservationIsExact(k.Complete(f).kernel, again);
  }

  // ---------------------------------------------------------------- probe answers

  /** Evidence about an invocation counts exactly while that invocation is held. "Safe" lets it be
      replayed if its budget allows and refuses it otherwise; "completed" ends it. */
  lemma {:induction false} EvidenceIsExact(k: State, id: RequestId, answer: ProbeResolution, max: u8)
    requires Inv(k)
    ensures var s := k.Resolve(id, answer, max);
      var held := id in k.pending && k.pending[id].scheduled == Some(HoldForProbe);
      && (s.result == Err(RequestNotPending) <==> id !in k.pending)
      && (s.result == Err(InvalidExecutionState) <==> id in k.pending && !held)
      && (!held ==> s.kernel == k)
      && (held ==>
           var r := k.pending[id];
           && (s.result == Ok(ReplayAuthorized(id)) <==> answer.SafeToReplay? && r.attempts < max)
           && (s.result == Err(ReplayBudgetExhausted) <==> answer.SafeToReplay? && r.attempts >= max)
           && (s.result == Ok(ProvedComplete(r.(knowledge := Completed))) <==> answer.AlreadyCompleted?)
           && (answer.SafeToReplay? && r.attempts < max ==>
                s.kernel == k.(pending := k.pending[id := r.(scheduled := Some(Replay))]))
           && (answer.AlreadyCompleted? || r.attempts >= max ==>
                Cleared(k, id, s.kernel) && s.kernel.phase == k.phase && s.kernel.seed == k.seed))
  {
    if id in k.pending {
      assert Sane(id, k.pending[id], k.next);
    }
  }

  // ---------------------------------------------------------------- the client part of the queue

  /** What the queue holds besides invocations that wait for recovery. */
  function Clients(k: State): seq<Frame> {
    Without(k.queue, k.pending.Keys)
  }

  lemma {:induction false} ClientsAre(k: State, ids: seq<RequestId>, backlog: seq<Frame>)
    requires Identified(k) && Split(k, ids, backlog)
    ensures Clients(k) == backlog
  {
    BacklogIsTail(k, ids, backlog);
  }

  lemma {:induction false} ClientsAfterEnqueue(k: State, f: Frame, capacity: nat)
    requires Inv(k)
    ensures Clients(k.Enqueue(f, capacity).kernel) ==
        Clients(k) + if k.Enqueue(f, capacity).result.Ok? then [f] else []
  {
    var ids, backlog :| Split(k, ids, backlog);
    ClientsAre(k, ids, backlog);
    AdmissionToBacklogIsExact(k, f, capacity);
    if k.Enqueue(f, capacity).result.Ok? {
      QueuedIdsAwait(k.queue);
      EnqueueKeepsSplit(k, f, ids, backlog);
      EnqueueKeeps(k, f, capacity);
      ClientsAre(k.Enqueue(f, capacity).kernel, ids, backlog + [f]);
    }
  }

  lemma {:induction false} ClientsAfterBegin(k: State, f: Frame, contract: ReplayContract, capacity: nat)
    requires Inv(k)
    ensures Clients(k.Begin(f, contract, capacity).kernel) == Clients(k)
  {
    hide Identified, Lane, Backlog;
    if k.BeginRefusal(f, capacity).None? {
      var ids, backlog :| Split(k, ids, backlog);
      var k' := k.Admitted(f, contract);
      ClientsAre(k, ids, backlog);
      AdmissionKeepsSplit(k, f.envelope.id, k'.pending[f.envelope.id], ids, backlog);
      assert Split(k', ids, backlog);
      AdmittedIsIdentified(k, f, contract);
      ClientsAre(k', ids, backlog);
    }
  }

  /** What a pop takes from the client part of the queue: its first frame, if it hands one out. */
  lemma {:induction false} ClientsAfterPop(k: State)
    requires Inv(k)
    ensures var s := k.Pop();
      Clients(k) == (if s.result.Ok? && s.result.value.ClientFrame? then [s.result.value.frame] else [])
          + Clients(s.kernel)
  {
    hide Sane, Lane, Backlog;
    var ids, backlog :| Split(k, ids, backlog);
    ClientsAre(k, ids, backlog);
    PopNeverErrs(k);
    PopKeeps(k);
    if k.Pop().kernel != k {
      PopShape(k, ids, backlog);
      if ids == [] {
        HeadOfQueue(k, ids, backlog);
        HandOutLeaves(k, backlog);
      } else {
        ReplayKeepsSplit(k, ids, backlog);
        ClientsAre(k.Pop().kernel, ids[1..], backlog);
      }
    } else {
      assert k.queue != [] ==> |k.queue[1..]| < |k.queue|;
    }
  }

  lemma {:induction false} HandOutLeaves(k: State, backlog: seq<Frame>)
    requires Inv(k) && Split(k, [], backlog) && k.queue == backlog && backlog != []
    ensures Clients(k.(queue := k.queue[1..])) == backlog[1..]
  {
    assert Split(k.(queue := k.queue[1..]), [], backlog[1..]);
    HandOutKeeps(k, backlog);
    ClientsAre(k.(queue := k.queue[1..]), [], backlog[1..]);
  }

  lemma {:induction false} ClientsAfterRemoval(k: State, id: RequestId)
    requires Inv(k) && id in k.pending
    ensures Clients(Removed(k, id)) == Clients(k)
  {
    var ids, backlog :| Split(k, ids, backlog);
    ClientsAre(k, ids, backlog);
    RemovalKeeps(k, id);
    if id in ids {
      var j :| 0 <= j < |ids| && ids[j] == id;
      RemovalFromLane(k, id, ids, backlog, j);
      ClientsAre(Removed(k, id), ids[..j] + ids[j + 1..], backlog);
    } else {
      RemovalBesideLane(k, id, ids, backlog);
      ClientsAre(Removed(k, id), ids, backlog);
    }
  }

  lemma {:induction false} ClientsAfterComplete(k: State, f: Frame)
    requires Inv(k)
    ensures Clients(k.Complete(f).kernel) == Clients(k)
  {
    AnswerIsExact(k, f);
    if k.Complete(f).result.Ok? {
      ClientsAfterRemoval(k, f.envelope.id);
    }
  }

  lemma {:induction false} ClientsAfterResolve(k: State, id: RequestId, answer: ProbeResolution, max: u8)
    requires Inv(k)
    ensures Clients(k.Resolve(id, answer, max).kernel) == Clients(k)
  {
    if id in k.pending {
      EvidenceIsExact(k, id, answer, max);
      ClientsAfterRemoval(k, id);
      assert k.pending[id := k.pending[id].(scheduled := Some(RequestDisposition.Replay))].Keys == k.pending.Keys;
    }
  }

  lemma {:induction false} ClientsAfterRequeue(k: State, budget: ReplayBudget)
    requires Inv(k)
    ensures Clients(k.Requeue(budget).0) == Clients(k)
  {
    var ids, backlog :| Split(k, ids, backlog);
    ClientsAre(k, ids, backlog);
    var kept := RequeueSplit(k, budget, ids, backlog);
    RequeueKeeps(k, budget);
    ClientsAre(k.Requeue(budget).0, kept, backlog);
  }
}
