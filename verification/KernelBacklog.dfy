/** The client part of the queue over whole runs: first in, first out, nothing lost or made up, and
    never more than the capacities that the operations were given. */
module KernelBacklog {
  import opened Wire
  import opened Replay
  import opened Kernel
  import opened KernelInvariant
  import opened KernelSteps
  import opened KernelRuns

  // ---------------------------------------------------------------- first in, first out

  /** The client frame that one operation accepts into the queue. */
  function Takes(k: State, op: Op): seq<Frame> {
    if op.Enqueue? && k.Enqueue(op.frame, op.capacity).result.Ok? then [op.frame] else []
  }

  /** The client frame that one operation hands out for routing. */
  function Gives(k: State, op: Op): seq<Frame> {
    if op.Pop? && k.Pop().result.Ok? && k.Pop().result.value.ClientFrame? then [k.Pop().result.value.frame] else []
  }

  /** The client frames that a run has accepted into the queue, in order of arrival. */
  ghost function Taken(ops: seq<Op>): seq<Frame> {
    if ops == [] then [] else Taken(ops[..|ops| - 1]) + Takes(Run(ops[..|ops| - 1]), ops[|ops| - 1])
  }

  /** The client frames that a run has handed out, in order. */
  ghost function Given(ops: seq<Op>): seq<Frame> {
    if ops == [] then [] else Given(ops[..|ops| - 1]) + Gives(Run(ops[..|ops| - 1]), ops[|ops| - 1])
  }

  lemma {:induction false} OneOperation(k: State, op: Op)
    requires Inv(k)
    ensures Clients(k) + Takes(k, op) == Gives(k, op) + Clients(Exec(k, op))
  {
    hide Clients, Inv;
    assert Clients(k) + [] == Clients(k) && forall q: seq<Frame> :: [] + q == q;
    match op
    case Observe(f) => ObservationLeaves(k, f);
    case Enqueue(f, c) => ClientsAfterEnqueue(k, f, c);
    case Pop => ClientsAfterPop(k);
    case Begin(f, c, n) => ClientsAfterBegin(k, f, c, n);
    case Complete(f) => ClientsAfterComplete(k, f);
    case Requeue(b) => ClientsAfterRequeue(k, b);
    case Resolve(id, a, m) => ClientsAfterResolve(k, id, a, m);
  }

  lemma {:induction false} ObservationLeaves(k: State, f: Frame)
    ensures Clients(k.Observe(f).kernel) == Clients(k)
  {
  }

  lemma {:induction false} EmptyQueueHasNoClients()
    ensures Clients(Run([])) == []
  {
  }

  /** In every run, what was accepted is what was handed out followed by what still waits: client
      frames leave the queue in the order they came, through any dispatches, losses and probes, and
      none is lost, repeated or made up. */
  lemma {:induction false} BacklogIsConserved(ops: seq<Op>)
    ensures Taken(ops) == Given(ops) + Clients(Run(ops))
    decreases |ops|
  {
    hide Clients, Takes, Gives, Exec, Inv;
    if ops != [] {
      var init, op := ops[..|ops| - 1], ops[|ops| - 1];
      BacklogIsConserved(init);
      RunKeepsInvariant(init);
      OneOperation(Run(init), op);
      assert Taken(ops) == Given(init) + (Clients(Run(init)) + Takes(Run(init), op));
      assert Given(ops) + Clients(Run(ops)) == Given(init) + (Gives(Run(init), op) + Clients(Run(ops)));
    } else {
      assert Clients(Run([])) == [] by { EmptyQueueHasNoClients(); }
    }
  }

  lemma {:induction false} HistoryGrows(ops: seq<Op>, n: nat)
    requires n <= |ops|
    ensures Taken(ops[..n]) <= Taken(ops) && Given(ops[..n]) <= Given(ops)
    decreases |ops|
  {
    if n < |ops| {
      HistoryGrows(ops[..|ops| - 1], n);
      assert ops[..|ops| - 1][..n] == ops[..n];
    } else {
      assert ops[..n] == ops;
    }
  }

  /** A frame that was accepted waits behind exactly those that came before it and have not left yet,
      until it is its turn to be handed out. */
  lemma {:induction false} AcceptedFrameWaits(ops: seq<Op>, x: nat)
    requires x < |ops| && ops[x].Enqueue? && Run(ops[..x]).Enqueue(ops[x].frame, ops[x].capacity).result.Ok?
    ensures var turn := |Taken(ops[..x])|;
      if turn < |Given(ops)| then Given(ops)[turn] == ops[x].frame
      else turn - |Given(ops)| < |Clients(Run(ops))| && Clients(Run(ops))[turn - |Given(ops)|] == ops[x].frame
  {
    var front := ops[..x + 1];
    assert front[..x] == ops[..x];
    HistoryGrows(ops, x + 1);
    BacklogIsConserved(ops);
    assert Taken(ops)[|Taken(ops[..x])|] == ops[x].frame;
  }

  // ---------------------------------------------------------------- capacity

  predicate WithinCapacity(op: Op, queue: nat, pending: nat) {
    match op
    case Enqueue(_, c) => c <= queue
    case Begin(_, _, n) => n <= pending
    case Requeue(b) => b.queueCapacity <= queue
    case _ => true
  }

  lemma {:induction false} WithoutShrinks(frames: seq<Frame>, ids: set<RequestId>)
    ensures |Without(frames, ids)| <= |frames|
  {
    if frames != [] {
      WithoutShrinks(frames[1..], ids);
    }
  }

  ghost predicate Bounded(k: State, queue: nat, pending: nat) {
    |k.queue| <= queue && |k.pending| <= pending
  }

  lemma {:induction false} LossStaysBounded(k: State, budget: ReplayBudget, queue: nat, pending: nat)
    requires Inv(k) && Bounded(k, queue, pending) && budget.queueCapacity <= queue
    ensures Bounded(k.Requeue(budget).0, queue, pending)
  {
    var kept := RequeueParts(k, budget);
    WithoutShrinks(k.queue, k.pending.Keys);
    assert k.Requeue(budget).0.pending.Keys <= k.pending.Keys;
    SmallerMap(k.Requeue(budget).0.pending, k.pending);
  }

  lemma {:induction false} SmallerMap(few: PendingMap, many: PendingMap)
    requires few.Keys <= many.Keys
    ensures |few| <= |many|
  {
    SmallerSet(few.Keys, many.Keys);
  }

  lemma {:induction false} SmallerSet(few: set<RequestId>, many: set<RequestId>)
    requires few <= many
    ensures |few| <= |many|
  {
    assert many == few + (many - few);
  }

  lemma {:induction false} RemovalStaysBounded(k: State, id: RequestId, queue: nat, pending: nat)
    requires Bounded(k, queue, pending)
    ensures Bounded(Removed(k, id), queue, pending)
  {
    WithoutShrinks(k.queue, {id});
    SmallerMap(k.pending - {id}, k.pending);
  }

  lemma {:induction false} PopStaysBounded(k: State, queue: nat, pending: nat)
    requires Inv(k) && Bounded(k, queue, pending)
    ensures Bounded(k.Pop().kernel, queue, pending)
  {
    if k.Pop().kernel != k {
      var ids, backlog :| Split(k, ids, backlog);
      PopShape(k, ids, backlog);
      if ids != [] {
        assert Replaying(k, ids[0]).pending.Keys == k.pending.Keys;
      }
    }
  }

  lemma {:induction false} EvidenceStaysBounded(k: State, id: RequestId, answer: ProbeResolution, max: u8,
                                                queue: nat, pending: nat)
    requires Inv(k) && Bounded(k, queue, pending)
    ensures Bounded(k.Resolve(id, answer, max).kernel, queue, pending)
  {
    EvidenceIsExact(k, id, answer, max);
    RemovalStaysBounded(k, id, queue, pending);
    if id in k.pending {
      assert k.pending[id := k.pending[id].(scheduled := Some(RequestDisposition.Replay))].Keys == k.pending.Keys;
    }
  }

  lemma {:induction false} StepStaysBounded(k: State, op: Op, queue: nat, pending: nat)
    requires Inv(k) && Bounded(k, queue, pending) && WithinCapacity(op, queue, pending)
    ensures Bounded(Exec(k, op), queue, pending)
  {
    match op
    case Observe(f) => ObservationIsExact(k, f);
    case Enqueue(f, c) => AdmissionToBacklogIsExact(k, f, c);
    case Begin(f, c, n) =>
      if f.envelope.Request? {
        FirstDispatchIsExact(k, f, c, n);
      }
    case Complete(f) =>
      AnswerIsExact(k, f);
      if f.envelope.Response? {
        RemovalStaysBounded(k, f.envelope.id, queue, pending);
      }
    case Requeue(b) => LossStaysBounded(k, b, queue, pending);
    case Resolve(id, a, m) => EvidenceStaysBounded(k, id, a, m, queue, pending);
    case Pop => PopStaysBounded(k, queue, pending);
  }

  /** Queue and pending map never outgrow the largest capacities that were asked for, whatever the losses. */
  lemma {:induction false} RunStaysBounded(ops: seq<Op>, queue: nat, pending: nat)
    requires forall i :: 0 <= i < |ops| ==> WithinCapacity(ops[i], queue, pending)
    ensures |Run(ops).queue| <= queue && |Run(ops).pending| <= pending
    decreases |ops|
  {
    if ops != [] {
      RunStaysBounded(ops[..|ops| - 1], queue, pending);
      RunKeepsInvariant(ops[..|ops| - 1]);
      StepStaysBounded(Run(ops[..|ops| - 1]), ops[|ops| - 1], queue, pending);
    }
  }
}
