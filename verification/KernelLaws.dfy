/** Laws of every kernel run: the laws of the continuity machine read off the kernel's own trace,
    conservation of sequence numbers, and isolation of the public initialization handshake. */
module KernelLaws {
  import opened Wire
  import opened Replay
  import opened Kernel
  import opened KernelInvariant
  import opened KernelSteps
  import opened KernelRuns
  import opened Requeue
  import opened Snapshot
  import C = Continuity

  // ---------------------------------------------------------------- conservation

  /** Every sequence number ever issued is either still pending or has ended, never both. */
  lemma {:induction false} EveryNumberAccountedFor(ops: seq<Op>, s: nat)
    requires s < Run(ops).next
    ensures C.Accepts(C.Genesis, Trace(ops)) && s < |C.After(C.Genesis, Trace(ops)).status|
    ensures Owned(s, Run(ops).pending) <==> !C.After(C.Genesis, Trace(ops)).status[s].Done?
  {
    RunRefinesContinuity(ops);
    if Owned(s, Run(ops).pending) {
      var id :| id in Run(ops).pending && Run(ops).pending[id].sequence == s;
      assert Tracks(Run(ops).pending[id], C.After(C.Genesis, Trace(ops)));
    }
  }

  /** Sequence numbers are never reused. */
  lemma {:induction false} NumbersAreIssuedInOrder(ops: seq<Op>, i: nat, j: nat)
    requires i < j < |Trace(ops)| && Trace(ops)[i].Dispatch? && Trace(ops)[j].Dispatch?
    ensures Trace(ops)[i].s < Trace(ops)[j].s < Run(ops).next
  {
    RunRefinesContinuity(ops);
    C.NumbersAreFresh(Trace(ops), i, j);
  }

  /** After its terminal outcome nothing more is recorded about an invocation, in any run. */
  lemma {:induction false} EndsOnce(ops: seq<Op>, i: nat, j: nat, s: nat)
    requires i < j < |Trace(ops)|
    requires Trace(ops)[i] == C.Answer(s) || Trace(ops)[i] ==
        C.ProbeCompleted(s) || (Trace(ops)[i].Refuse? && Trace(ops)[i].s == s)
    ensures !Trace(ops)[j].LoseWorker? && !Trace(ops)[j].HandOut? ==> Trace(ops)[j].s != s
  {
    RunRefinesContinuity(ops);
    C.SingleTerminalOutcome(Trace(ops), i, j, s);
  }

  /** Between two losses a run replays in original order, and hands out no client frame before. */
  lemma {:induction false} ReplaysAreOrdered(ops: seq<Op>, i: nat, j: nat)
    requires i < j < |Trace(ops)| && !C.LossWithin(Trace(ops), i, j) && Trace(ops)[j].Redispatch?
    ensures !Trace(ops)[i].HandOut?
    ensures Trace(ops)[i].Redispatch? ==> Trace(ops)[i].s < Trace(ops)[j].s
  {
    RunRefinesContinuity(ops);
    C.RecoveryOrder(Trace(ops), i, j);
  }

  // ---------------------------------------------------------------- how often anything is dispatched

  predicate WithinBudget(op: Op, bound: nat) {
    (op.Requeue? ==> op.budget.maxAttempts <= bound) && (op.Resolve? ==> op.max <= bound)
  }

  predicate Modest(a: C.Action, bound: nat) {
    (a.LoseWorker? ==> a.budget <= bound) && (a.ProbeSafe? ==> a.budget <= bound)
  }

  lemma {:induction false} RefusalsAreModest(rejected: seq<RejectedReplay>, budget: nat, bound: nat)
    ensures forall i :: 0 <= i < |Refusals(rejected, budget)| ==> Modest(Refusals(rejected, budget)[i], bound)
  {
    if rejected != [] {
      RefusalsAreModest(rejected[1..], budget, bound);
    }
  }

  lemma {:induction false} EmitsModestly(k: State, op: Op, bound: nat)
    requires Inv(k) && WithinBudget(op, bound)
    ensures forall i :: 0 <= i < |Emits(k, op)| ==> Modest(Emits(k, op)[i], bound)
  {
    if op.Requeue? {
      RefusalsAreModest(k.Requeue(op.budget).1.rejected, op.budget.maxAttempts, bound);
    }
  }

  lemma {:induction false} TraceIsModest(ops: seq<Op>, bound: nat)
    requires forall i :: 0 <= i < |ops| ==> WithinBudget(ops[i], bound)
    ensures forall i :: 0 <= i < |Trace(ops)| ==> Modest(Trace(ops)[i], bound)
    decreases |ops|
  {
    if ops != [] {
      TraceIsModest(ops[..|ops| - 1], bound);
      RunKeepsInvariant(ops[..|ops| - 1]);
      EmitsModestly(Run(ops[..|ops| - 1]), ops[|ops| - 1], bound);
    }
  }

  /** With every budget at most `bound`, no invocation is dispatched more than 1 + `bound` times. */
  lemma {:induction false} DispatchesAreBounded(ops: seq<Op>, s: nat, bound: nat)
    requires forall i :: 0 <= i < |ops| ==> WithinBudget(ops[i], bound)
    ensures C.Attempts(Trace(ops), s) <= 1 + bound
  {
    RunRefinesContinuity(ops);
    TraceIsModest(ops, bound);
    assert forall i :: 0 <= i < |Trace(ops)| ==> Modest(Trace(ops)[i], bound);
    C.AttemptsBounded(Trace(ops), s, bound);
  }

  // ---------------------------------------------------------------- the initialization handshake

  predicate PhaseFollows(a: SessionPhase, b: SessionPhase) {
    || a == b
    || (a.Cold? && b.Initializing?)
    || (a.Initializing? && (b.Cold? || b.AwaitingInitialized?))
    || (a.AwaitingInitialized? && b.Live?)
  }

  /** One operation moves the handshake at most one step, and a live session keeps its seed. */
  lemma {:induction false} HandshakeStep(k: State, op: Op)
    ensures PhaseFollows(k.phase, Exec(k, op).phase)
    ensures k.phase.Live? ==> Exec(k, op).seed == k.seed
  {
    match op
    case Observe(f) =>
    case Enqueue(f, c) =>
    case Begin(f, c, n) =>
    case Requeue(b) =>
    case Pop =>
    case Resolve(id, a, m) =>
    case Complete(f) =>
  }

  /** Whatever the kernel has been through, the seed for a later worker is at hand: none before a
      worker has taken the handshake, from then on the handshake so far, complete once live. */
  lemma {:induction false} SeedIsReady(ops: seq<Op>)
    ensures Run(ops).ReplaySeed().Ok?
    ensures !Greeted(Run(ops)) ==> Run(ops).ReplaySeed().value.None?
    ensures Greeted(Run(ops)) ==> Run(ops).ReplaySeed().value == Run(ops).seed && Run(ops).seed.Some?
    ensures Run(ops).phase.Live? ==> Run(ops).seed.value.notification.Some?
  {
    RunKeepsInvariant(ops);
  }

  lemma {:induction false} LiveStep(ops: seq<Op>, op: Op)
    requires Run(ops).phase.Live?
    ensures Run(ops + [op]).phase.Live? && Run(ops + [op]).seed == Run(ops).seed
  {
    assert (ops + [op])[..|ops|] == ops;
    HandshakeStep(Run(ops), op);
  }

  /** Once live, the session stays live with byte-for-byte the same seed, through any losses,
      replays, probes and rejected handshakes that follow. */
  lemma {:induction false} LiveSeedIsForever(ops: seq<Op>, more: seq<Op>)
    requires Run(ops).phase.Live?
    ensures Run(ops + more).phase.Live? && Run(ops + more).seed == Run(ops).seed
    decreases |more|
  {
    if more == [] {
      assert ops + more == ops;
    } else {
      var init, last := more[..|more| - 1], more[|more| - 1];
      LiveSeedIsForever(ops, init);
      LiveStep(ops + init, last);
      assert ops + more == (ops + init) + [last];
    }
  }

  predicate OpensWith(op: Op, seed: Seed) {
    match op
    case Observe(f) => f.envelope == Request(seed.id, Initialize) && f.payload == seed.payload
    case Begin(f, _, _) => f.envelope == Request(seed.id, Initialize) && f.payload == seed.payload
    case _ => false
  }

  predicate ConfirmsWith(op: Op, seed: Seed) {
    op.Observe? && op.frame.envelope.Notification? && IsInitializedNotification(op.frame.envelope.note) &&
        seed.notification == Some(op.frame.payload)
  }

  /** The seed is what the client itself sent: its initialize request and, once live, its
      notification, which came later. */
  ghost predicate SeedComesFrom(ops: seq<Op>, k: State) {
    k.seed.Some? ==> exists i :: (
      && 0 <= i < |ops| && OpensWith(ops[i], k.seed.value)
      && (k.phase.Live? ==> exists j :: i < j < |ops| && ConfirmsWith(ops[j], k.seed.value)))
  }

  lemma {:induction false} SeedStep(k: State, op: Op)
    ensures var k' := Exec(k, op);
      k'.seed.Some? ==>
        || (k'.seed == k.seed && (k'.phase.Live? ==> k.phase.Live?))
        || (OpensWith(op, k'.seed.value) && !k'.phase.Live?)
        || (k.seed.Some? && k'.phase.Live? && ConfirmsWith(op, k'.seed.value) &&
            k'.seed == Some(k.seed.value.(notification := k'.seed.value.notification)))
  {
    match op
    case Observe(f) =>
    case Enqueue(f, c) =>
    case Begin(f, c, n) =>
    case Requeue(b) =>
    case Pop =>
    case Resolve(id, a, m) =>
    case Complete(f) =>
  }

  lemma {:induction false} SeedIsObserved(ops: seq<Op>)
    ensures SeedComesFrom(ops, Run(ops))
    decreases |ops|
  {
    if ops != [] && Run(ops).seed.Some? {
      var init, op := ops[..|ops| - 1], ops[|ops| - 1];
      var k, k' := Run(init), Run(ops);
      SeedIsObserved(init);
      SeedStep(k, op);
      if k'.seed == k.seed && (k'.phase.Live? ==> k.phase.Live?) {
        var i :| 0 <= i < |init| && OpensWith(init[i], k.seed.value)
          && (k.phase.Live? ==> exists j :: i < j < |init| && ConfirmsWith(init[j], k.seed.value));
        assert ops[i] == init[i];
        if k'.phase.Live? {
          var j :| i < j < |init| && ConfirmsWith(init[j], k.seed.value);
          assert ops[j] == init[j];
        }
      } else if OpensWith(op, k'.seed.value) && !k'.phase.Live? {
        assert ops[|ops| - 1] == op;
      } else {
        var i :| 0 <= i < |init| && OpensWith(init[i], k.seed.value);
        assert OpensWith(ops[i], k'.seed.value) && ConfirmsWith(ops[|ops| - 1], k'.seed.value);
      }
    }
  }

  // ---------------------------------------------------------------- who decides the handshake

  /** The worker has taken the client's initialize request. */
  predicate Greeted(k: State) {
    k.phase.AwaitingInitialized? || k.phase.Live?
  }

  /** An answer without error to the pending initialize request. */
  predicate Accepts(k: State, op: Op) {
    && op.Complete? && op.frame.envelope.Response? && !op.frame.envelope.hasError
    && op.frame.envelope.id in k.pending && k.pending[op.frame.envelope.id].rpc.Initialize?
  }

  /** That request has this id and these bytes. */
  predicate AcceptsAs(k: State, op: Op, id: RequestId, payload: Payload) {
    Accepts(k, op) && op.frame.envelope.id == id && k.pending[id].frame.payload == payload
  }

  ghost predicate Welcomes(ops: seq<Op>, x: nat) {
    x < |ops| && Accepts(Run(ops[..x]), ops[x])
  }

  ghost predicate WelcomesAs(ops: seq<Op>, x: nat, id: RequestId, payload: Payload) {
    x < |ops| && AcceptsAs(Run(ops[..x]), ops[x], id, payload)
  }

  ghost predicate Welcomed(ops: seq<Op>) {
    exists x: nat :: Welcomes(ops, x)
  }

  ghost predicate WelcomedAs(ops: seq<Op>, id: RequestId, payload: Payload) {
    exists x: nat :: WelcomesAs(ops, x, id, payload)
  }

  lemma {:induction false} GreetingLasts(k: State, op: Op)
    requires Inv(k) && Greeted(k)
    ensures Greeted(Exec(k, op)) && k.seed.Some? && Exec(k, op).seed.Some?
    ensures Exec(k, op).seed.value.id == k.seed.value.id && Exec(k, op).seed.value.payload == k.seed.value.payload
  {
    HandshakeStep(k, op);
    SeedStep(k, op);
    if op.Complete? {
      AnswerIsExact(k, op.frame);
    }
  }

  /** The session goes on from its handshake exactly by an answer without error to the pending
      initialize request, and what later workers are told is that request. */
  lemma {:induction false} GreetingBegins(k: State, op: Op)
    requires Inv(k) && !Greeted(k)
    ensures Greeted(Exec(k, op)) <==> Accepts(k, op)
    ensures Greeted(Exec(k, op)) ==> (
      k.seed.Some? && Exec(k, op).seed == k.seed && AcceptsAs(k, op, k.seed.value.id, k.seed.value.payload))
  {
    HandshakeStep(k, op);
    match op
    case Complete(f) => AnswerIsExact(k, f);
    case Observe(f) => ObservationIsExact(k, f);
    case Begin(f, c, n) =>
      if f.envelope.Request? { FirstDispatchIsExact(k, f, c, n); }
    case _ =>
  }

  lemma {:induction false} WelcomeExtends(ops: seq<Op>, op: Op)
    ensures Welcomed(ops + [op]) <==> Welcomed(ops) || Accepts(Run(ops), op)
    ensures forall id, payload :: WelcomedAs(ops, id, payload) || AcceptsAs(Run(ops), op, id, payload) ==>
        WelcomedAs(ops + [op], id, payload)
  {
    hide Accepts, Run;
    var more := ops + [op];
    assert more[..|ops|] == ops && forall x: nat :: x < |ops| ==> more[..x] == ops[..x] && more[x] == ops[x];
    assert Welcomes(more, |ops|) <==> Accepts(Run(ops), op);
    assert forall x: nat :: x < |ops| ==> (Welcomes(more, x) <==> Welcomes(ops, x));
    forall id, payload | WelcomedAs(ops, id, payload) || AcceptsAs(Run(ops), op, id, payload)
      ensures WelcomedAs(more, id, payload)
    {
      if WelcomedAs(ops, id, payload) {
        var x: nat :| WelcomesAs(ops, x, id, payload);
        assert WelcomesAs(more, x, id, payload);
      } else {
        assert WelcomesAs(more, |ops|, id, payload);
      }
    }
  }

  /** In every run the handshake has succeeded if and only if some worker answered the client's
      initialize request without an error; and the seed is the request that was so answered. */
  lemma {:induction false} HandshakeIsAnswered(ops: seq<Op>)
    ensures Greeted(Run(ops)) <==> Welcomed(ops)
    ensures Greeted(Run(ops)) ==> (
      Run(ops).seed.Some? && WelcomedAs(ops, Run(ops).seed.value.id, Run(ops).seed.value.payload))
    decreases |ops|
  {
    hide Exec, Greeted, Accepts, AcceptsAs, Welcomed, WelcomedAs;
    if ops == [] {
      NotYet();
    } else {
      var init, op := ops[..|ops| - 1], ops[|ops| - 1];
      assert ops == init + [op];
      HandshakeIsAnswered(init);
      RunKeepsInvariant(init);
      WelcomeExtends(init, op);
      if Greeted(Run(init)) {
        GreetingLasts(Run(init), op);
      } else {
        GreetingBegins(Run(init), op);
      }
    }
  }

  lemma {:induction false} NotYet()
    ensures !Greeted(Run([])) && !Welcomed([])
  {
  }

  // ---------------------------------------------------------------- reachable snapshots

  predicate SealedOp(op: Op, parse: Parser) {
    match op
    case Observe(f) => Sealed(f, parse)
    case Enqueue(f, _) => Sealed(f, parse)
    case Begin(f, _, _) => Sealed(f, parse)
    case _ => true
  }

  lemma {:induction false} WithoutIsSealed(queue: seq<Frame>, ids: set<RequestId>, parse: Parser)
    requires SealedQueue(queue, parse)
    ensures SealedQueue(Without(queue, ids), parse)
  {
    if queue != [] {
      WithoutIsSealed(queue[1..], ids, parse);
    }
  }

  lemma {:induction false} LaneIsSealed(ids: seq<RequestId>, p: PendingMap, parse: Parser)
    requires AllIn(ids, p) && SealedPending(p, parse)
    ensures SealedQueue(FramesOf(ids, p), parse)
  {
    if ids != [] {
      assert AllIn(ids[1..], p);
      assert ids[0] in p;
      LaneIsSealed(ids[1..], p, parse);
    }
  }

  lemma {:induction false} PendingStaysSealed(k: State, op: Op, parse: Parser)
    requires Inv(k) && SealedPending(k.pending, parse) && SealedOp(op, parse)
    ensures SealedPending(Exec(k, op).pending, parse)
  {
    if op.Requeue? {
      var kept := RequeueParts(k, op.budget);
    }
  }

  lemma {:induction false} QueueStaysSealed(k: State, op: Op, parse: Parser)
    requires Inv(k) && SealedPending(k.pending, parse) && SealedQueue(k.queue, parse) && SealedOp(op, parse)
    ensures SealedQueue(Exec(k, op).queue, parse)
  {
    match op
    case Requeue(b) =>
      var kept := RequeueParts(k, b);
      LaneIsSealed(kept, k.pending, parse);
      WithoutIsSealed(k.queue, k.pending.Keys, parse);
    case Complete(f) =>
      if f.envelope.Response? { WithoutIsSealed(k.queue, {f.envelope.id}, parse); }
    case Resolve(id, a, m) =>
      WithoutIsSealed(k.queue, {id}, parse);
    case _ =>
  }

  lemma {:induction false} SeedStaysSealed(k: State, op: Op, parse: Parser)
    requires Inv(k) && SealedOp(op, parse)
    requires k.seed.Some? ==> SealedSeed(k.seed.value, parse)
    ensures Exec(k, op).seed.Some? ==> SealedSeed(Exec(k, op).seed.value, parse)
  {
    SeedStep(k, op);
  }

  lemma {:induction false} RunIsSealed(ops: seq<Op>, parse: Parser)
    requires forall i :: 0 <= i < |ops| ==> SealedOp(ops[i], parse)
    ensures SealedKernel(Run(ops), parse)
    decreases |ops|
  {
    if ops != [] {
      RunIsSealed(ops[..|ops| - 1], parse);
      RunKeepsInvariant(ops[..|ops| - 1]);
      PendingStaysSealed(Run(ops[..|ops| - 1]), ops[|ops| - 1], parse);
      QueueStaysSealed(Run(ops[..|ops| - 1]), ops[|ops| - 1], parse);
      SeedStaysSealed(Run(ops[..|ops| - 1]), ops[|ops| - 1], parse);
    }
  }

  /** Every kernel that a run over parsed frames can reach survives snapshot and restore unchanged,
      exactly when it fits the limits and recovery has not dropped its initialize. */
  lemma {:induction false} ReachableRoundTrip(ops: seq<Op>, limits: Limits, parse: Parser)
    requires forall i :: 0 <= i < |ops| ==> SealedOp(ops[i], parse)
    ensures DistinctSequences(Run(ops).pending)
    ensures Admissible(SnapshotOf(Run(ops)), limits, parse) <==>
      Fits(Run(ops), limits) && (Run(ops).phase.Initializing? ==> InitializePending(Run(ops).pending))
    ensures forall i :: 0 <= i < |Run(ops).queue| ==> parse(SnapshotOf(Run(ops)).queue[i]).Some?
    ensures Hydrated(SnapshotOf(Run(ops)), parse) == Run(ops)
  {
    RunIsSealed(ops, parse);
    RunKeepsInvariant(ops);
    SnapshotHydratesBack(Run(ops), parse);
    SnapshotRoundTrip(Run(ops), limits, parse);
  }

  /** Recovery can drop the pending initialize and leave the phase behind. The kernel keeps its
      invariant, but its own snapshot is then refused: exactly when the request is not recoverable,
      or there is no room for it in the queue. */
  lemma {:induction false} InitializeIsDropped(k: State, id: RequestId, budget: ReplayBudget, limits: Limits,
      parse: Parser)
    requires Inv(k) && k.phase.Initializing? && SealedKernel(k, parse)
    requires id in k.pending && k.pending[id].rpc.Initialize?
    ensures var k' := k.Requeue(budget).0;
      && Inv(k') && k'.phase.Initializing?
      && (Admissible(SnapshotOf(k'), limits, parse) <==> (
            && Fits(k', limits)
            && Repeatable(k.pending[id], budget.maxAttempts)
            && |OlderRepeatables(k, id, budget.maxAttempts)| < Room(budget.queueCapacity,
                |Without(k.queue, k.pending.Keys)|)))
  {
    var k' := k.Requeue(budget).0;
    RequeueKeeps(k, budget);
    SurvivalByRank(k, budget, id);
    var kept := RequeueParts(k, budget);
    assert InitializePending(k'.pending) <==> id in k'.pending by {
      assert forall x :: x in k'.pending && k'.pending[x].rpc.Initialize? ==> x in k.pending && x == k.seed.value.id;
    }
    PendingStaysSealed(k, Requeue(budget), parse);
    QueueStaysSealed(k, Requeue(budget), parse);
    SnapshotRoundTrip(k', limits, parse);
  }

  const SUPERVISED := ReplayBudget(1, 128)

  /** The initialize request of a cold session, dispatched for the n-th time under the supervisor's budget. */
  function Handshaking(id: RequestId, f: Frame, attempts: u8): State {
    State(Initializing, Some(Seed(id, f.payload, None)),
          map[id := PendingRequest(Initialize, 0, f, Convergent, ExecutionKnowledge.InFlight, attempts, None)], [], 1)
  }

  lemma {:induction false} LoneLoss(k: State, id: RequestId)
    requires Inv(k) && k.pending.Keys == {id} && k.queue == []
    ensures k.Requeue(SUPERVISED).0 == k.(
      pending := if Recoverable(k.pending[id], 1) then map[id := Scheduled(k.pending[id], 1)] else map[],
      queue := if Recoverable(k.pending[id], 1) then [k.pending[id].frame] else [])
  {
    assert Ascending([id], k.pending);
    InOrderIsUnique(Ordered(k.pending), [id], k.pending);
    var all := Recoverables([id], k.pending, 1);
    assert [id][1..] == [] && Recoverables([id][1..], k.pending, 1) == [];
    assert all == if Recoverable(k.pending[id], 1) then [id] else [];
    assert FramesOf([], k.pending) == [];
    assert FramesOf(all, k.pending) + [] == FramesOf(all, k.pending);
  }

  lemma {:induction false} FirstDispatched(id: RequestId, f: Frame) returns (ops: seq<Op>)
    requires f.envelope == Request(id, Initialize)
    ensures Run(ops) == Handshaking(id, f, 0)
    ensures forall i :: 0 <= i < |ops| ==> !ops[i].Requeue?
  {
    var seeded := State(Cold, Some(Seed(id, f.payload, None)), map[], [], 0);
    ops := [Observe(f)];
    assert ops[..0] == [] && Run([]) == ColdState && Run(ops) == seeded;
    ops := Further(ops, Begin(f, Convergent, 128), Handshaking(id, f, 0));
  }

  lemma {:induction false} AfterOneLoss(id: RequestId, f: Frame) returns (ops: seq<Op>)
    requires f.envelope == Request(id, Initialize)
    ensures Run(ops) == Handshaking(id, f, 1)
    ensures forall i :: 0 <= i < |ops| && ops[i].Requeue? ==> ops[i].budget == SUPERVISED
  {
    hide Run, Exec;
    ops := FirstDispatched(id, f);
    RunKeepsInvariant(ops);
    LossIsWaiting(id, f);
    WaitIsOver(id, f);
    ops := Further(ops, Requeue(SUPERVISED), Waiting(id, f));
    ops := Further(ops, Pop, Handshaking(id, f, 1));
  }

  function Waiting(id: RequestId, f: Frame): State {
    Handshaking(id, f, 0).(
      pending := map[id := PendingRequest(Initialize, 0, f, Convergent, OutcomeUnknown, 0,
          Some(RequestDisposition.Replay))], queue := [f])
  }

  lemma {:induction false} LossIsWaiting(id: RequestId, f: Frame)
    requires f.envelope == Request(id, Initialize) && Inv(Handshaking(id, f, 0))
    ensures Exec(Handshaking(id, f, 0), Requeue(SUPERVISED)) == Waiting(id, f)
  {
    hide Inv, State.Requeue;
    LoneLoss(Handshaking(id, f, 0), id);
  }

  lemma {:induction false} WaitIsOver(id: RequestId, f: Frame)
    requires f.envelope == Request(id, Initialize)
    ensures Exec(Waiting(id, f), Pop) == Handshaking(id, f, 1)
  {
  }

  lemma {:induction false} Further(ops: seq<Op>, op: Op, k: State) returns (more: seq<Op>)
    requires Exec(Run(ops), op) == k
    ensures more == ops + [op] && Run(more) == k
  {
    more := ops + [op];
    assert more[..|ops|] == ops;
  }

  /** Under the supervisor's own budget two losses during the handshake drop the initialize request. */
  lemma {:induction false} TwoLossesDropInitialize(id: RequestId, f: Frame) returns (ops: seq<Op>)
    requires f.envelope == Request(id, Initialize)
    ensures forall i :: 0 <= i < |ops| && ops[i].Requeue? ==> ops[i].budget == SUPERVISED
    ensures Run(ops).phase.Initializing? && Run(ops).pending == map[]
  {
    ops := AfterOneLoss(id, f);
    RunKeepsInvariant(ops);
    LoneLoss(Run(ops), id);
    ops := Further(ops, Requeue(SUPERVISED), Handshaking(id, f, 1).(pending := map[], queue := []));
  }

  /** An initializing session without its initialize request. */
  predicate Muted(k: State) {
    k.phase.Initializing? && !InitializePending(k.pending)
  }

  /** Everything but a first dispatch leaves pending only what was pending. */
  lemma {:induction false} PendingComesFrom(k: State, op: Op)
    requires Inv(k) && !op.Begin?
    ensures forall id :: id in Exec(k, op).pending ==>
        id in k.pending && Exec(k, op).pending[id].rpc == k.pending[id].rpc
  {
    hide Lane, Backlog, Sane, Identified;
    match op
    case Requeue(b) =>
      var kept := RequeueParts(k, b);
    case Pop =>
      if k.Pop().kernel != k {
        var ids, backlog :| Split(k, ids, backlog);
        PopShape(k, ids, backlog);
      }
    case Resolve(id, a, m) =>
      if k.Resolve(id, a, m).kernel != k {
        ResolveShape(k, id, a, m);
      }
    case _ =>
  }

  lemma {:induction false} BeginsNoInitialize(k: State, f: Frame, c: ReplayContract, n: nat)
    requires Muted(k)
    ensures Muted(k.Begin(f, c, n).kernel)
  {
    hide InitializePending;
    assert k.Begin(f, c, n).result.Ok? ==> !f.envelope.rpc.Initialize?;
    AddedIsNoInitialize(k, f, c, n);
  }

  lemma {:induction false} AddedIsNoInitialize(k: State, f: Frame, c: ReplayContract, n: nat)
    requires !InitializePending(k.pending)
    requires (k.Begin(f, c, n).result.Ok? ==> f.envelope.Request? && !f.envelope.rpc.Initialize?)
    ensures !InitializePending(k.Begin(f, c, n).kernel.pending)
  {
  }

  lemma {:induction false} MutedStays(k: State, op: Op)
    requires Inv(k) && Muted(k)
    ensures Muted(Exec(k, op))
  {
    if op.Begin? {
      BeginsNoInitialize(k, op.frame, op.contract, op.capacity);
    } else {
      PendingComesFrom(k, op);
      MutedPhase(k, op);
    }
  }

  lemma {:induction false} MutedPhase(k: State, op: Op)
    requires Muted(k) && !op.Begin?
    ensures Exec(k, op).phase.Initializing?
  {
  }

  /** A dropped initialize is the end of the session: no later operation, and in particular no second
      initialize, takes it any further. */
  lemma {:induction false} MutedForever(ops: seq<Op>, more: seq<Op>)
    requires Muted(Run(ops))
    ensures Muted(Run(ops + more))
    decreases |more|
  {
    if more == [] {
      assert ops + more == ops;
    } else {
      var front, last := more[..|more| - 1], more[|more| - 1];
      MutedForever(ops, front);
      RunKeepsInvariant(ops + front);
      MutedStays(Run(ops + front), last);
      var shorter := Further(ops + front, last, Exec(Run(ops + front), last));
      assert ops + more == (ops + front) + [last];
    }
  }
}
