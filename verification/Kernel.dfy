/** The continuity kernel as a value: its state, its transitions, and the global invariant that
    ties queue, pending map, execution knowledge and public initialization phase together.
    The class HostSessionKernel (module HostKernel) updates the same fields in place and is proved
    against these functions. */
module Kernel {
  import opened Wire
  import opened Replay

  datatype SessionPhase = Cold | Initializing | AwaitingInitialized | Live

  datatype Seed = Seed(id: RequestId, payload: Payload, notification: Option<Payload>)

  datatype HostRejection =
    | QueueOverflow
    | ReplayBudgetExhausted
    | DuplicateRequestId
    | PendingCapacityExhausted
    | InvalidRequestFrame
    | AmbiguousOutcome
    | RequestNotPending
    | InvalidExecutionState

  datatype PendingRequest = PendingRequest(
    rpc: Method,
    sequence: u64,
    frame: Frame,
    contract: ReplayContract,
    knowledge: ExecutionKnowledge,
    attempts: u8,
    scheduled: Option<RequestDisposition>)

  datatype DispatchOutcome =
    | Replayed(frame: Frame)
    | ClientFrame(frame: Frame)
    | HeldForProbe(id: RequestId)
    | Empty

  datatype ProbeOutcome = ProvedComplete(request: PendingRequest) | ReplayAuthorized(id: RequestId)

  datatype ReplayBudget = ReplayBudget(maxAttempts: u8, queueCapacity: nat)

  datatype RejectedReplay = RejectedReplay(id: RequestId, request: PendingRequest, nextAttempt: Option<u8>,
      reason: HostRejection)

  datatype RequeueOutcome = RequeueOutcome(rejected: seq<RejectedReplay>, held: seq<RequestId>)

  datatype Result<+T> = Ok(value: T) | Err(rejection: HostRejection)

  datatype Step<+T> = Step(kernel: State, result: Result<T>)

  type PendingMap = map<RequestId, PendingRequest>

  // ---------------------------------------------------------------- queues

  /** The queue without the requests whose id is in `ids`; everything else in order. */
  function Without(queue: seq<Frame>, ids: set<RequestId>): seq<Frame> {
    if queue == [] then []
    else if queue[0].envelope.Request? && queue[0].envelope.id in ids then Without(queue[1..], ids)
    else [queue[0]] + Without(queue[1..], ids)
  }

  /** The ids of the requests waiting in a queue. */
  function QueuedIds(queue: seq<Frame>): set<RequestId> {
    if queue == [] then {}
    else (if queue[0].envelope.Request? then {queue[0].envelope.id} else {}) + QueuedIds(queue[1..])
  }

  predicate NoRepeats(queue: seq<Frame>) {
    queue == [] ||
    ((queue[0].envelope.Request? ==> queue[0].envelope.id !in QueuedIds(queue[1..])) && NoRepeats(queue[1..]))
  }

  // ---------------------------------------------------------------- recovery order

  predicate AllIn(ids: seq<RequestId>, pending: PendingMap) {
    forall id :: id in ids ==> id in pending
  }

  predicate Older(id: RequestId, ids: seq<RequestId>, pending: PendingMap)
    requires id in pending && AllIn(ids, pending)
  {
    forall x :: x in ids ==> pending[id].sequence < pending[x].sequence
  }

  /** Pending ids, oldest sequence first. */
  predicate Ascending(ids: seq<RequestId>, pending: PendingMap)
    ensures Ascending(ids, pending) ==> AllIn(ids, pending)
  {
    ids == [] || (
      && ids[0] in pending
      && Ascending(ids[1..], pending)
      && Older(ids[0], ids[1..], pending))
  }

  ghost predicate InOrder(ids: seq<RequestId>, pending: PendingMap) {
    Ascending(ids, pending) && (forall id :: id in pending ==> id in ids)
  }

  lemma {:induction false} AscendingAppends(a: seq<RequestId>, b: seq<RequestId>, p: PendingMap)
    requires AllIn(a, p) && AllIn(b, p)
    ensures AllIn(a + b, p)
    ensures Ascending(a + b, p) <==> Ascending(a, p) && Ascending(b, p) && (forall x :: x in a ==> Older(x, b, p))
  {
    if a == [] {
      assert a + b == b;
    } else {
      assert AllIn(a[1..], p);
      AscendingAppends(a[1..], b, p);
      assert (a + b)[1..] == a[1..] + b;
      assert forall x :: x in a <==> x == a[0] || x in a[1..];
    }
  }

  lemma {:induction false} InOrderIsUnique(a: seq<RequestId>, b: seq<RequestId>, pending: PendingMap)
    requires Ascending(a, pending) && Ascending(b, pending)
    requires forall x :: x in a <==> x in b
    ensures a == b
  {
    assert b != [] ==> b[0] in b;
    if a == [] {
      assert b == [];
    } else {
      assert a[0] in b;
      assert b[0] in a;
      assert a[0] == b[0];
      forall x ensures x in a[1..] <==> x in b[1..] {
        assert x in a <==> x == a[0] || x in a[1..];
        assert x in b <==> x == b[0] || x in b[1..];
      }
      InOrderIsUnique(a[1..], b[1..], pending);
    }
  }

  predicate Twins(a: RequestId, b: RequestId, pending: PendingMap) {
    a in pending && b in pending && pending[a].sequence == pending[b].sequence
  }

  ghost predicate DistinctSequences(pending: PendingMap) {
    forall a, b :: Twins(a, b, pending) ==> a == b
  }

  /** Every pending map with distinct sequences has a recovery order. */
  lemma {:induction false} InOrderExists(pending: PendingMap)
    requires DistinctSequences(pending)
    ensures exists ids :: InOrder(ids, pending)
    decreases |pending|
  {
    if pending == map[] {
      assert InOrder([], pending);
    } else {
      var youngest := Youngest(pending);
      var rest := pending - {youngest};
      assert forall a, b :: Twins(a, b, rest) ==> Twins(a, b, pending);
      InOrderExists(rest);
      var ids :| InOrder(ids, rest);
      AscendingAgrees(ids, rest, pending);
      forall x | x in ids ensures Older(x, [youngest], pending) {
        assert x in rest && !Twins(x, youngest, pending);
      }
      AscendingAppends(ids, [youngest], pending);
      assert InOrder(ids + [youngest], pending);
    }
  }

  /** Recovery order only looks at sequence numbers. */
  lemma {:induction false} AscendingAgrees(ids: seq<RequestId>, p: PendingMap, q: PendingMap)
    requires Ascending(ids, p)
    requires forall id :: id in ids ==> id in q && q[id].sequence == p[id].sequence
    ensures Ascending(ids, q)
  {
    if ids != [] {
      AscendingAgrees(ids[1..], p, q);
    }
  }

  lemma {:induction false} Youngest(pending: PendingMap) returns (id: RequestId)
    requires pending != map[]
    ensures id in pending && forall x :: x in pending ==> pending[x].sequence <= pending[id].sequence
    decreases |pending|
  {
    var some :| some in pending;
    var rest := pending - {some};
    id := some;
    assert forall x :: x in pending ==> x == some || x in rest;
    if rest != map[] {
      var y := Youngest(rest);
      if pending[y].sequence > pending[some].sequence { id := y; }
    }
  }

  ghost function Ordered(pending: PendingMap): (ids: seq<RequestId>)
    requires DistinctSequences(pending)
    ensures InOrder(ids, pending)
  {
    InOrderExists(pending);
    var ids :| InOrder(ids, pending);
    ids
  }

  function Interrupted(r: PendingRequest): PendingRequest {
    r.(knowledge := AfterWorkerLoss(r.knowledge), scheduled := None)
  }

  /** The recovery decision for one invocation after a loss. */
  function Verdict(r: PendingRequest, max: u8): RequestDisposition {
    Disposition(AfterWorkerLoss(r.knowledge), r.contract, None, r.attempts, max)
  }

  predicate Recoverable(r: PendingRequest, max: u8) {
    var d := Verdict(r, max);
    d.Replay? || d.HoldForProbe?
  }

  function Reason(r: PendingRequest, max: u8): HostRejection {
    match Verdict(r, max)
    case RejectReplayExhausted => ReplayBudgetExhausted
    case RejectAmbiguousOutcome => AmbiguousOutcome
    case Replay => QueueOverflow
    case HoldForProbe => QueueOverflow
    case _ => InvalidExecutionState
  }

  function Recoverables(ids: seq<RequestId>, pending: PendingMap, max: u8): (all: seq<RequestId>)
    requires AllIn(ids, pending)
    ensures forall id :: id in all <==> id in ids && Recoverable(pending[id], max)
  {
    if ids == [] then []
    else
      assert AllIn(ids[1..], pending);
      var rest := Recoverables(ids[1..], pending, max);
      assert forall x :: x in ids <==> x == ids[0] || x in ids[1..];
      if Recoverable(pending[ids[0]], max) then [ids[0]] + rest else rest
  }

  /** Survivors are the oldest recoverable invocations that fit beside the client backlog. */
  function Survivors(ids: seq<RequestId>, pending: PendingMap, max: u8, room: nat): (kept: seq<RequestId>)
    requires AllIn(ids, pending)
    ensures forall id :: id in kept ==> id in ids && Recoverable(pending[id], max)
  {
    var all := Recoverables(ids, pending, max);
    assert |all| > room ==> forall id :: id in all[..room] ==> id in all;
    if |all| <= room then all else all[..room]
  }

  function Rejection(id: RequestId, r: PendingRequest, max: u8): RejectedReplay {
    RejectedReplay(id, Interrupted(r), NextAttempt(r.attempts, max), Reason(r, max))
  }

  function Rejections(ids: seq<RequestId>, pending: PendingMap, max: u8, kept: seq<RequestId>): seq<RejectedReplay>
    requires AllIn(ids, pending)
  {
    if ids == [] then []
    else
      assert AllIn(ids[1..], pending);
      (if ids[0] in kept then [] else [Rejection(ids[0], pending[ids[0]], max)])
          + Rejections(ids[1..], pending, max, kept)
  }

  function Held(ids: seq<RequestId>, pending: PendingMap, max: u8): seq<RequestId>
    requires AllIn(ids, pending)
  {
    if ids == [] then []
    else
      assert AllIn(ids[1..], pending);
      (if Verdict(pending[ids[0]], max).HoldForProbe? then [ids[0]] else []) + Held(ids[1..], pending, max)
  }

  function FramesOf(ids: seq<RequestId>, pending: PendingMap): (frames: seq<Frame>)
    requires AllIn(ids, pending)
    ensures |frames| == |ids|
  {
    if ids == [] then []
    else
      assert AllIn(ids[1..], pending);
      [pending[ids[0]].frame] + FramesOf(ids[1..], pending)
  }

  function Room(capacity: nat, backlog: nat): nat {
    if backlog <= capacity then capacity - backlog else 0
  }

  function Scheduled(r: PendingRequest, max: u8): PendingRequest {
    Interrupted(r).(scheduled := Some(Verdict(r, max)))
  }

  // ---------------------------------------------------------------- the kernel

  datatype State = State(
    phase: SessionPhase,
    seed: Option<Seed>,
    pending: PendingMap,
    queue: seq<Frame>,
    next: u64)
  {
    /** A client frame is observed before it is forwarded or queued. */
    function Observe(f: Frame): Step<()> {
      match f.envelope
      case Request(id, m) =>
        if !m.Initialize? then Step(this, Ok(()))
        else if !phase.Cold? || seed.Some? then Step(this, Err(InvalidExecutionState))
        else Step(this.(seed := Some(Seed(id, f.payload, None))), Ok(()))
      case Notification(m) =>
        if !IsInitializedNotification(m) then Step(this, Ok(()))
        else if !phase.AwaitingInitialized? || seed.None? then Step(this, Err(InvalidExecutionState))
        else Step(this.(seed := Some(seed.value.(notification := Some(f.payload))), phase := Live), Ok(()))
      case Response(_, _) => Step(this, Ok(()))
    }

    function Enqueue(f: Frame, capacity: nat): Step<()> {
      if |queue| >= capacity then Step(this, Err(QueueOverflow))
      else if f.envelope.Request? && (f.envelope.id in pending || f.envelope.id in QueuedIds(queue)) then
        Step(this, Err(DuplicateRequestId))
      else Step(this.(queue := queue + [f]), Ok(()))
    }

    /** The next queue entry in recovery order. At attempt 255 the knowledge has already moved
        to in-flight when the counter refuses, so that error is not free of effects. */
    function Pop(): Step<DispatchOutcome> {
      if queue == [] then Step(this, Ok(Empty))
      else if !(queue[0].envelope.Request? && queue[0].envelope.id in pending) then
        Step(this.(queue := queue[1..]), Ok(ClientFrame(queue[0])))
      else
        var id := queue[0].envelope.id;
        var r := pending[id];
        match r.scheduled
        case Some(HoldForProbe) => Step(this, Ok(DispatchOutcome.HeldForProbe(id)))
        case Some(Replay) => (
          match AfterDispatch(r.knowledge, Replay)
          case None => Step(this, Err(InvalidExecutionState))
          case Some(k) =>
            if r.attempts == 255 then
              Step(this.(pending := pending[id := r.(knowledge := k)]), Err(ReplayBudgetExhausted))
            else
              Step(this.(pending := pending[id := r.(knowledge := k, attempts := r.attempts + 1, scheduled := None)],
                         queue := queue[1..]),
                   Ok(Replayed(queue[0]))))
        case _ => Step(this, Err(InvalidExecutionState))
    }

    predicate HasInFlight() {
      exists id :: id in pending && pending[id].scheduled.None?
    }

    /** Why a routed frame may not begin its first dispatch, checked in this order. */
    function BeginRefusal(f: Frame, capacity: nat): Option<HostRejection> {
      if !f.envelope.Request? then Some(InvalidRequestFrame)
      else if f.envelope.id in pending || f.envelope.id in QueuedIds(queue) then Some(DuplicateRequestId)
      else if |pending| >= capacity then Some(PendingCapacityExhausted)
      else if next == 0xFFFF_FFFF_FFFF_FFFF then Some(InvalidExecutionState)
      else if !f.envelope.rpc.Initialize? then None
      else if !phase.Cold? then Some(InvalidExecutionState)
      else if seed.Some? && !(seed.value.id == f.envelope.id && seed.value.payload == f.payload) then
          Some(InvalidExecutionState)
      else None
    }

    function Admitted(f: Frame, contract: ReplayContract): State
      requires f.envelope.Request? && next < 0xFFFF_FFFF_FFFF_FFFF
    {
      var initialize := f.envelope.rpc.Initialize?;
      State(
        if initialize then Initializing else phase,
        if initialize && seed.None? then Some(Seed(f.envelope.id, f.payload, None)) else seed,
        pending[f.envelope.id := PendingRequest(f.envelope.rpc, next, f, contract, ExecutionKnowledge.InFlight, 0,
            None)],
        queue,
        next + 1)
    }

    /** First dispatch of a routed client request. */
    function Begin(f: Frame, contract: ReplayContract, capacity: nat): Step<RequestId> {
      match BeginRefusal(f, capacity)
      case Some(reason) => Step(this, Err(reason))
      case None => Step(Admitted(f, contract), Ok(f.envelope.id))
    }

    /** One exact terminal response. */
    function Complete(f: Frame): Step<PendingRequest> {
      if !f.envelope.Response? then Step(this, Err(InvalidRequestFrame))
      else if f.envelope.id !in pending then Step(this, Err(RequestNotPending))
      else
        var id := f.envelope.id;
        var r := pending[id];
        match AfterTerminalOutcome(r.knowledge)
        case None => Step(this, Err(InvalidExecutionState))
        case Some(k) =>
          if r.rpc.Initialize? && !phase.Initializing? then Step(this, Err(InvalidExecutionState))
          else
            var settled := if !r.rpc.Initialize? then this
                           else if f.envelope.hasError then this.(phase := Cold, seed := None)
                           else this.(phase := AwaitingInitialized);
            Step(settled.(pending := pending - {id}, queue := Without(queue, {id})), Ok(r.(knowledge := k)))
    }

    /** Recovery after a worker loss, in closed form over the pending ids in order. */
    function RequeueOrdered(ids: seq<RequestId>, budget: ReplayBudget): (State, RequeueOutcome)
      requires AllIn(ids, pending)
    {
      var backlog := Without(queue, pending.Keys);
      var kept := Survivors(ids, pending, budget.maxAttempts, Room(budget.queueCapacity, |backlog|));
      (this.(pending := map id | id in pending && id in kept :: Scheduled(pending[id], budget.maxAttempts),
             queue := FramesOf(kept, pending) + backlog),
       RequeueOutcome(Rejections(ids, pending, budget.maxAttempts, kept),
                      Held(kept, pending, budget.maxAttempts)))
    }

    ghost function Requeue(budget: ReplayBudget): (State, RequeueOutcome)
      requires DistinctSequences(pending)
    {
      RequeueOrdered(Ordered(pending), budget)
    }

    /** Consumer evidence about a held invocation. */
    function Resolve(id: RequestId, answer: ProbeResolution, max: u8): Step<ProbeOutcome> {
      if id !in pending then Step(this, Err(RequestNotPending))
      else if pending[id].scheduled != Some(RequestDisposition.HoldForProbe) then Step(this, Err(InvalidExecutionState))
      else
        var r := pending[id];
        match Disposition(r.knowledge, r.contract, Some(answer), r.attempts, max)
        case Replay =>
          Step(this.(pending := pending[id := r.(scheduled := Some(Replay))]), Ok(ReplayAuthorized(id)))
        case CompleteFromProbe => (
          match AfterCompletedProbe(r.knowledge)
          case None => Step(this, Err(InvalidExecutionState))
          case Some(k) =>
            Step(this.(pending := pending - {id}, queue := Without(queue, {id})),
                Ok(ProvedComplete(r.(knowledge := k)))))
        case RejectReplayExhausted =>
          Step(this.(pending := pending - {id}, queue := Without(queue, {id})), Err(ReplayBudgetExhausted))
        case _ => Step(this, Err(InvalidExecutionState))
    }

    function ReplaySeed(): Result<Option<Seed>> {
      match phase
      case Cold => Ok(None)
      case Initializing => Ok(None)
      case AwaitingInitialized =>
        if seed.Some? && seed.value.notification.None? then Ok(seed) else Err(InvalidExecutionState)
      case Live =>
        if seed.Some? && seed.value.notification.Some? then Ok(seed) else Err(InvalidExecutionState)
    }
  }

  // ---------------------------------------------------------------- the global invariant

  /** Execution knowledge, contract and scheduled disposition agree. */
  predicate ValidSchedule(r: PendingRequest) {
    match r.scheduled
    case None => r.knowledge.InFlight? || r.knowledge.OutcomeUnknown?
    case Some(Replay) => r.knowledge.OutcomeUnknown? && !r.contract.NeverReplay?
    case Some(HoldForProbe) => r.knowledge.OutcomeUnknown? && r.contract.ProbeRequired?
    case _ => false
  }

  predicate Replayable(r: PendingRequest) {
    r.scheduled == Some(RequestDisposition.Replay) ==> r.attempts < 255
  }

  predicate Sane(id: RequestId, r: PendingRequest, next: u64) {
    && r.frame.envelope == Request(id, r.rpc)
    && r.sequence < next
    && ValidSchedule(r)
    && Replayable(r)
  }

  ghost predicate Identified(k: State) {
    forall id :: id in k.pending ==> Sane(id, k.pending[id], k.next)
  }

  /** The recovery lane: exactly the scheduled invocations, oldest first. */
  ghost predicate Lane(ids: seq<RequestId>, pending: PendingMap) {
    && Ascending(ids, pending)
    && (forall id :: id in pending ==> (pending[id].scheduled.Some? <==> id in ids))
  }

  /** Client frames waiting for a worker: distinct ids, none of them pending. */
  ghost predicate Backlog(frames: seq<Frame>, pending: PendingMap) {
    NoRepeats(frames) && QueuedIds(frames) !! pending.Keys
  }

  /** The queue is the recovery lane, in order, followed by client backlog. */
  ghost predicate Split(k: State, ids: seq<RequestId>, backlog: seq<Frame>) {
    Lane(ids, k.pending) && Backlog(backlog, k.pending) && k.queue == FramesOf(ids, k.pending) + backlog
  }

  ghost predicate SessionAgrees(k: State) {
    && (match k.phase
        case Cold => k.seed.Some? ==> k.seed.value.notification.None?
        case Initializing => k.seed.Some? && k.seed.value.notification.None?
        case AwaitingInitialized => k.seed.Some? && k.seed.value.notification.None?
        case Live => k.seed.Some? && k.seed.value.notification.Some?)
    && (forall id :: id in k.pending && k.pending[id].rpc.Initialize? ==>
         k.phase.Initializing? && id == k.seed.value.id && k.pending[id].frame.payload == k.seed.value.payload)
  }

  ghost predicate Inv(k: State) {
    && Identified(k)
    && DistinctSequences(k.pending)
    && (exists ids, backlog :: Split(k, ids, backlog))
    && SessionAgrees(k)
  }

  /** In kernels built by transitions alone, an unscheduled invocation is in flight. */
  ghost predicate Settled(k: State) {
    forall id :: id in k.pending && k.pending[id].scheduled.None? ==> k.pending[id].knowledge.InFlight?
  }
}
