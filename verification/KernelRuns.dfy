/** Whole runs of the kernel. Every run, from the cold kernel and under any sequence of
    operations and arguments, is accepted by the abstract continuity machine; the laws proved in
    module Continuity therefore hold of every run. */
module KernelRuns {
  import opened Wire
  import opened Replay
  import opened Kernel
  import opened KernelInvariant
  import opened KernelSteps
  import C = Continuity

  datatype Op =
    | Observe(frame: Frame)
    | Enqueue(frame: Frame, capacity: nat)
    | Pop
    | Begin(frame: Frame, contract: ReplayContract, capacity: nat)
    | Complete(frame: Frame)
    | Requeue(budget: ReplayBudget)
    | Resolve(id: RequestId, answer: ProbeResolution, max: u8)

  function WhyRefused(r: RejectedReplay, budget: nat): C.Refusal {
    match r.reason
    case AmbiguousOutcome => C.Ambiguous
    case ReplayBudgetExhausted => C.Exhausted(budget)
    case _ => C.Overflow
  }

  function Refusals(rejected: seq<RejectedReplay>, budget: nat): seq<C.Action> {
    if rejected == [] then []
    else [C.Refuse(rejected[0].request.sequence, WhyRefused(rejected[0], budget))] + Refusals(rejected[1..], budget)
  }

  /** One operation. Recovery sorts by sequence number, which every kernel of a run allows. */
  ghost function Exec(k: State, op: Op): State {
    match op
    case Observe(f) => k.Observe(f).kernel
    case Enqueue(f, c) => k.Enqueue(f, c).kernel
    case Pop => k.Pop().kernel
    case Begin(f, c, n) => k.Begin(f, c, n).kernel
    case Complete(f) => k.Complete(f).kernel
    case Requeue(b) => if DistinctSequences(k.pending) then k.Requeue(b).0 else k
    case Resolve(id, a, m) => k.Resolve(id, a, m).kernel
  }

  lemma {:induction false} ExecKeeps(k: State, op: Op)
    requires Inv(k)
    ensures Inv(Exec(k, op))
  {
    match op
    case Observe(f) => ObserveKeeps(k, f);
    case Enqueue(f, c) => EnqueueKeeps(k, f, c);
    case Pop => PopKeeps(k);
    case Begin(f, c, n) => BeginKeeps(k, f, c, n);
    case Complete(f) => CompleteKeeps(k, f);
    case Requeue(b) => RequeueKeeps(k, b);
    case Resolve(id, a, m) => ResolveKeeps(k, id, a, m);
  }

  /** The actions of the abstract machine that one operation performs. What a probe answer stands for is
      read off the answer itself. */
  ghost function Emits(k: State, op: Op): seq<C.Action> {
    match op
    case Observe(_) => []
    case Enqueue(_, _) => []
    case Pop => (
      match k.Pop().result
      case Ok(Replayed(f)) =>
        if f.envelope.Request? && f.envelope.id in k.pending then
            [C.Redispatch(k.pending[f.envelope.id].sequence)] else []
      case Ok(ClientFrame(_)) => [C.HandOut]
      case _ => [])
    case Begin(f, c, n) => if k.Begin(f, c, n).result.Ok? then [C.Dispatch(k.next, c)] else []
    case Complete(f) => (
      match k.Complete(f).result
      case Ok(r) => [C.Answer(r.sequence)]
      case Err(_) => [])
    case Requeue(b) =>
      if DistinctSequences(k.pending) then
          [C.LoseWorker(b.maxAttempts)] + Refusals(k.Requeue(b).1.rejected, b.maxAttempts) else []
    case Resolve(id, answer, m) =>
      if id !in k.pending || k.pending[id].scheduled != Some(HoldForProbe) then []
      else match answer
        case AlreadyCompleted => [C.ProbeCompleted(k.pending[id].sequence)]
        case SafeToReplay =>
          [if k.pending[id].attempts < m then C.ProbeSafe(k.pending[id].sequence, m)
           else C.Refuse(k.pending[id].sequence, C.Exhausted(m))]
  }

  // ---------------------------------------------------------------- the simulation relation

  function StatusOf(r: PendingRequest): C.Status {
    match r.scheduled
    case None => C.Live(r.contract, r.attempts + 1)
    case Some(Replay) => if r.contract.ProbeRequired? then
        C.Cleared(r.attempts + 1) else C.Unknown(r.contract, r.attempts + 1)
    case Some(_) => C.Unknown(r.contract, r.attempts + 1)
  }

  ghost predicate Owned(s: nat, pending: PendingMap) {
    exists id :: id in pending && pending[id].sequence == s
  }

  predicate Affordable(r: PendingRequest, budget: nat) {
    r.scheduled == Some(RequestDisposition.Replay) && r.contract.Convergent? ==> r.attempts + 1 <= budget
  }

  predicate Tracks(r: PendingRequest, law: C.Law) {
    r.sequence < |law.status| && law.status[r.sequence] == StatusOf(r) && Affordable(r, law.budget)
  }

  /** Sequence numbers ever issued are exactly the statuses; a pending invocation has the status of
      its record, and an invocation that is no longer pending has ended. */
  ghost predicate Simulates(k: State, law: C.Law) {
    && |law.status| == k.next
    && (forall id :: id in k.pending ==> Tracks(k.pending[id], law))
    && (forall s: nat :: s < |law.status| && !law.status[s].Done? ==> Owned(s, k.pending))
  }

  /** One operation keeps the simulation, and the abstract machine accepts what it emits. */
  ghost predicate Refines(k: State, law: C.Law, op: Op) {
    C.Accepts(law, Emits(k, op)) && Simulates(Exec(k, op), C.After(law, Emits(k, op)))
  }

  lemma {:induction false} SingleAction(law: C.Law, a: C.Action)
    requires law.Permits(a)
    ensures C.Accepts(law, [a]) && C.After(law, [a]) == law.Apply(a)
  {
    hide C.Law.Permits, C.Law.Apply;
    assert C.Accepts(law, []) && C.After(law, []) == law;
    assert [a][..|[a]| - 1] == [];
  }

  lemma {:induction false} AdmissionSimulates(k: State, law: C.Law, f: Frame, c: ReplayContract)
    requires Simulates(k, law) && f.envelope.Request? && k.next < 0xFFFF_FFFF_FFFF_FFFF
    requires f.envelope.id !in k.pending
    ensures law.Permits(C.Dispatch(k.next, c)) && Simulates(k.Admitted(f, c), law.Apply(C.Dispatch(k.next, c)))
  {
    var k', law' := k.Admitted(f, c), law.Apply(C.Dispatch(k.next, c));
    AdmittedIsOwned(k, f, c);
    forall id | id in k'.pending ensures Tracks(k'.pending[id], law') {
      assert id != f.envelope.id ==> k'.pending[id] == k.pending[id] && Tracks(k.pending[id], law);
    }
    hide State.Admitted, Tracks;
    assert forall s: nat :: s < |law.status| && !law.status[s].Done? ==> Owned(s, k.pending);
  }

  /** An admission takes the next number, and leaves every other where it was. */
  lemma {:induction false} AdmittedIsOwned(k: State, f: Frame, c: ReplayContract)
    requires f.envelope.Request? && k.next < 0xFFFF_FFFF_FFFF_FFFF && f.envelope.id !in k.pending
    ensures Owned(k.next, k.Admitted(f, c).pending)
    ensures forall s :: Owned(s, k.pending) ==> Owned(s, k.Admitted(f, c).pending)
  {
    var more := k.Admitted(f, c).pending;
    assert f.envelope.id in more;
    forall s | Owned(s, k.pending) ensures Owned(s, more) {
      var id :| id in k.pending && k.pending[id].sequence == s;
      assert id in more;
    }
  }

  lemma {:induction false} ObserveSimulates(k: State, law: C.Law, f: Frame)
    requires DistinctSequences(k.pending) && Simulates(k, law)
    ensures Refines(k, law, Observe(f))
  {
  }

  lemma {:induction false} EnqueueSimulates(k: State, law: C.Law, f: Frame, capacity: nat)
    requires DistinctSequences(k.pending) && Simulates(k, law)
    ensures Refines(k, law, Enqueue(f, capacity))
  {
  }

  lemma {:induction false} BeginSimulates(k: State, law: C.Law, f: Frame, c: ReplayContract, capacity: nat)
    requires DistinctSequences(k.pending) && Simulates(k, law)
    ensures Refines(k, law, Begin(f, c, capacity))
  {
    if k.BeginRefusal(f, capacity).None? {
      AdmissionSimulates(k, law, f, c);
      SingleAction(law, C.Dispatch(k.next, c));
    }
  }

  /** One invocation changes its record and its status together; all others are untouched. */
  lemma {:induction false} UpdateSimulates(k: State, law: C.Law, k': State, law': C.Law, id: RequestId)
    requires DistinctSequences(k.pending) && Simulates(k, law) && id in k.pending && k'.next == k.next
    requires |law'.status| == |law.status| && law'.budget == law.budget
    requires forall s :: 0 <= s < |law.status| && s != k.pending[id].sequence ==> law'.status[s] == law.status[s]
    requires forall x :: x != id ==>
        (x in k.pending <==> x in k'.pending) && (x in k.pending ==> k.pending[x] == k'.pending[x])
    requires if id in k'.pending then k'.pending[id].sequence == k.pending[id].sequence && Tracks(k'.pending[id], law')
             else law'.status[k.pending[id].sequence].Done?
    ensures Simulates(k', law')
  {
    forall x | x in k'.pending && x != id ensures Tracks(k'.pending[x], law') {
      assert !Twins(x, id, k.pending);
      assert Tracks(k.pending[x], law);
    }
    forall s: nat | s < |law'.status| && !law'.status[s].Done? ensures Owned(s, k'.pending) {
      if s == k.pending[id].sequence {
        assert id in k'.pending;
      } else {
        assert Owned(s, k.pending);
        var x :| x in k.pending && k.pending[x].sequence == s;
        assert x in k'.pending;
      }
    }
  }

  /** A waiting status belongs to an invocation of the recovery lane. */
  lemma {:induction false} WaitingIsInLane(k: State, law: C.Law, ids: seq<RequestId>, backlog: seq<Frame>, t: nat)
    requires Simulates(k, law) && Split(k, ids, backlog) && t < |law.status| && C.Waiting(law.status[t])
    ensures exists id :: id in ids && id in k.pending && k.pending[id].sequence == t
  {
    assert Owned(t, k.pending);
    var id :| id in k.pending && k.pending[id].sequence == t;
    assert Tracks(k.pending[id], law);
  }

  lemma {:induction false} HandOutSimulates(k: State, law: C.Law, backlog: seq<Frame>)
    requires Simulates(k, law) && Split(k, [], backlog)
    ensures law.Permits(C.HandOut)
  {
    forall t | 0 <= t < |law.status| ensures !C.Waiting(law.status[t]) {
      if C.Waiting(law.status[t]) {
        WaitingIsInLane(k, law, [], backlog, t);
        assert false;
      }
    }
  }

  lemma {:induction false} HeadIsOldest(ids: seq<RequestId>, p: PendingMap)
    requires Ascending(ids, p) && ids != []
    ensures forall id :: id in ids ==> p[id].sequence >= p[ids[0]].sequence
  {
    assert forall id :: id in ids ==> id == ids[0] || id in ids[1..];
  }

  lemma {:induction false} RedispatchIsPermitted(k: State, law: C.Law, ids: seq<RequestId>, backlog: seq<Frame>)
    requires Identified(k) && Simulates(k, law) && Split(k, ids, backlog) && ids != []
    requires ids[0] in k.pending && k.pending[ids[0]].attempts < 255
    requires k.pending[ids[0]].scheduled == Some(RequestDisposition.Replay)
    ensures law.Permits(C.Redispatch(k.pending[ids[0]].sequence))
  {
    HeadIsOldest(ids, k.pending);
    assert Sane(ids[0], k.pending[ids[0]], k.next) && Tracks(k.pending[ids[0]], law);
    hide Simulates, Sane, Identified;
    forall t | 0 <= t < k.pending[ids[0]].sequence ensures !C.Waiting(law.status[t]) {
      if C.Waiting(law.status[t]) {
        WaitingIsInLane(k, law, ids, backlog, t);
        assert false;
      }
    }
  }

  lemma {:induction false} ReplaySimulates(k: State, law: C.Law, ids: seq<RequestId>, backlog: seq<Frame>)
    requires Identified(k) && DistinctSequences(k.pending) && Simulates(k, law) && Split(k, ids, backlog) && ids != []
    requires k.queue != []
    requires ids[0] in k.pending && k.pending[ids[0]].attempts < 255
    requires k.pending[ids[0]].scheduled == Some(RequestDisposition.Replay)
    ensures law.Permits(C.Redispatch(k.pending[ids[0]].sequence))
    ensures Simulates(Replaying(k, ids[0]), law.Apply(C.Redispatch(k.pending[ids[0]].sequence)))
  {
    RedispatchIsPermitted(k, law, ids, backlog);
    assert Sane(ids[0], k.pending[ids[0]], k.next) && Tracks(k.pending[ids[0]], law);
    hide Split, Lane, Backlog, Identified, Simulates, DistinctSequences;
    UpdateSimulates(k, law, Replaying(k, ids[0]), law.Apply(C.Redispatch(k.pending[ids[0]].sequence)), ids[0]);
  }

  lemma {:induction false} PopHandsOut(k: State, law: C.Law, backlog: seq<Frame>)
    requires DistinctSequences(k.pending) && Simulates(k, law) && Split(k, [], backlog) && k.queue != []
    requires k.Pop() == Step(k.(queue := k.queue[1..]), Ok(ClientFrame(k.queue[0])))
    ensures Refines(k, law, Pop)
  {
    HandOutSimulates(k, law, backlog);
    SingleAction(law, C.HandOut);
  }

  lemma {:induction false} PopReplays(k: State, law: C.Law, ids: seq<RequestId>, backlog: seq<Frame>)
    requires Identified(k) && DistinctSequences(k.pending) && Simulates(k, law) && Split(k, ids, backlog) && ids != []
    requires k.queue != []
    requires ids[0] in k.pending && k.pending[ids[0]].attempts < 255
    requires k.pending[ids[0]].scheduled == Some(RequestDisposition.Replay)
    requires k.Pop() == Step(Replaying(k, ids[0]), Ok(Replayed(k.queue[0])))
    ensures Refines(k, law, Pop)
  {
    hide Simulates, Split, Identified, DistinctSequences, Replaying;
    HeadOfQueue(k, ids, backlog);
    ReplaySimulates(k, law, ids, backlog);
    SingleAction(law, C.Redispatch(k.pending[ids[0]].sequence));
  }

  lemma {:induction false} PopSimulates(k: State, law: C.Law)
    requires Inv(k) && Simulates(k, law)
    ensures Refines(k, law, Pop)
  {
    hide Simulates, Split;
    var ids, backlog :| Split(k, ids, backlog);
    if k.Pop().kernel == k {
      PopNeverErrs(k);
    } else {
      PopShape(k, ids, backlog);
      if ids == [] {
        PopHandsOut(k, law, backlog);
      } else {
        PopReplays(k, law, ids, backlog);
      }
    }
  }

  lemma {:induction false} CompleteSimulates(k: State, law: C.Law, f: Frame)
    requires DistinctSequences(k.pending) && Simulates(k, law)
    ensures Refines(k, law, Complete(f))
  {
    if k.Complete(f).result.Ok? {
      var id := f.envelope.id;
      var a := C.Answer(k.pending[id].sequence);
      assert Tracks(k.pending[id], law);
      SingleAction(law, a);
      UpdateSimulates(k, law, k.Complete(f).kernel, law.Apply(a), id);
      assert Emits(k, Complete(f)) == [a];
    }
  }

  lemma {:induction false} ResolveSimulates(k: State, law: C.Law, id: RequestId, answer: ProbeResolution, m: u8)
    requires Inv(k) && Simulates(k, law)
    ensures Refines(k, law, Resolve(id, answer, m))
  {
    hide State.Resolve, C.Law.Apply, C.Law.Permits;
    EvidenceIsExact(k, id, answer, m);
    var acts := Emits(k, Resolve(id, answer, m));
    if acts != [] {
      assert Sane(id, k.pending[id], k.next) && Tracks(k.pending[id], law);
      ResolvedSimulates(k, law, k.Resolve(id, answer, m).kernel, acts[0], id, m);
      assert acts == [acts[0]];
      SingleAction(law, acts[0]);
    }
  }

  lemma {:induction false} ResolvedSimulates(k: State, law: C.Law, k': State, a: C.Action, id: RequestId, m: u8)
    requires DistinctSequences(k.pending) && Simulates(k, law) && id in k.pending && Sane(id, k.pending[id], k.next)
    requires k.pending[id].scheduled == Some(RequestDisposition.HoldForProbe) && Tracks(k.pending[id], law)
    requires || (a == C.ProbeSafe(k.pending[id].sequence, m) && k' == Authorised(k, id) && k.pending[id].attempts < m)
             || (a == C.ProbeCompleted(k.pending[id].sequence) && k' == Removed(k, id))
             || (a == C.Refuse(k.pending[id].sequence, C.Exhausted(m)) && k' == Removed(k, id) &&
                 k.pending[id].attempts + 1 > m)
    ensures law.Permits(a) && Simulates(k', law.Apply(a))
  {
    UpdateSimulates(k, law, k', law.Apply(a), id);
  }

  // ---------------------------------------------------------------- a worker loss

  predicate Interrupts(r: PendingRequest, law: C.Law) {
    r.sequence < |law.status| && law.status[r.sequence] == C.Unknown(r.contract, r.attempts + 1)
  }

  predicate Ended(r: PendingRequest, law: C.Law) {
    r.sequence < |law.status| && law.status[r.sequence].Done?
  }

  lemma {:induction false} RefusalIsPermitted(x: PendingRequest, law: C.Law, r: RejectedReplay, max: u8)
    requires Interrupts(x, law) && ValidSchedule(x) && r.request.sequence == x.sequence && r.reason == Reason(x, max)
    ensures law.Permits(C.Refuse(r.request.sequence, WhyRefused(r, max)))
  {
  }

  ghost predicate Numbered(ids: seq<RequestId>, p: PendingMap, s: nat)
    requires AllIn(ids, p)
  {
    exists id :: id in ids && p[id].sequence == s
  }

  /** Of these invocations the kept ones are still interrupted and the others have ended; what had
      ended has, and no other status has changed. */
  ghost predicate Settles(ids: seq<RequestId>, p: PendingMap, kept: seq<RequestId>, law: C.Law, law': C.Law)
    requires AllIn(ids, p)
  {
    && |law'.status| == |law.status| && law'.budget == law.budget
    && (forall id :: id in ids ==> if id in kept then Interrupts(p[id], law') else Ended(p[id], law'))
    && (forall s: nat :: s < |law.status| && law.status[s].Done? ==> law'.status[s].Done?)
    && (forall s: nat :: s < |law.status| && !Numbered(ids, p, s) ==> law'.status[s] == law.status[s])
  }

  /** The first of them is kept, or refused, and the others follow. */
  lemma {:induction false} HeadSettles(ids: seq<RequestId>, p: PendingMap, kept: seq<RequestId>, law: C.Law,
      law1: C.Law, law': C.Law)
    requires Ascending(ids, p) && ids != [] && AllIn(ids[1..], p) && Interrupts(p[ids[0]], law)
    requires Settles(ids[1..], p, kept, law1, law')
    requires if ids[0] in kept then law1 == law
             else (
               && law1.budget == law.budget && |law1.status| == |law.status| && law1.status[p[ids[0]].sequence].Done?
               && (forall s: nat :: s < |law.status| && s != p[ids[0]].sequence ==> law1.status[s] == law.status[s]))
    ensures Settles(ids, p, kept, law, law')
  {
    assert forall x :: x in ids <==> x == ids[0] || x in ids[1..];
    assert !Numbered(ids[1..], p, p[ids[0]].sequence);
    assert forall s: nat :: Numbered(ids[1..], p, s) || s == p[ids[0]].sequence ==> Numbered(ids, p, s);
  }

  /** Refusing the rejected invocations, oldest first, ends exactly those. */
  lemma {:induction false} RefusalsEnd(ids: seq<RequestId>, p: PendingMap, max: u8, kept: seq<RequestId>,
      law: C.Law) returns (law': C.Law)
    requires Ascending(ids, p)
    requires forall id :: id in ids ==> Interrupts(p[id], law) && ValidSchedule(p[id])
    ensures C.Accepts(law, Refusals(Rejections(ids, p, max, kept), max))
    ensures law' == C.After(law, Refusals(Rejections(ids, p, max, kept), max))
    ensures Settles(ids, p, kept, law, law')
    decreases |ids|
  {
    law' := law;
    if ids != [] {
      var id, law1 := ids[0], law;
      var rest := Rejections(ids[1..], p, max, kept);
      assert forall x :: x in ids[1..] ==> x in ids && p[x].sequence != p[id].sequence;
      if id in kept {
        assert Rejections(ids, p, max, kept) == rest;
        law' := RefusalsEnd(ids[1..], p, max, kept, law);
      } else {
        var r := Rejection(id, p[id], max);
        assert Rejections(ids, p, max, kept) == [r] + rest;
        law1 := RefuseFirst(r, p[id], rest, law, max);
        law' := RefusalsEnd(ids[1..], p, max, kept, law1);
        C.AcceptsExtends(law, [C.Refuse(r.request.sequence, WhyRefused(r, max))], Refusals(rest, max));
      }
      HeadSettles(ids, p, kept, law, law1, law');
    }
  }

  lemma {:induction false} RefuseFirst(r: RejectedReplay, x: PendingRequest, rest: seq<RejectedReplay>, law: C.Law,
      max: u8) returns (law1: C.Law)
    requires Interrupts(x, law) && ValidSchedule(x) && r.request.sequence == x.sequence && r.reason == Reason(x, max)
    ensures var a := C.Refuse(r.request.sequence, WhyRefused(r, max));
      && C.Accepts(law, [a]) && law1 == C.After(law, [a]) && Refusals([r] + rest, max) == [a] + Refusals(rest, max)
    ensures law1.budget == law.budget && |law1.status| == |law.status| && law1.status[x.sequence].Done?
    ensures forall s: nat :: s < |law.status| && s != x.sequence ==> law1.status[s] == law.status[s]
  {
    var a := C.Refuse(r.request.sequence, WhyRefused(r, max));
    assert ([r] + rest)[1..] == rest;
    RefusalIsPermitted(x, law, r, max);
    SingleAction(law, a);
    law1 := law.Apply(a);
  }

  lemma {:induction false} LossInterrupts(k: State, law: C.Law, budget: nat)
    requires Identified(k) && Simulates(k, law)
    ensures forall id :: id in k.pending ==> Interrupts(k.pending[id], law.Apply(C.LoseWorker(budget)))
  {
    forall id | id in k.pending
      ensures Interrupts(k.pending[id], law.Apply(C.LoseWorker(budget)))
    {
      assert Sane(id, k.pending[id], k.next) && Tracks(k.pending[id], law);
    }
  }

  /** The abstract state after a loss: survivors are still interrupted, everything else has ended. */
  ghost predicate Aftermath(k: State, kept: seq<RequestId>, law: C.Law) {
    && |law.status| == k.next
    && (forall id :: id in k.pending ==> if id in kept then
        Interrupts(k.pending[id], law) else Ended(k.pending[id], law))
    && (forall s: nat :: s < |law.status| && !law.status[s].Done? ==> Owned(s, k.pending))
  }

  lemma {:induction false} LossAccepted(k: State, law: C.Law, order: seq<RequestId>, max: u8,
      kept: seq<RequestId>) returns (law': C.Law)
    requires Identified(k) && Simulates(k, law) && InOrder(order, k.pending)
    ensures var acts := [C.LoseWorker(max)] + Refusals(Rejections(order, k.pending, max, kept), max);
      C.Accepts(law, acts) && law' == C.After(law, acts)
    ensures Aftermath(k, kept, law') && law'.budget == max
  {
    var law1 := law.Apply(C.LoseWorker(max));
    LossInterrupts(k, law, max);
    SingleAction(law, C.LoseWorker(max));
    assert forall id :: id in order ==> Sane(id, k.pending[id], k.next);
    law' := RefusalsEnd(order, k.pending, max, kept, law1);
    C.AcceptsExtends(law, [C.LoseWorker(max)], Refusals(Rejections(order, k.pending, max, kept), max));
    forall s: nat | s < |law'.status| && !law'.status[s].Done? ensures Owned(s, k.pending) {
      assert !law1.status[s].Done?;
      assert !law.status[s].Done?;
    }
  }

  lemma {:induction false} SurvivorsSimulate(k: State, k': State, kept: seq<RequestId>, max: u8, law: C.Law)
    requires Identified(k) && Aftermath(k, kept, law) && law.budget == max && k'.next == k.next
    requires AllIn(kept, k.pending) && k'.pending == map id | id in k.pending && id in kept ::
        Scheduled(k.pending[id], max)
    requires forall id :: id in kept ==> Recoverable(k.pending[id], max)
    ensures Simulates(k', law)
  {
    forall id | id in k'.pending ensures Tracks(k'.pending[id], law) {
      assert Sane(id, k.pending[id], k.next);
      SurvivorTracks(k, id, law, max);
    }
    forall s: nat | s < |law.status| && !law.status[s].Done? ensures Owned(s, k'.pending) {
      assert Owned(s, k.pending);
      var id :| id in k.pending && k.pending[id].sequence == s;
      assert id in k'.pending;
    }
  }

  lemma {:induction false} RequeueSimulates(k: State, law: C.Law, budget: ReplayBudget)
    requires Inv(k) && Simulates(k, law)
    ensures Refines(k, law, Requeue(budget))
  {
    hide Simulates, Ordered, Split, Sane;
    var kept := RequeueParts(k, budget);
    var law' := LossAccepted(k, law, Ordered(k.pending), budget.maxAttempts, kept);
    SurvivorsSimulate(k, k.Requeue(budget).0, kept, budget.maxAttempts, law');
  }

  lemma {:induction false} SurvivorTracks(k: State, id: RequestId, law: C.Law, max: u8)
    requires id in k.pending && Sane(id, k.pending[id], k.next) && Recoverable(k.pending[id], max)
    requires Interrupts(k.pending[id], law) && law.budget == max
    ensures Tracks(Scheduled(k.pending[id], max), law)
  {
  }

  // ---------------------------------------------------------------- whole runs

  const ColdState := State(Cold, None, map[], [], 0)

  ghost function Run(ops: seq<Op>): State {
    if ops == [] then ColdState else Exec(Run(ops[..|ops| - 1]), ops[|ops| - 1])
  }

  /** Every kernel of every run satisfies the global invariant. */
  lemma {:induction false} RunKeepsInvariant(ops: seq<Op>)
    ensures Inv(Run(ops))
    decreases |ops|
  {
    if ops == [] {
      ColdKernel();
    } else {
      RunKeepsInvariant(ops[..|ops| - 1]);
      ExecKeeps(Run(ops[..|ops| - 1]), ops[|ops| - 1]);
    }
  }

  ghost function Trace(ops: seq<Op>): seq<C.Action> {
    if ops == [] then []
    else Trace(ops[..|ops| - 1]) + Emits(Run(ops[..|ops| - 1]), ops[|ops| - 1])
  }

  lemma {:induction false} StepSimulates(k: State, law: C.Law, op: Op)
    requires Inv(k) && Simulates(k, law)
    ensures Refines(k, law, op)
  {
    match op
    case Observe(f) => ObserveSimulates(k, law, f);
    case Enqueue(f, c) => EnqueueSimulates(k, law, f, c);
    case Pop => PopSimulates(k, law);
    case Begin(f, c, n) => BeginSimulates(k, law, f, c, n);
    case Complete(f) => CompleteSimulates(k, law, f);
    case Requeue(b) => RequeueSimulates(k, law, b);
    case Resolve(id, a, m) => ResolveSimulates(k, law, id, a, m);
  }

  /** Refinement: the kernel's log is accepted by the abstract machine, and the kernel's pending map
      is what that machine still holds open. */
  lemma {:induction false} RunRefinesContinuity(ops: seq<Op>)
    ensures C.Accepts(C.Genesis, Trace(ops))
    ensures Simulates(Run(ops), C.After(C.Genesis, Trace(ops)))
    decreases |ops|
  {
    if ops != [] {
      var init := ops[..|ops| - 1];
      RunRefinesContinuity(init);
      RunKeepsInvariant(init);
      StepSimulates(Run(init), C.After(C.Genesis, Trace(init)), ops[|ops| - 1]);
      C.AcceptsExtends(C.Genesis, Trace(init), Emits(Run(init), ops[|ops| - 1]));
    }
  }

  lemma {:induction false} StepSettles(k: State, op: Op)
    requires Inv(k) && Settled(k)
    ensures Settled(Exec(k, op))
  {
    match op
    case Requeue(b) => RequeueKeeps(k, b);
    case Pop =>
      if k.Pop().kernel != k {
        var ids, backlog :| Split(k, ids, backlog);
        PopShape(k, ids, backlog);
      }
    case Resolve(id, a, m) =>
      if k.Resolve(id, a, m).kernel != k {
        ResolveShape(k, id, a, m);
      }
    case _ =>
  }

  /** In every run an unscheduled invocation is in flight. */
  lemma {:induction false} RunSettles(ops: seq<Op>)
    ensures Settled(Run(ops))
    decreases |ops|
  {
    if ops == [] {
      ColdKernel();
    } else {
      RunSettles(ops[..|ops| - 1]);
      RunKeepsInvariant(ops[..|ops| - 1]);
      StepSettles(Run(ops[..|ops| - 1]), ops[|ops| - 1]);
    }
  }
}
