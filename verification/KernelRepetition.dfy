/** Authorised repetition, said of the operations of a run themselves: which operations lie between
    two dispatches of one invocation. */
module KernelRepetition {
  import opened Wire
  import opened Replay
  import opened Kernel
  import opened KernelInvariant
  import opened KernelRuns
  import C = Continuity

  // ---------------------------------------------------------------- a run and its trace

  /** How much of the trace the first n operations make up. */
  ghost function At(ops: seq<Op>, n: nat): nat
    requires n <= |ops|
  {
    |Trace(ops[..n])|
  }

  ghost function EmitsAt(ops: seq<Op>, n: nat): seq<C.Action>
    requires n < |ops|
  {
    Emits(Run(ops[..n]), ops[n])
  }

  lemma {:induction false} TraceGrows(ops: seq<Op>, n: nat)
    requires n < |ops|
    ensures Trace(ops[..n + 1]) == Trace(ops[..n]) + EmitsAt(ops, n)
  {
    assert ops[..n + 1][..n] == ops[..n];
  }

  lemma {:induction false} TracePrefix(ops: seq<Op>, n: nat, m: nat)
    requires n <= m <= |ops|
    ensures Trace(ops[..n]) <= Trace(ops[..m])
    decreases m
  {
    hide Trace, Run, Emits, EmitsAt;
    if n < m {
      TracePrefix(ops, n, m - 1);
      TraceGrows(ops, m - 1);
    }
  }

  /** What an operation emits stands in the trace at its place. */
  lemma {:induction false} EmittedAt(ops: seq<Op>, n: nat, e: nat)
    requires n < |ops| && e < |EmitsAt(ops, n)|
    ensures At(ops, n) + e < At(ops, n + 1) <= |Trace(ops)|
    ensures Trace(ops)[At(ops, n) + e] == EmitsAt(ops, n)[e]
  {
    hide Trace, Run, Emits, EmitsAt;
    TraceGrows(ops, n);
    TracePrefix(ops, n + 1, |ops|);
    assert ops[..|ops|] == ops;
    assert Trace(ops[..n + 1])[At(ops, n) + e] == EmitsAt(ops, n)[e];
  }

  /** Each entry of the trace was emitted by one operation. */
  lemma {:induction false} EmitterOf(ops: seq<Op>, m: nat, t: nat) returns (n: nat, e: nat)
    requires m <= |ops| && t < At(ops, m)
    ensures n < m && e < |EmitsAt(ops, n)| && t == At(ops, n) + e
    ensures t < |Trace(ops)| && Trace(ops)[t] == EmitsAt(ops, n)[e]
    decreases m
  {
    hide Run, Emits, EmitsAt;
    assert m > 0;
    TraceGrows(ops, m - 1);
    if t < At(ops, m - 1) {
      n, e := EmitterOf(ops, m - 1, t);
    } else {
      n, e := m - 1, t - At(ops, m - 1);
      EmittedAt(ops, n, e);
    }
  }

  lemma {:induction false} PlacesAreOrdered(ops: seq<Op>, n: nat, m: nat)
    requires n < m <= |ops|
    ensures At(ops, n) + |EmitsAt(ops, n)| <= At(ops, m)
  {
    hide Trace, Run, Emits, EmitsAt;
    TraceGrows(ops, n);
    TracePrefix(ops, n + 1, m);
  }

  // ---------------------------------------------------------------- operations that matter

  /** Operation n is the first dispatch of the invocation with this number, under this contract. */
  ghost predicate Begins(ops: seq<Op>, n: nat, s: nat, c: ReplayContract) {
    && n < |ops| && ops[n].Begin? && ops[n].contract == c && Run(ops[..n]).next == s
    && Run(ops[..n]).Begin(ops[n].frame, c, ops[n].capacity).result.Ok?
  }

  /** Operation n hands the pending invocation with this number to a worker again. */
  ghost predicate Repeats(ops: seq<Op>, n: nat, s: nat) {
    && n < |ops| && ops[n].Pop? && Run(ops[..n]).Pop().result.Ok? && Run(ops[..n]).Pop().result.value.Replayed?
    && (exists id :: id in Run(ops[..n]).pending && Run(ops[..n]).pending[id].sequence == s
         && Carries(Run(ops[..n]).Pop().result.value.frame, id))
  }

  ghost predicate Dispatches(ops: seq<Op>, n: nat, s: nat) {
    (exists c :: Begins(ops, n, s, c)) || Repeats(ops, n, s)
  }

  /** Operation n is the client's word that the held invocation with this number may safely run again. */
  ghost predicate Vouches(ops: seq<Op>, n: nat, s: nat) {
    && n < |ops| && ops[n].Resolve? && ops[n].answer.SafeToReplay? && ops[n].id in Run(ops[..n]).pending
    && Run(ops[..n]).pending[ops[n].id].sequence == s
    && Run(ops[..n]).pending[ops[n].id].scheduled == Some(HoldForProbe)
  }

  ghost predicate LosesAt(ops: seq<Op>, n: nat) {
    n < |ops| && ops[n].Requeue?
  }

  lemma {:induction false} BeginningIsEmitted(ops: seq<Op>, n: nat, s: nat, c: ReplayContract)
    requires Begins(ops, n, s, c)
    ensures EmitsAt(ops, n) == [C.Dispatch(s, c)]
  {
  }

  lemma {:induction false} RepetitionIsEmitted(ops: seq<Op>, n: nat, s: nat)
    requires Repeats(ops, n, s)
    ensures EmitsAt(ops, n) == [C.Redispatch(s)]
  {
  }

  lemma {:induction false} DispatchIsEmitted(ops: seq<Op>, n: nat, s: nat)
    requires Dispatches(ops, n, s)
    ensures |EmitsAt(ops, n)| == 1 && C.Dispatches(EmitsAt(ops, n)[0], s)
  {
    if Repeats(ops, n, s) {
      RepetitionIsEmitted(ops, n, s);
    } else {
      var c :| Begins(ops, n, s, c);
      BeginningIsEmitted(ops, n, s, c);
    }
  }

  lemma {:induction false} LossIsEmitted(ops: seq<Op>, n: nat)
    requires LosesAt(ops, n)
    ensures EmitsAt(ops, n) != [] && EmitsAt(ops, n)[0].LoseWorker?
  {
    RunKeepsInvariant(ops[..n]);
  }

  lemma {:induction false} RefusalsOnly(rejected: seq<RejectedReplay>, budget: nat)
    ensures forall i :: 0 <= i < |Refusals(rejected, budget)| ==> Refusals(rejected, budget)[i].Refuse?
  {
    if rejected != [] {
      RefusalsOnly(rejected[1..], budget);
    }
  }

  /** A loss in the trace comes from a loss among the operations, and "safe" from the client's own word. */
  lemma {:induction false} EmittedBy(ops: seq<Op>, n: nat, e: nat)
    requires n < |ops| && e < |EmitsAt(ops, n)|
    ensures EmitsAt(ops, n)[e].LoseWorker? ==> LosesAt(ops, n)
    ensures EmitsAt(ops, n)[e].ProbeSafe? ==> Vouches(ops, n, EmitsAt(ops, n)[e].s) && |EmitsAt(ops, n)| == 1
  {
    if ops[n].Requeue? {
      RunKeepsInvariant(ops[..n]);
      RefusalsOnly(Run(ops[..n]).Requeue(ops[n].budget).1.rejected, ops[n].budget.maxAttempts);
    }
  }

  // ---------------------------------------------------------------- the theorem

  /** Where a dispatch stands in the trace. */
  lemma {:induction false} DispatchStands(ops: seq<Op>, n: nat, s: nat)
    requires Dispatches(ops, n, s)
    ensures At(ops, n) < |Trace(ops)| && C.Dispatches(Trace(ops)[At(ops, n)], s)
    ensures Repeats(ops, n, s) ==> Trace(ops)[At(ops, n)] == C.Redispatch(s)
    ensures forall c :: Begins(ops, n, s, c) ==> Trace(ops)[At(ops, n)] == C.Dispatch(s, c)
  {
    hide Emits, Trace, Run;
    DispatchIsEmitted(ops, n, s);
    EmittedAt(ops, n, 0);
    forall c | Begins(ops, n, s, c) ensures Trace(ops)[At(ops, n)] == C.Dispatch(s, c) {
      BeginningIsEmitted(ops, n, s, c);
    }
    if Repeats(ops, n, s) {
      RepetitionIsEmitted(ops, n, s);
    }
  }

  lemma {:induction false} DispatchesAreOrdered(ops: seq<Op>, i: nat, j: nat, s: nat)
    requires i < j < |ops| && Dispatches(ops, i, s)
    ensures At(ops, i) < At(ops, j)
  {
    DispatchIsEmitted(ops, i, s);
    PlacesAreOrdered(ops, i, j);
  }

  /** The operation behind an entry of the trace that lies between the dispatches of two others. */
  lemma {:induction false} EmitterBetween(ops: seq<Op>, i: nat, j: nat, s: nat, t: nat) returns (n: nat, e: nat)
    requires i < j < |ops| && Dispatches(ops, i, s) && At(ops, i) < t < At(ops, j)
    ensures i < n < j && e < |EmitsAt(ops, n)| && t == At(ops, n) + e
    ensures t < |Trace(ops)| && Trace(ops)[t] == EmitsAt(ops, n)[e]
  {
    hide Emits, Trace, Run, Begins, Repeats;
    DispatchIsEmitted(ops, i, s);
    n, e := EmitterOf(ops, j, t);
    if n < i {
      PlacesAreOrdered(ops, n, i);
    }
  }

  lemma {:induction false} LossBetween(ops: seq<Op>, i: nat, j: nat, s: nat) returns (l: nat)
    requires i < j && Dispatches(ops, i, s) && Repeats(ops, j, s)
    ensures i < l < j && LosesAt(ops, l)
  {
    hide EmitsAt, Trace, Begins, At, Run, LosesAt;
    DispatchStands(ops, i, s);
    DispatchStands(ops, j, s);
    DispatchesAreOrdered(ops, i, j, s);
    RunRefinesContinuity(ops);
    C.RepetitionFollowsLoss(Trace(ops), At(ops, i), At(ops, j), s);
    var t :| At(ops, i) < t < At(ops, j) && Trace(ops)[t].LoseWorker?;
    var e;
    l, e := EmitterBetween(ops, i, j, s, t);
    EmittedBy(ops, l, e);
  }

  lemma {:induction false} ContractAllows(ops: seq<Op>, h: nat, j: nat, s: nat, c: ReplayContract)
    requires h < j && Begins(ops, h, s, c) && Repeats(ops, j, s)
    ensures !c.NeverReplay?
  {
    hide EmitsAt, Trace, At, Run;
    DispatchStands(ops, h, s);
    DispatchStands(ops, j, s);
    DispatchesAreOrdered(ops, h, j, s);
    RunRefinesContinuity(ops);
    C.StepAt(Trace(ops), At(ops, j));
    C.ContractIsImmutable(Trace(ops), At(ops, h), At(ops, j), s, c);
  }

  /** The word in the trace that lets a held invocation run again. */
  lemma {:induction false} WordStands(ops: seq<Op>, h: nat, i: nat, j: nat, s: nat) returns (t: nat)
    requires h <= i < j && Begins(ops, h, s, ProbeRequired) && Dispatches(ops, i, s) && Repeats(ops, j, s)
    ensures At(ops, i) < t < At(ops, j) < |Trace(ops)| && C.Clears(Trace(ops)[t], s)
    ensures !C.LossWithin(Trace(ops), t, At(ops, j))
    ensures forall x :: t < x < At(ops, j) ==> !C.Dispatches(Trace(ops)[x], s)
  {
    hide EmitsAt, Trace, At, Run;
    DispatchStands(ops, h, s);
    DispatchStands(ops, i, s);
    DispatchStands(ops, j, s);
    DispatchesAreOrdered(ops, i, j, s);
    if h < i {
      DispatchesAreOrdered(ops, h, i, s);
    }
    RunRefinesContinuity(ops);
    C.ProbedRepetitionIsAnswered(Trace(ops), At(ops, h), At(ops, i), At(ops, j), s);
    t :| At(ops, i) < t < At(ops, j) && C.Clears(Trace(ops)[t], s) && !C.LossWithin(Trace(ops), t, At(ops, j))
      && (forall x :: t < x < At(ops, j) ==> !C.Dispatches(Trace(ops)[x], s));
  }

  lemma {:induction false} WordBetween(ops: seq<Op>, h: nat, i: nat, j: nat, s: nat) returns (a: nat)
    requires h <= i < j && Begins(ops, h, s, ProbeRequired) && Dispatches(ops, i, s) && Repeats(ops, j, s)
    ensures i < a < j && Vouches(ops, a, s)
    ensures forall x: nat :: a < x < j ==> !LosesAt(ops, x) && !Dispatches(ops, x, s)
  {
    hide EmitsAt, Trace, At, Run, Begins, LosesAt, Vouches, C.LossWithin;
    var t := WordStands(ops, h, i, j, s);
    var e;
    a, e := EmitterBetween(ops, i, j, s, t);
    EmittedBy(ops, a, e);
    forall x: nat | a < x < j ensures !LosesAt(ops, x) && !Dispatches(ops, x, s) {
      NothingAfterWord(ops, a, x, j, s);
    }
  }

  /** The stretch of the trace after an operation, free of losses and of dispatches of one invocation,
      holds whatever the later operations emit. */
  lemma {:induction false} NothingAfterWord(ops: seq<Op>, a: nat, x: nat, j: nat, s: nat)
    requires a < x < j < |ops| && |EmitsAt(ops, a)| == 1 && At(ops, j) < |Trace(ops)|
    requires !C.LossWithin(Trace(ops), At(ops, a), At(ops, j))
    requires forall t :: At(ops, a) < t < At(ops, j) ==> !C.Dispatches(Trace(ops)[t], s)
    ensures !LosesAt(ops, x) && !Dispatches(ops, x, s)
  {
    PlacesAreOrdered(ops, a, x);
    PlacesAreOrdered(ops, x, j);
    if LosesAt(ops, x) {
      LossIsEmitted(ops, x);
      EmittedAt(ops, x, 0);
    }
    if Dispatches(ops, x, s) {
      DispatchIsEmitted(ops, x, s);
      EmittedAt(ops, x, 0);
    }
  }

  /** Between any two dispatches of an invocation the run loses its worker. A never-replay invocation
      is not dispatched again at all. And before a probe-required one is, the client itself has said,
      since the latest loss and the latest dispatch, that this invocation is safe to replay; so each
      such word lets it run once. */
  lemma {:induction false} RepetitionIsAuthorised(ops: seq<Op>, h: nat, i: nat, j: nat, s: nat, c: ReplayContract)
    requires h <= i < j && Begins(ops, h, s, c) && Dispatches(ops, i, s) && Repeats(ops, j, s)
    ensures exists l: nat :: i < l < j && LosesAt(ops, l)
    ensures !c.NeverReplay?
    ensures c.ProbeRequired? ==> exists a: nat :: (
      && i < a < j && Vouches(ops, a, s)
      && (forall x: nat :: a < x < j ==> !LosesAt(ops, x) && !Dispatches(ops, x, s)))
  {
    var l := LossBetween(ops, i, j, s);
    ContractAllows(ops, h, j, s, c);
    if c.ProbeRequired? {
      var a := WordBetween(ops, h, i, j, s);
    }
  }
}
