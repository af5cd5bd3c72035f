/** The abstract continuity machine: what a log of dispatches, losses, probe answers and terminal
    outcomes must look like, stated without the kernel's queue, map or phases.

    The concrete kernel refines this machine (module KernelRuns); the safety laws of repetition and
    termination are proved here once, over every accepted log. */
module Continuity {
  import opened Replay

  /** Why the host itself ended an invocation whose worker was lost. */
  datatype Refusal = Ambiguous | Exhausted(budget: nat) | Overflow

  datatype Ending = Answered | ProvedComplete | Refused(why: Refusal)

  /** `tries` counts the dispatches so far. `Cleared` is a held probe that was answered "safe". */
  datatype Status =
    | Live(contract: ReplayContract, tries: nat)
    | Unknown(contract: ReplayContract, tries: nat)
    | Cleared(tries: nat)
    | Done(ending: Ending)

  datatype Action =
    | Dispatch(s: nat, contract: ReplayContract)
    | Redispatch(s: nat)
    | LoseWorker(budget: nat)
    | ProbeSafe(s: nat, budget: nat)
    | ProbeCompleted(s: nat)
    | Answer(s: nat)
    | Refuse(s: nat, why: Refusal)
    | HandOut

  predicate Waiting(x: Status) {
    x.Unknown? || x.Cleared?
  }

  function Interrupted(x: Status): Status {
    match x
    case Live(c, n) => Unknown(c, n)
    case Cleared(n) => Unknown(ProbeRequired, n)
    case _ => x
  }

  /** One status for each sequence number ever issued, and the attempt budget of the last loss. */
  datatype Law = Law(status: seq<Status>, budget: nat) {

    predicate Permits(a: Action) {
      match a
      case Dispatch(s, _) => s == |status|
      case Redispatch(s) =>
        && s < |status|
        && (status[s].Cleared? || (status[s].Unknown? && status[s].contract.Convergent? && status[s].tries <= budget))
        && (forall t :: 0 <= t < s ==> !Waiting(status[t]))
      case LoseWorker(_) => true
      case ProbeSafe(s, b) =>
        s < |status| && status[s].Unknown? && status[s].contract.ProbeRequired? && status[s].tries <= b
      case ProbeCompleted(s) => s < |status| && status[s].Unknown? && status[s].contract.ProbeRequired?
      case Answer(s) => s < |status| && !status[s].Done?
      case Refuse(s, why) =>
        && s < |status|
        && status[s].Unknown?
        && (match why
            case Ambiguous => status[s].contract.NeverReplay?
            case Exhausted(b) => !status[s].contract.NeverReplay? && status[s].tries > b
            case Overflow => !status[s].contract.NeverReplay?)
      case HandOut => forall t :: 0 <= t < |status| ==> !Waiting(status[t])
    }

    function Apply(a: Action): Law
      requires Permits(a)
    {
      match a
      case Dispatch(_, c) => this.(status := status + [Live(c, 1)])
      case Redispatch(s) =>
        var x := status[s];
        this.(status := status[s := Live(if x.Cleared? then ProbeRequired else x.contract, x.tries + 1)])
      case LoseWorker(b) => Law(seq(|status|, i requires 0 <= i < |status| => Interrupted(status[i])), b)
      case ProbeSafe(s, _) => this.(status := status[s := Cleared(status[s].tries)])
      case ProbeCompleted(s) => this.(status := status[s := Done(ProvedComplete)])
      case Answer(s) => this.(status := status[s := Done(Answered)])
      case Refuse(s, why) => this.(status := status[s := Done(Refused(why))])
      case HandOut => this
    }
  }

  const Genesis := Law([], 0)

  predicate Accepts(start: Law, log: seq<Action>)
    decreases |log|, 0
  {
    log == [] || (Accepts(start, log[..|log| - 1]) && After(start, log[..|log| - 1]).Permits(log[|log| - 1]))
  }

  function After(start: Law, log: seq<Action>): Law
    requires Accepts(start, log)
    decreases |log|, 1
  {
    if log == [] then start else After(start, log[..|log| - 1]).Apply(log[|log| - 1])
  }

  predicate Dispatches(a: Action, s: nat) {
    (a.Dispatch? && a.s == s) || (a.Redispatch? && a.s == s)
  }

  function Attempts(log: seq<Action>, s: nat): nat {
    if log == [] then 0
    else Attempts(log[..|log| - 1], s) + if Dispatches(log[|log| - 1], s) then 1 else 0
  }

  predicate LossWithin(log: seq<Action>, lo: int, hi: int) {
    exists l :: 0 <= lo < l < hi <= |log| && log[l].LoseWorker?
  }

  // ---------------------------------------------------------------- logs and their prefixes

  lemma {:induction false} AcceptsPrefix(log: seq<Action>, k: nat)
    requires k <= |log| && Accepts(Genesis, log)
    ensures Accepts(Genesis, log[..k])
    decreases |log|
  {
    if k == |log| {
      assert log[..k] == log;
    } else {
      AcceptsPrefix(log[..|log| - 1], k);
      assert log[..|log| - 1][..k] == log[..k];
    }
  }

  /** One step of a log, spelled out on the prefixes around it. */
  lemma {:induction false} StepAt(log: seq<Action>, k: nat)
    requires k < |log| && Accepts(Genesis, log)
    ensures Accepts(Genesis, log[..k]) && Accepts(Genesis, log[..k + 1])
    ensures After(Genesis, log[..k]).Permits(log[k])
    ensures After(Genesis, log[..k + 1]) == After(Genesis, log[..k]).Apply(log[k])
  {
    AcceptsPrefix(log, k + 1);
    assert log[..k + 1][..k] == log[..k];
  }

  lemma {:induction false} AcceptsOneMore(start: Law, log: seq<Action>, a: Action)
    ensures Accepts(start, log + [a]) <==> Accepts(start, log) && After(start, log).Permits(a)
    ensures Accepts(start, log + [a]) ==> After(start, log + [a]) == After(start, log).Apply(a)
  {
    assert (log + [a])[..|log|] == log;
  }

  lemma {:induction false} AcceptsExtends(start: Law, log: seq<Action>, more: seq<Action>)
    requires Accepts(start, log) && Accepts(After(start, log), more)
    ensures Accepts(start, log + more)
    ensures After(start, log + more) == After(After(start, log), more)
    decreases |more|
  {
    if more == [] {
      assert log + more == log;
    } else {
      var init, last := more[..|more| - 1], more[|more| - 1];
      AcceptsExtends(start, log, init);
      AcceptsOneMore(start, log + init, last);
      assert log + more == (log + init) + [last];
    }
  }

  // ---------------------------------------------------------------- laws of every accepted log

  /** Sequence numbers are issued 0, 1, 2, ... and a terminal class is never left. */
  lemma {:induction false} EndingIsFinal(log: seq<Action>, k: nat, s: nat)
    requires Accepts(Genesis, log) && k <= |log|
    requires Accepts(Genesis, log[..k]) && s < |After(Genesis, log[..k]).status|
    ensures |After(Genesis, log[..k]).status| <= |After(Genesis, log).status|
    ensures After(Genesis, log[..k]).status[s].Done? ==> (
      After(Genesis, log).status[s] == After(Genesis, log[..k]).status[s])
    decreases |log|
  {
    if k == |log| {
      assert log[..k] == log;
    } else {
      var init := log[..|log| - 1];
      assert init[..k] == log[..k];
      EndingIsFinal(init, k, s);
    }
  }

  lemma {:induction false} NumbersAreFresh(log: seq<Action>, i: nat, j: nat)
    requires Accepts(Genesis, log) && i < j < |log| && log[i].Dispatch? && log[j].Dispatch?
    ensures log[i].s < log[j].s < |After(Genesis, log).status|
  {
    StepAt(log, i);
    StepAt(log, j);
    assert log[..j][..i + 1] == log[..i + 1];
    EndingIsFinal(log[..j], i + 1, log[i].s);
    EndingIsFinal(log, j + 1, log[j].s);
  }

  /** Nothing more happens to an invocation once it has ended: in particular it ends once. */
  lemma {:induction false} SingleTerminalOutcome(log: seq<Action>, i: nat, j: nat, s: nat)
    requires Accepts(Genesis, log) && i < j < |log|
    requires log[i] == Answer(s) || log[i] == ProbeCompleted(s) || (log[i].Refuse? && log[i].s == s)
    ensures !log[j].LoseWorker? && !log[j].HandOut? ==> log[j].s != s
  {
    StepAt(log, i);
    StepAt(log, j);
    AcceptsPrefix(log, j);
    assert log[..j][..i + 1] == log[..i + 1];
    EndingIsFinal(log[..j], i + 1, s);
  }

  /** `tries` is the number of dispatches in the log, for every invocation that has not ended. */
  lemma {:induction false} TriesCountDispatches(log: seq<Action>, s: nat)
    requires Accepts(Genesis, log)
    ensures s >= |After(Genesis, log).status| ==> Attempts(log, s) == 0
    ensures s < |After(Genesis, log).status| ==> Attempts(log, s) >= 1
    ensures s < |After(Genesis, log).status| && !After(Genesis, log).status[s].Done? ==> (
      After(Genesis, log).status[s].tries == Attempts(log, s))
    decreases |log|
  {
    if log != [] {
      TriesCountDispatches(log[..|log| - 1], s);
    }
  }

  /** Budgets bound dispatches: with every budget at most `bound`, at most one more dispatch than that. */
  lemma {:induction false} AttemptsBounded(log: seq<Action>, s: nat, bound: nat)
    requires Accepts(Genesis, log)
    requires forall i :: 0 <= i < |log| && log[i].LoseWorker? ==> log[i].budget <= bound
    requires forall i :: 0 <= i < |log| && log[i].ProbeSafe? ==> log[i].budget <= bound
    ensures Attempts(log, s) <= 1 + bound
    ensures After(Genesis, log).budget <= bound
    ensures forall t :: 0 <= t < |After(Genesis, log).status| && After(Genesis, log).status[t].Cleared? ==>
        After(Genesis, log).status[t].tries <= bound
    decreases |log|
  {
    if log != [] {
      var init := log[..|log| - 1];
      AttemptsBounded(init, s, bound);
      TriesCountDispatches(init, s);
    }
  }

  lemma {:induction false} HeldStep(l: Law, a: Action, s: nat)
    requires l.Permits(a) && !a.LoseWorker?
    requires Dispatches(a, s) || (s < |l.status| && !Waiting(l.status[s]))
    ensures s < |l.Apply(a).status| && !Waiting(l.Apply(a).status[s])
  {
  }

  /** Once dispatched, an invocation stays out of the waiting states until a worker is lost. */
  lemma {:induction false} HeldUntilLoss(log: seq<Action>, i: nat, k: nat, s: nat)
    requires Accepts(Genesis, log) && i < k <= |log| && Dispatches(log[i], s)
    requires !LossWithin(log, i, k)
    ensures Accepts(Genesis, log[..k]) && s < |After(Genesis, log[..k]).status|
    ensures !Waiting(After(Genesis, log[..k]).status[s])
    decreases k
  {
    hide Law.Apply, Law.Permits, Waiting;
    StepAt(log, k - 1);
    if k > i + 1 {
      HeldUntilLoss(log, i, k - 1, s);
      assert !log[k - 1].LoseWorker?;
    }
    HeldStep(After(Genesis, log[..k - 1]), log[k - 1], s);
  }

  /** Every repeated dispatch follows a worker loss after the previous dispatch. */
  lemma {:induction false} RepetitionFollowsLoss(log: seq<Action>, i: nat, j: nat, s: nat)
    requires Accepts(Genesis, log) && i < j < |log|
    requires Dispatches(log[i], s) && Dispatches(log[j], s)
    ensures LossWithin(log, i, j)
  {
    if !LossWithin(log, i, j) {
      StepAt(log, j);
      HeldUntilLoss(log, i, j, s);
    }
  }

  /** The contract under which an invocation was first dispatched never changes. */
  predicate Keeps(x: Status, c: ReplayContract) {
    match x
    case Live(d, _) => d == c
    case Unknown(d, _) => d == c
    case Cleared(_) => c.ProbeRequired?
    case Done(_) => true
  }

  lemma {:induction false} ContractStep(l: Law, a: Action, s: nat, c: ReplayContract)
    requires l.Permits(a)
    requires a == Dispatch(s, c) || (s < |l.status| && Keeps(l.status[s], c))
    ensures s < |l.Apply(a).status| && Keeps(l.Apply(a).status[s], c)
  {
  }

  lemma {:induction false} ContractIsImmutable(log: seq<Action>, i: nat, k: nat, s: nat, c: ReplayContract)
    requires Accepts(Genesis, log) && i < k <= |log| && log[i] == Dispatch(s, c)
    ensures Accepts(Genesis, log[..k]) && s < |After(Genesis, log[..k]).status|
    ensures Keeps(After(Genesis, log[..k]).status[s], c)
    decreases k
  {
    hide Law.Apply, Law.Permits, Keeps;
    StepAt(log, k - 1);
    if k > i + 1 {
      ContractIsImmutable(log, i, k - 1, s, c);
    }
    ContractStep(After(Genesis, log[..k - 1]), log[k - 1], s, c);
  }

  /** A never-replay invocation is dispatched exactly once. */
  lemma {:induction false} NeverReplayOnce(log: seq<Action>, i: nat, s: nat)
    requires Accepts(Genesis, log) && i < |log| && log[i] == Dispatch(s, NeverReplay)
    ensures Attempts(log, s) == 1
    decreases |log|
  {
    var init := log[..|log| - 1];
    if i == |log| - 1 {
      TriesCountDispatches(init, s);
    } else {
      NeverReplayOnce(init, i, s);
      ContractIsImmutable(log, i, |log| - 1, s, NeverReplay);
      TriesCountDispatches(init, s);
      StepAt(log, |log| - 1);
    }
  }

  predicate Clears(a: Action, s: nat) {
    a.ProbeSafe? && a.s == s
  }

  lemma {:induction false} ClearingStep(l: Law, a: Action, s: nat)
    requires l.Permits(a) && s < |l.Apply(a).status| && l.Apply(a).status[s].Cleared? && !Clears(a, s)
    ensures s < |l.status| && l.status[s].Cleared? && !a.LoseWorker? && !Dispatches(a, s)
  {
  }

  /** A cleared probe was answered "safe" after the latest loss, and not used since. */
  lemma {:induction false} ClearedByAnswer(log: seq<Action>, k: nat, s: nat) returns (a: nat)
    requires Accepts(Genesis, log) && k <= |log|
    requires Accepts(Genesis, log[..k]) && s < |After(Genesis, log[..k]).status|
    requires After(Genesis, log[..k]).status[s].Cleared?
    ensures a < k && Clears(log[a], s)
    ensures forall x :: a < x < k ==> !log[x].LoseWorker? && !Dispatches(log[x], s)
    decreases k
  {
    hide Law.Apply, Law.Permits;
    StepAt(log, k - 1);
    if Clears(log[k - 1], s) {
      a := k - 1;
    } else {
      ClearingStep(After(Genesis, log[..k - 1]), log[k - 1], s);
      a := ClearedByAnswer(log, k - 1, s);
    }
  }

  /** A probe-required invocation is redispatched only on a "safe" answer of its own, given after
      the latest loss and after any previous dispatch; so one answer authorises one dispatch. */
  lemma {:induction false} ProbedRepetitionIsAnswered(log: seq<Action>, h: nat, i: nat, j: nat, s: nat)
    requires Accepts(Genesis, log) && h <= i < j < |log|
    requires log[h] == Dispatch(s, ProbeRequired) && Dispatches(log[i], s) && log[j] == Redispatch(s)
    ensures exists a :: (
        && i < a < j && Clears(log[a], s) && !LossWithin(log, a, j)
        && (forall x :: a < x < j ==> !Dispatches(log[x], s)))
  {
    StepAt(log, j);
    ContractIsImmutable(log, h, j, s, ProbeRequired);
    var a := ClearedByAnswer(log, j, s);
    assert Dispatches(log[i], s) && !Dispatches(log[a], s);
  }

  predicate Passes(a: Action, t: nat) {
    a.HandOut? || (a.Redispatch? && t <= a.s)
  }

  lemma {:induction false} PassingStep(l: Law, a: Action, t: nat)
    requires l.Permits(a) && !a.LoseWorker?
    requires Passes(a, t) || (t < |l.status| ==> !Waiting(l.status[t]))
    ensures t < |l.Apply(a).status| ==> !Waiting(l.Apply(a).status[t])
  {
  }

  /** Between two losses replays come in original order, nothing older is left behind a replay,
      and no client frame is handed out before a replay. */
  lemma {:induction false} NothingOlderWaits(log: seq<Action>, i: nat, k: nat, t: nat)
    requires Accepts(Genesis, log) && i < k <= |log| && !LossWithin(log, i, k)
    requires Passes(log[i], t)
    ensures Accepts(Genesis, log[..k])
    ensures t < |After(Genesis, log[..k]).status| ==> !Waiting(After(Genesis, log[..k]).status[t])
    decreases k
  {
    hide Law.Apply, Law.Permits, Waiting;
    StepAt(log, k - 1);
    if k > i + 1 {
      assert !LossWithin(log, i, k - 1);
      NothingOlderWaits(log, i, k - 1, t);
      assert !log[k - 1].LoseWorker?;
    }
    PassingStep(After(Genesis, log[..k - 1]), log[k - 1], t);
  }

  lemma {:induction false} RecoveryOrder(log: seq<Action>, i: nat, j: nat)
    requires Accepts(Genesis, log) && i < j < |log| && !LossWithin(log, i, j)
    requires log[j].Redispatch?
    ensures !log[i].HandOut?
    ensures log[i].Redispatch? ==> log[i].s < log[j].s
  {
    StepAt(log, j);
    if log[i].HandOut? || (log[i].Redispatch? && log[j].s <= log[i].s) {
      NothingOlderWaits(log, i, j, log[j].s);
      assert false;
    }
  }
}
