/** Every host run is a run of its kernel, so the continuity machine speaks about it: how often an
    invocation is dispatched, in which order recovery hands out, and that an invocation ends once. */
module HostRecovery {
  import opened Wire
  import opened Replay
  import opened Kernel
  import opened KernelInvariant
  import opened Snapshot
  import opened Authority
  import C = Continuity
  import R = KernelRuns
  import L = KernelLaws
  import B = KernelBacklog
  import opened KernelSteps

  // ---------------------------------------------------------------- the kernel's run behind a host run

  /** The kernel operations behind a log. */
  function OpsOf(acts: seq<Act>): seq<R.Op> {
    if acts == [] then []
    else OpsOf(acts[..|acts| - 1]) + OpOf(acts[|acts| - 1])
  }

  lemma {:induction false} OpsExtend(acts: seq<Act>, j: nat)
    requires j < |acts|
    ensures OpsOf(acts[..j + 1]) == OpsOf(acts[..j]) + OpOf(acts[j])
  {
    assert acts[..j + 1][..j] == acts[..j];
  }

  function OpOf(a: Act): seq<R.Op> {
    match a
    case Observe(f) => [R.Observe(f)]
    case Queue(f) => [R.Enqueue(f, QUEUE_CAPACITY)]
    case Admit(f, c) => [R.Begin(f, c, PENDING_CAPACITY)]
    case Pop => [R.Pop]
    case Answer(f) => [R.Complete(f)]
    case Lose => [R.Requeue(RECOVERY)]
    case _ => []
  }

  lemma {:induction false} RunExtends(ops: seq<R.Op>, op: R.Op)
    ensures R.Run(ops + [op]) == R.Exec(R.Run(ops), op)
  {
    assert (ops + [op])[..|ops|] == ops;
  }

  lemma {:induction false} StepOfKernel(k: State, a: Act)
    requires Inv(k)
    ensures OpOf(a) == [] ==> KernelAfter(k, a) == k
    ensures OpOf(a) != [] ==> |OpOf(a)| == 1 && KernelAfter(k, a) == R.Exec(k, OpOf(a)[0])
  {
    match a
    case Observe(f) =>
    case Queue(f) =>
    case Admit(f, c) =>
    case Pop =>
    case Answer(f) =>
    case Lose =>
    case _ =>
  }

  lemma {:induction false} ProjectStep(ops: seq<R.Op>, a: Act)
    ensures DistinctSequences(R.Run(ops).pending)
    ensures KernelAfter(R.Run(ops), a) == R.Run(ops + OpOf(a))
  {
    R.RunKeepsInvariant(ops);
    StepOfKernel(R.Run(ops), a);
    if OpOf(a) == [] {
      assert ops + [] == ops;
    } else {
      RunExtends(ops, OpOf(a)[0]);
      assert OpOf(a) == [OpOf(a)[0]];
    }
  }

  /** The host's kernel is the kernel of its own run, so every law of kernel runs holds of it. */
  lemma {:induction false} ProjectsToRun(r: Run, j: nat)
    requires r.Accepted() && j <= |r.acts|
    ensures r.states[j].k == R.Run(OpsOf(r.acts[..j]))
  {
    if j > 0 {
      ProjectsToRun(r, j - 1);
      assert r.Step(j - 1);
      ProjectStep(OpsOf(r.acts[..j - 1]), r.acts[j - 1]);
      OpsExtend(r.acts, j - 1);
    }
  }

  lemma {:induction false} OpsAreWithinBudget(acts: seq<Act>)
    ensures forall i :: 0 <= i < |OpsOf(acts)| ==> L.WithinBudget(OpsOf(acts)[i], MAX_REPLAY_ATTEMPTS)
    decreases |acts|
  {
    if acts != [] {
      OpsAreWithinBudget(acts[..|acts| - 1]);
    }
  }

  lemma {:induction false} OpsAreSealed(acts: seq<Act>, parse: Parser)
    requires AllSealed(acts, parse)
    ensures forall i :: 0 <= i < |OpsOf(acts)| ==> L.SealedOp(OpsOf(acts)[i], parse)
    decreases |acts|
  {
    if acts != [] {
      OpsAreSealed(acts[..|acts| - 1], parse);
    }
  }

  /** Whatever the host's kernel holds came out of the parser. */
  lemma {:induction false} HostIsSealed(r: Run, parse: Parser)
    requires r.Accepted() && AllSealed(r.acts, parse)
    ensures SealedKernel(r.Last().k, parse)
  {
    ProjectsToRun(r, |r.acts|);
    assert r.acts[..|r.acts|] == r.acts;
    OpsAreSealed(r.acts, parse);
    L.RunIsSealed(OpsOf(r.acts), parse);
  }

  // ---------------------------------------------------------------- what the steps log

  /** The actions of the continuity machine that one step performs. */
  ghost function Actions(k: State, a: Act): seq<C.Action> {
    if OpOf(a) == [] then [] else R.Emits(k, OpOf(a)[0])
  }

  ghost predicate Logs(r: Run, j: nat, part: seq<C.Action>)
    requires j < |r.acts| && j < |r.states|
  {
    part == Actions(r.states[j].k, r.acts[j])
  }

  ghost predicate Logged(r: Run, parts: seq<seq<C.Action>>) {
    |parts| <= |r.acts| && |parts| <= |r.states| && forall j: nat :: j < |parts| ==> Logs(r, j, parts[j])
  }

  lemma {:induction false} LoggedStep(r: Run, parts: seq<seq<C.Action>>, part: seq<C.Action>)
    requires Logged(r, parts) && |parts| < |r.acts| && |parts| < |r.states| && Logs(r, |parts|, part)
    ensures Logged(r, parts + [part])
  {
    hide Logs;
    var more := parts + [part];
    forall j: nat | j < |more| ensures Logs(r, j, more[j]) {
      assert j < |parts| ==> Logs(r, j, parts[j]);
      assert more[j] == if j < |parts| then parts[j] else part;
    }
  }

  lemma {:induction false} LoggedFront(r: Run, parts: seq<seq<C.Action>>) returns (front: seq<seq<C.Action>>,
      part: seq<C.Action>)
    requires Logged(r, parts) && parts != []
    ensures parts == front + [part] && front == parts[..|parts| - 1] && part == parts[|parts| - 1]
    ensures Logged(r, front) && Logs(r, |front|, part)
  {
    hide Logs;
    front, part := parts[..|parts| - 1], parts[|parts| - 1];
    assert Logs(r, |parts| - 1, parts[|parts| - 1]);
    forall j: nat | j < |front| ensures Logs(r, j, front[j]) {
      assert Logs(r, j, parts[j]) && front[j] == parts[j];
    }
  }

  function Flat(parts: seq<seq<C.Action>>): seq<C.Action> {
    if parts == [] then [] else Flat(parts[..|parts| - 1]) + parts[|parts| - 1]
  }

  lemma {:induction false} FlatStep(parts: seq<seq<C.Action>>, part: seq<C.Action>)
    ensures Flat(parts + [part]) == Flat(parts) + part
  {
    assert (parts + [part])[..|parts|] == parts;
  }

  lemma {:induction false} TraceStep(ops: seq<R.Op>, a: Act)
    ensures R.Trace(ops + OpOf(a)) == R.Trace(ops) + Actions(R.Run(ops), a)
  {
    var more := OpOf(a);
    if more == [] {
      assert ops + more == ops;
    } else {
      assert more == [more[0]] && (ops + more)[..|ops|] == ops;
    }
  }

  lemma {:induction false} LogStep(r: Run, j: nat) returns (part: seq<C.Action>)
    requires r.Accepted() && j < |r.acts|
    ensures Logs(r, j, part)
    ensures R.Trace(OpsOf(r.acts[..j + 1])) == R.Trace(OpsOf(r.acts[..j])) + part
  {
    ProjectsToRun(r, j);
    OpsExtend(r.acts, j);
    TraceStep(OpsOf(r.acts[..j]), r.acts[j]);
    part := Actions(r.states[j].k, r.acts[j]);
  }

  /** What the first n steps log, step by step; together it is the trace of the kernel's own run. */
  lemma {:induction false} LogOf(r: Run, n: nat) returns (parts: seq<seq<C.Action>>)
    requires r.Accepted() && n <= |r.acts|
    ensures |parts| == n && Logged(r, parts)
    ensures Flat(parts) == R.Trace(OpsOf(r.acts[..n]))
    decreases n
  {
    hide Run.Step, Logs, Actions, R.Run, R.Emits, OpOf;
    parts := [];
    if n > 0 {
      parts := LogOf(r, n - 1);
      var part := LogStep(r, n - 1);
      FlatStep(parts, part);
      LoggedStep(r, parts, part);
      parts := parts + [part];
    }
  }

  lemma {:induction false} LogIsAccepted(r: Run, n: nat) returns (parts: seq<seq<C.Action>>)
    requires r.Accepted() && n <= |r.acts|
    ensures |parts| == n && Logged(r, parts)
    ensures C.Accepts(C.Genesis, Flat(parts))
    ensures forall s :: C.Attempts(Flat(parts), s) <= 1 + MAX_REPLAY_ATTEMPTS
  {
    parts := LogOf(r, n);
    var ops := OpsOf(r.acts[..n]);
    R.RunRefinesContinuity(ops);
    OpsAreWithinBudget(r.acts[..n]);
    forall s ensures C.Attempts(R.Trace(ops), s) <= 1 + MAX_REPLAY_ATTEMPTS {
      L.DispatchesAreBounded(ops, s, MAX_REPLAY_ATTEMPTS);
    }
  }

  /** The parts stand in the log one after the other. */
  lemma {:induction false} PartAt(parts: seq<seq<C.Action>>, i: nat)
    requires i < |parts|
    ensures |Flat(parts[..i])| + |parts[i]| <= |Flat(parts)|
    ensures Flat(parts)[|Flat(parts[..i])|..][..|parts[i]|] == parts[i]
    decreases |parts|
  {
    var front := parts[..|parts| - 1];
    if i < |front| {
      PartAt(front, i);
      assert front[..i] == parts[..i];
      assert Flat(parts)[..|Flat(front)|] == Flat(front);
      assert Flat(parts)[|Flat(parts[..i])|..][..|parts[i]|] == Flat(front)[|Flat(parts[..i])|..][..|parts[i]|];
    } else {
      assert parts[..i] == front;
    }
  }

  lemma {:induction false} EntryAt(parts: seq<seq<C.Action>>, i: nat, n: nat) returns (at: nat)
    requires i < |parts| && n < |parts[i]|
    ensures at == |Flat(parts[..i])| + n < |Flat(parts)| && Flat(parts)[at] == parts[i][n]
  {
    PartAt(parts, i);
    at := |Flat(parts[..i])| + n;
    assert Flat(parts)[|Flat(parts[..i])|..][..|parts[i]|][n] == parts[i][n];
  }

  lemma {:induction false} PartsAreInOrder(parts: seq<seq<C.Action>>, i: nat, j: nat)
    requires i < j <= |parts|
    ensures |Flat(parts[..i])| + |parts[i]| <= |Flat(parts[..j])|
  {
    PartAt(parts[..j], i);
    assert parts[..j][..i] == parts[..i];
  }

  // ---------------------------------------------------------------- how often anything is dispatched

  /** How often a run dispatches an invocation, before step j. */
  function Crossings(r: Run, j: nat, s: nat): nat
    requires j <= |r.acts| && j < |r.states|
    decreases j
  {
    if j == 0 then 0 else Crossings(r, j - 1, s) + if Crosses(r, j - 1, s) then 1 else 0
  }

  /** Admission under the at-most-once contract. */
  predicate AdmitsOnce(a: Act) {
    a.Admit? && a.contract.NeverReplay?
  }

  /** Whether the invocation was admitted as at-most-once, before step j. */
  predicate AdmittedOnce(r: Run, j: nat, s: nat)
    requires j <= |r.acts| && j < |r.states|
    decreases j
  {
    j > 0 && (AdmittedOnce(r, j - 1, s) || (Crosses(r, j - 1, s) && AdmitsOnce(r.acts[j - 1])))
  }

  lemma {:induction false} AttemptsAdd(a: seq<C.Action>, b: seq<C.Action>, s: nat)
    ensures C.Attempts(a + b, s) == C.Attempts(a, s) + C.Attempts(b, s)
    decreases |b|
  {
    if b == [] {
      assert a + b == a;
    } else {
      assert (a + b)[..|a + b| - 1] == a + b[..|b| - 1];
      AttemptsAdd(a, b[..|b| - 1], s);
    }
  }

  lemma {:induction false} RefusalsDispatchNothing(rejected: seq<RejectedReplay>, budget: nat, s: nat)
    ensures C.Attempts(R.Refusals(rejected, budget), s) == 0
    ensures forall i :: 0 <= i < |R.Refusals(rejected, budget)| ==> R.Refusals(rejected, budget)[i].Refuse?
  {
    if rejected != [] {
      RefusalsDispatchNothing(rejected[1..], budget, s);
      var first := C.Refuse(rejected[0].request.sequence, R.WhyRefused(rejected[0], budget));
      assert [first][..0] == [];
      AttemptsAdd([first], R.Refusals(rejected[1..], budget), s);
    }
  }

  lemma {:induction false} OneAttempt(x: C.Action, s: nat)
    ensures C.Attempts([x], s) == if C.Dispatches(x, s) then 1 else 0
  {
    assert [x][..0] == [];
  }

  /** A step dispatches an invocation exactly when the host says that it crosses. */
  lemma {:induction false} CrossingIsAttempt(k: State, a: Act, s: nat)
    requires Inv(k)
    ensures C.Attempts(Actions(k, a), s) == if Crossed(k, a) == Some(s) then 1 else 0
    ensures Crossed(k, a) == Some(s) ==> (
      Actions(k, a) == [if a.Admit? then C.Dispatch(s, a.contract) else C.Redispatch(s)])
  {
    if a.Lose? {
      LossDispatchesNothing(k, s);
    } else {
      var log := Actions(k, a);
      OneAction(k, a);
      hide Actions, Crossed;
      if log != [] {
        assert log == [log[0]];
        OneAttempt(log[0], s);
      }
    }
  }

  lemma {:induction false} LossDispatchesNothing(k: State, s: nat)
    requires DistinctSequences(k.pending)
    ensures C.Attempts(Actions(k, Lose), s) == 0
  {
    hide State.Requeue;
    var rejected := k.Requeue(RECOVERY).1.rejected;
    RefusalsDispatchNothing(rejected, RECOVERY.maxAttempts, s);
    OneAttempt(C.LoseWorker(RECOVERY.maxAttempts), s);
    AttemptsAdd([C.LoseWorker(RECOVERY.maxAttempts)], R.Refusals(rejected, RECOVERY.maxAttempts), s);
  }

  /** A step that is no loss logs at most one action: a dispatch exactly when it crosses. */
  lemma {:induction false} OneAction(k: State, a: Act)
    requires !a.Lose?
    ensures |Actions(k, a)| <= 1
    ensures Actions(k, a) == [] ==> Crossed(k, a).None?
    ensures Actions(k, a) != [] && Crossed(k, a).None? ==> forall s: nat :: !C.Dispatches(Actions(k, a)[0], s)
    ensures Crossed(k, a).Some? ==> (
      Actions(k, a) == [if a.Admit? then C.Dispatch(Crossed(k, a).value, a.contract)
                        else C.Redispatch(Crossed(k, a).value)])
  {
    hide State.Pop, State.Begin, State.Complete, State.Observe, State.Enqueue;
  }

  lemma {:induction false} PartCounts(r: Run, j: nat, part: seq<C.Action>, s: nat)
    requires r.Accepted() && j < |r.acts| && Logs(r, j, part)
    ensures C.Attempts(part, s) == if Crosses(r, j, s) then 1 else 0
    ensures Crosses(r, j, s) ==> (
      part == [if r.acts[j].Admit? then C.Dispatch(s, r.acts[j].contract) else C.Redispatch(s)])
  {
    GenerationPinning(r, j);
    CrossingIsAttempt(r.states[j].k, r.acts[j], s);
  }

  lemma {:induction false} NothingLogged(s: nat)
    ensures C.Attempts(Flat([]), s) == 0
  {
  }

  lemma {:induction false} CrossingsAreAttempts(r: Run, parts: seq<seq<C.Action>>, s: nat)
    requires r.Accepted() && Logged(r, parts)
    ensures C.Attempts(Flat(parts), s) == Crossings(r, |parts|, s)
    decreases |parts|
  {
    hide Run.Accepted, Crosses, Logs, Flat, C.Attempts;
    if parts == [] {
      NothingLogged(s);
    } else {
      var front, part := LoggedFront(r, parts);
      FlatStep(front, part);
      CrossingsAreAttempts(r, front, s);
      PartCounts(r, |front|, part, s);
      AttemptsAdd(Flat(front), part, s);
    }
  }

  /** An at-most-once admission is some step before j. */
  lemma {:induction false} AdmissionStep(r: Run, j: nat, s: nat) returns (i: nat)
    requires r.Accepted() && j <= |r.acts| && AdmittedOnce(r, j, s)
    ensures i < j && Crosses(r, i, s) && AdmitsOnce(r.acts[i])
    decreases j
  {
    if AdmittedOnce(r, j - 1, s) {
      i := AdmissionStep(r, j - 1, s);
    } else {
      i := j - 1;
    }
  }

  /** The supervisor's replay budget of one: no invocation is ever dispatched more than twice, and
      one admitted as at-most-once is dispatched exactly once, whatever happens to its workers. */
  lemma {:induction false} DispatchesAreRationed(r: Run, j: nat, s: nat)
    requires r.Accepted() && j <= |r.acts|
    ensures Crossings(r, j, s) <= 2
    ensures AdmittedOnce(r, j, s) ==> Crossings(r, j, s) == 1
  {
    var parts := LogIsAccepted(r, j);
    CrossingsAreAttempts(r, parts, s);
    if AdmittedOnce(r, j, s) {
      var i := AdmissionStep(r, j, s);
      assert Logs(r, i, parts[i]);
      PartCounts(r, i, parts[i], s);
      var at := EntryAt(parts, i, 0);
      C.NeverReplayOnce(Flat(parts), at, s);
    }
  }

  // ---------------------------------------------------------------- the order of recovery

  predicate HandsOut(k: State) {
    k.Pop().result.Ok? && k.Pop().result.value.ClientFrame?
  }

  predicate Lossless(part: seq<C.Action>) {
    forall i :: 0 <= i < |part| ==> !part[i].LoseWorker?
  }

  lemma {:induction false} OnlyLossesLose(r: Run, j: nat, part: seq<C.Action>)
    requires j < |r.acts| && j < |r.states| && Logs(r, j, part) && !r.acts[j].Lose?
    ensures Lossless(part)
  {
  }

  lemma {:induction false} HandOutIsLogged(r: Run, j: nat, part: seq<C.Action>)
    requires j < |r.acts| && j < |r.states| && Logs(r, j, part) && r.acts[j].Pop? && HandsOut(r.states[j].k)
    ensures part == [C.HandOut]
  {
  }

  lemma {:induction false} NoLossBetween(parts: seq<seq<C.Action>>, x: nat, y: nat)
    requires x <= y <= |parts| && forall z: nat :: x <= z < y ==> Lossless(parts[z])
    ensures |Flat(parts[..x])| <= |Flat(parts[..y])|
    ensures Lossless(Flat(parts[..y])[|Flat(parts[..x])|..])
    decreases y
  {
    if x < y {
      NoLossBetween(parts, x, y - 1);
      FlatStep(parts[..y - 1], parts[y - 1]);
      assert parts[..y] == parts[..y - 1] + [parts[y - 1]];
      var m, before := |Flat(parts[..x])|, Flat(parts[..y - 1]);
      assert (before + parts[y - 1])[m..] == before[m..] + parts[y - 1];
    }
  }

  lemma {:induction false} NoLossWithin(parts: seq<seq<C.Action>>, x: nat, y: nat, i: nat, j: nat)
    requires x <= y < |parts| && (forall z: nat :: x <= z < y ==> Lossless(parts[z]))
    requires i == |Flat(parts[..x])| && j == |Flat(parts[..y])| && j <= |Flat(parts)|
    ensures !C.LossWithin(Flat(parts), i, j)
  {
    NoLossBetween(parts, x, y);
    PartAt(parts, y);
    FlatPrefix(parts, y);
    forall l | i < l < j ensures !Flat(parts)[l].LoseWorker? {
      assert Flat(parts[..y])[i..][l - i] == Flat(parts)[l];
    }
  }

  lemma {:induction false} FlatPrefix(parts: seq<seq<C.Action>>, y: nat)
    requires y <= |parts|
    ensures Flat(parts[..y]) <= Flat(parts)
    decreases |parts|
  {
    if y == |parts| {
      assert parts[..y] == parts;
    } else {
      FlatPrefix(parts[..|parts| - 1], y);
      assert parts[..|parts| - 1][..y] == parts[..y];
    }
  }

  /** Between two losses the host replays invocations in their original order, and hands out no
      client frame before a replay. */
  lemma {:induction false} HostReplaysInOrder(r: Run, x: nat, y: nat, s: nat)
    requires r.Accepted() && x < y < |r.acts| && r.acts[x].Pop? && r.acts[y].Pop?
    requires forall z: nat :: x < z < y ==> !r.acts[z].Lose?
    requires Crosses(r, y, s)
    ensures !HandsOut(r.states[x].k)
    ensures forall t: nat :: Crosses(r, x, t) ==> t < s
  {
    hide Flat, Run.Accepted, Crosses, Logs, Lossless, C.LossWithin, C.Accepts;
    var parts := LogIsAccepted(r, y + 1);
    forall z: nat | x <= z < y ensures Lossless(parts[z]) {
      assert Logs(r, z, parts[z]);
      OnlyLossesLose(r, z, parts[z]);
    }
    assert Logs(r, x, parts[x]) && Logs(r, y, parts[y]);
    PartCounts(r, y, parts[y], s);
    var j := EntryAt(parts, y, 0);
    PartsAreInOrder(parts, x, y);
    if HandsOut(r.states[x].k) {
      HandOutIsLogged(r, x, parts[x]);
      var i := EntryAt(parts, x, 0);
      NoLossWithin(parts, x, y, i, j);
      C.RecoveryOrder(Flat(parts), i, j);
    }
    forall t: nat | Crosses(r, x, t) ensures t < s {
      PartCounts(r, x, parts[x], t);
      var i := EntryAt(parts, x, 0);
      NoLossWithin(parts, x, y, i, j);
      C.RecoveryOrder(Flat(parts), i, j);
    }
  }

  // ---------------------------------------------------------------- the queue of the host

  /** The client frames that the first j steps have queued, in order. */
  function Queued(r: Run, j: nat): seq<Frame>
    requires j <= |r.acts| && j < |r.states|
    decreases j
  {
    if j == 0 then []
    else
      var k, a := r.states[j - 1].k, r.acts[j - 1];
      Queued(r, j - 1) + if a.Queue? && k.Enqueue(a.frame, QUEUE_CAPACITY).result.Ok? then [a.frame] else []
  }

  /** The client frames that they have taken from the queue again, in order. */
  function Dequeued(r: Run, j: nat): seq<Frame>
    requires j <= |r.acts| && j < |r.states|
    decreases j
  {
    if j == 0 then []
    else
      var k, a := r.states[j - 1].k, r.acts[j - 1];
      Dequeued(r, j - 1) + if a.Pop? && HandsOut(k) then [k.Pop().result.value.frame] else []
  }

  lemma {:induction false} QueueingStep(ops: seq<R.Op>, a: Act)
    ensures var k := R.Run(ops);
      && B.Taken(ops + OpOf(a)) ==
           B.Taken(ops) + (if a.Queue? && k.Enqueue(a.frame, QUEUE_CAPACITY).result.Ok? then [a.frame] else [])
      && B.Given(ops + OpOf(a)) ==
           B.Given(ops) + (if a.Pop? && HandsOut(k) then [k.Pop().result.value.frame] else [])
  {
    hide R.Run, State.Pop, State.Enqueue;
    var more := OpOf(a);
    if more == [] {
      assert ops + more == ops;
    } else {
      assert more == [more[0]] && (ops + more)[..|ops|] == ops;
    }
  }

  lemma {:induction false} QueueingIsOfKernel(r: Run, j: nat)
    requires r.Accepted() && j <= |r.acts|
    ensures Queued(r, j) == B.Taken(OpsOf(r.acts[..j])) && Dequeued(r, j) == B.Given(OpsOf(r.acts[..j]))
    decreases j
  {
    hide R.Run, B.Taken, B.Given, OpOf;
    if j > 0 {
      QueueingIsOfKernel(r, j - 1);
      ProjectsToRun(r, j - 1);
      OpsExtend(r.acts, j - 1);
      QueueingStep(OpsOf(r.acts[..j - 1]), r.acts[j - 1]);
    } else {
      NothingQueued();
    }
  }

  lemma {:induction false} NothingQueued()
    ensures B.Taken([]) == [] && B.Given([]) == []
  {
  }

  /** In every run of the host what was queued is what was taken out followed by what still waits: a
      queued client frame stays, in order of arrival, until it is its turn. */
  lemma {:induction false} HostQueueIsConserved(r: Run, j: nat)
    requires r.Accepted() && j <= |r.acts|
    ensures Queued(r, j) == Dequeued(r, j) + Clients(r.states[j].k)
  {
    QueueingIsOfKernel(r, j);
    ProjectsToRun(r, j);
    B.BacklogIsConserved(OpsOf(r.acts[..j]));
  }

  lemma {:induction false} OpsAreWithinCapacity(acts: seq<Act>)
    ensures forall i :: 0 <= i < |OpsOf(acts)| ==>
        B.WithinCapacity(OpsOf(acts)[i], QUEUE_CAPACITY, PENDING_CAPACITY)
    decreases |acts|
  {
    if acts != [] {
      OpsAreWithinCapacity(acts[..|acts| - 1]);
    }
  }

  /** Neither queue nor pending map ever holds more than the supervisor allows, whatever happens to workers. */
  lemma {:induction false} HostIsBounded(r: Run, j: nat)
    requires r.Accepted() && j <= |r.acts|
    ensures |r.states[j].k.queue| <= 128 && |r.states[j].k.pending| <= 128
  {
    ProjectsToRun(r, j);
    OpsAreWithinCapacity(r.acts[..j]);
    B.RunStaysBounded(OpsOf(r.acts[..j]), QUEUE_CAPACITY, PENDING_CAPACITY);
  }

  // ---------------------------------------------------------------- one ending

  ghost predicate Refuses(k: State, s: nat)
    requires DistinctSequences(k.pending)
  {
    exists i :: 0 <= i < |k.Requeue(RECOVERY).1.rejected| && k.Requeue(RECOVERY).1.rejected[i].request.sequence == s
  }

  /** Step x ends the invocation with this number: a worker's answer is passed on, or a loss refuses it. */
  ghost predicate Ends(r: Run, x: nat, s: nat)
    requires x < |r.acts| && x < |r.states|
  {
    Answers(r, x, s) || (r.acts[x].Lose? && DistinctSequences(r.states[x].k.pending) && Refuses(r.states[x].k, s))
  }

  lemma {:induction false} RefusalAt(rejected: seq<RejectedReplay>, budget: nat, i: nat)
    requires i < |rejected|
    ensures i < |R.Refusals(rejected, budget)|
    ensures R.Refusals(rejected, budget)[i] == C.Refuse(rejected[i].request.sequence, R.WhyRefused(rejected[i], budget))
  {
    if i > 0 {
      RefusalAt(rejected[1..], budget, i - 1);
    }
  }

  predicate Terminal(a: C.Action, s: nat) {
    a == C.Answer(s) || a == C.ProbeCompleted(s) || (a.Refuse? && a.s == s)
  }

  lemma {:induction false} EndingIsLogged(r: Run, x: nat, part: seq<C.Action>, s: nat) returns (i: nat)
    requires x < |r.acts| && x < |r.states| && Logs(r, x, part) && Ends(r, x, s)
    ensures i < |part| && Terminal(part[i], s)
  {
    if Answers(r, x, s) {
      i := 0;
    } else {
      var rejected := r.states[x].k.Requeue(RECOVERY).1.rejected;
      var n :| 0 <= n < |rejected| && rejected[n].request.sequence == s;
      RefusalAt(rejected, RECOVERY.maxAttempts, n);
      i := n + 1;
    }
  }

  /** An invocation ends once: after its answer or refusal it is never dispatched, answered or
      refused again. */
  lemma {:induction false} HostEndsOnce(r: Run, x: nat, y: nat, s: nat)
    requires r.Accepted() && x < y < |r.acts| && Ends(r, x, s)
    ensures !Crosses(r, y, s) && !Ends(r, y, s)
  {
    var parts := LogIsAccepted(r, y + 1);
    assert Logs(r, x, parts[x]) && Logs(r, y, parts[y]);
    var n := EndingIsLogged(r, x, parts[x], s);
    var i := EntryAt(parts, x, n);
    PartsAreInOrder(parts, x, y);
    if Crosses(r, y, s) {
      PartCounts(r, y, parts[y], s);
      var j := EntryAt(parts, y, 0);
      C.SingleTerminalOutcome(Flat(parts), i, j, s);
    } else if Ends(r, y, s) {
      var m := EndingIsLogged(r, y, parts[y], s);
      var j := EntryAt(parts, y, m);
      C.SingleTerminalOutcome(Flat(parts), i, j, s);
    }
  }
}
