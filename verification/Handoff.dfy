/** The handoff of a public session from an incumbent host to a successor process: three gate bytes
    over a socket, a deadline, and a kill when anything fails. The two processes are interleaved
    move by move; either may end at any moment. */
module Handoff {
  import opened Wire

  const READY: byte := 82
  const ACTIVATE: byte := 65
  const LIVE: byte := 76

  /** Where the incumbent is in its handoff; `Retained` is an error return, `Gone` a crash. */
  datatype Incumbent =
    | Preparing | Spawned | Accepting | Accepted | AwaitingReady | Activating | AwaitingLive
    | Aborting | Retained | Relinquished | Gone

  /** Where the successor is in its admission; `Refused` is an error return, and `Ungated` what comes
      of asking again after one: the rendezvous is gone by then, so there is nothing to wait for. */
  datatype Successor = Absent | Hydrating | Connected | Readied | Activated | Live | Refused | Ungated | Dead

  /** The two processes, the socket between them, and what has happened so far. */
  datatype State = State(
    incumbent: Incumbent, successor: Successor, listening: bool, linked: bool,
    toIncumbent: seq<byte>, toSuccessor: seq<byte>,
    readySent: bool, readyTaken: bool, activateSent: bool, activated: bool, liveSent: bool)

  const START: State := State(Preparing, Absent, true, false, [], [], false, false, false, false, false)

  datatype Move =
    // by the incumbent
    | FailToSpawn | Spawn | Overflow | Arm | Accept | Time | TakeReady | SendActivate | TakeLive | Fail | Reap | Crash
    // by the successor
    | Connect | SendReady | TakeActivate | SendLive | GiveUp | Readmit | Exit

  predicate ByIncumbent(m: Move) {
    || m.FailToSpawn? || m.Spawn? || m.Overflow? || m.Arm? || m.Accept? || m.Time? || m.TakeReady?
    || m.SendActivate? || m.TakeLive? || m.Fail? || m.Reap? || m.Crash?
  }

  predicate Returned(i: Incumbent) {
    i.Retained? || i.Relinquished? || i.Gone?
  }

  predicate Arrived(bytes: seq<byte>, expected: byte) {
    bytes != [] && bytes[0] == expected
  }

  predicate Enabled(s: State, m: Move) {
    match m
    case FailToSpawn => s.incumbent.Preparing?
    case Spawn => s.incumbent.Preparing?
    case Overflow => s.incumbent.Spawned?
    case Arm => s.incumbent.Spawned?
    case Accept => s.incumbent.Accepting? && s.linked
    case Time => s.incumbent.Accepted?
    case TakeReady => s.incumbent.AwaitingReady? && Arrived(s.toIncumbent, READY)
    case SendActivate => s.incumbent.Activating?
    case TakeLive => s.incumbent.AwaitingLive? && Arrived(s.toIncumbent, LIVE)
    case Fail =>
      s.incumbent.Accepting? || s.incumbent.Accepted? || s.incumbent.AwaitingReady? || s.incumbent.Activating? ||
      s.incumbent.AwaitingLive?
    case Reap => s.incumbent.Aborting? && s.successor.Dead?
    case Crash => !Returned(s.incumbent)
    case Connect => s.successor.Hydrating? && s.listening
    case SendReady => s.successor.Connected?
    case TakeActivate => s.successor.Readied? && Arrived(s.toSuccessor, ACTIVATE)
    case SendLive => s.successor.Activated?
    case GiveUp => s.successor.Hydrating? || s.successor.Connected? || s.successor.Readied? || s.successor.Activated?
    case Readmit => s.successor.Refused?
    case Exit => !s.successor.Absent? && !s.successor.Dead?
  }

  function Apply(s: State, m: Move): State
    requires Enabled(s, m)
  {
    match m
    case FailToSpawn => s.(incumbent := Retained, listening := false)
    case Spawn => s.(incumbent := Spawned, successor := Hydrating)
    case Overflow => s.(incumbent := Retained, listening := false)
    case Arm => s.(incumbent := Accepting)
    case Accept => s.(incumbent := Accepted)
    case Time => s.(incumbent := AwaitingReady)
    case TakeReady => s.(incumbent := Activating, toIncumbent := s.toIncumbent[1..], readyTaken := true)
    case SendActivate => s.(incumbent := AwaitingLive, toSuccessor := s.toSuccessor + [ACTIVATE], activateSent := true)
    case TakeLive => s.(incumbent := Relinquished, toIncumbent := s.toIncumbent[1..], listening := false)
    case Fail => s.(incumbent := Aborting)
    case Reap => s.(incumbent := Retained, listening := false)
    case Crash => s.(incumbent := Gone, listening := false)
    case Connect => s.(successor := Connected, linked := true)
    case SendReady => s.(successor := Readied, toIncumbent := s.toIncumbent + [READY], readySent := true)
    case TakeActivate => s.(successor := Activated, toSuccessor := s.toSuccessor[1..], activated := true)
    case SendLive => s.(successor := Live, toIncumbent := s.toIncumbent + [LIVE], liveSent := true)
    case GiveUp => s.(successor := Refused)
    case Readmit => s.(successor := Ungated)
    case Exit => s.(successor := Dead)
  }

  /** Where a sequence of moves ends, if each of them is possible. */
  function Exec(s: State, log: seq<Move>): Option<State> {
    if log == [] then Some(s)
    else
      var before := Exec(s, log[..|log| - 1]);
      if before.Some? && Enabled(before.value, log[|log| - 1]) then Some(Apply(before.value, log[|log| - 1])) else None
  }

  /** The incumbent may read the public stream: until it has sent ACTIVATE, and again after an error. */
  predicate IncumbentOwns(s: State) {
    s.incumbent.Retained? || (!Returned(s.incumbent) && !s.activateSent)
  }

  /** The successor may read the public stream: an admission has returned without an error. */
  predicate SuccessorOwns(s: State) {
    s.successor.Live? || s.successor.Ungated?
  }

  /** The successor's caller never asks for admission again after it was refused. */
  predicate AsksOnce(log: seq<Move>) {
    Readmit !in log
  }

  // ---------------------------------------------------------------- the invariant

  function When(b: bool, x: byte): seq<byte> {
    if b then [x] else []
  }

  predicate Socket(s: State) {
    && s.toSuccessor == When(s.activateSent && !s.activated, ACTIVATE)
    && s.toIncumbent == When(s.readySent && !s.readyTaken, READY) + When(s.liveSent && !s.incumbent.Relinquished?, LIVE)
    && (s.liveSent ==> s.activated) && (s.activated ==> s.activateSent) && (s.activateSent ==> s.readyTaken) &&
        (s.readyTaken ==> s.readySent)
  }

  predicate Stages(s: State) {
    && (s.successor.Absent? ==> s.incumbent.Preparing? || s.incumbent.Retained? || s.incumbent.Gone?)
    && (s.incumbent.Preparing? ==> s.successor.Absent?)
    && (s.successor.Absent? || s.successor.Hydrating? ==> !s.linked)
    && (s.successor.Absent? || s.successor.Hydrating? || s.successor.Connected? ==> !s.readySent)
    && (s.successor.Readied? ==> !s.activated)
    && (s.successor.Activated? ==> s.activated && !s.liveSent)
    && (s.successor.Live? ==> s.liveSent)
    && (s.incumbent.Preparing? || s.incumbent.Spawned? || s.incumbent.Accepting? ==> !s.readyTaken)
    && (s.incumbent.Accepted? || s.incumbent.AwaitingReady? ==> !s.readyTaken)
    && (s.incumbent.Activating? ==> s.readyTaken && !s.activateSent)
    && (s.incumbent.AwaitingLive? ==> s.activateSent)
    && (s.incumbent.Relinquished? ==> s.liveSent)
    && (s.incumbent.Retained? ==> Barred(s))
  }

  /** The successor is no more, or ACTIVATE was never sent to it. */
  predicate Barred(s: State) {
    s.successor.Dead? || !s.activateSent
  }

  lemma {:induction false} IncumbentMoveKeeps(s: State, m: Move)
    requires Socket(s) && Stages(s) && Enabled(s, m) && ByIncumbent(m)
    ensures Socket(Apply(s, m)) && Stages(Apply(s, m))
  {
    var next := Apply(s, m);
    if m.TakeReady? || m.TakeLive? {
      assert s.toIncumbent == When(s.readySent && !s.readyTaken, READY) + When(s.liveSent, LIVE);
      assert next.toIncumbent == When(next.readySent && !next.readyTaken, READY)
          + When(next.liveSent && !next.incumbent.Relinquished?, LIVE);
    } else if m.SendActivate? {
      assert s.toSuccessor == [] && next.toSuccessor == [ACTIVATE];
    }
  }

  lemma {:induction false} SuccessorMoveKeeps(s: State, m: Move)
    requires Socket(s) && Stages(s) && Enabled(s, m) && !ByIncumbent(m)
    ensures Socket(Apply(s, m)) && Stages(Apply(s, m))
  {
    var next := Apply(s, m);
    if m.SendReady? || m.SendLive? {
      assert next.toIncumbent == When(next.readySent && !next.readyTaken, READY)
          + When(next.liveSent && !next.incumbent.Relinquished?, LIVE);
    } else if m.TakeActivate? {
      assert s.toSuccessor == [ACTIVATE];
    }
  }

  lemma {:induction false} RunKeeps(log: seq<Move>)
    requires Exec(START, log).Some?
    ensures Socket(Exec(START, log).value) && Stages(Exec(START, log).value)
  {
    if log == [] {
      assert START.toIncumbent == When(false, READY) + When(false, LIVE);
    } else {
      RunKeeps(log[..|log| - 1]);
      if ByIncumbent(log[|log| - 1]) {
        IncumbentMoveKeeps(Exec(START, log[..|log| - 1]).value, log[|log| - 1]);
      } else {
        SuccessorMoveKeeps(Exec(START, log[..|log| - 1]).value, log[|log| - 1]);
      }
    }
  }

  // ---------------------------------------------------------------- moves of a run

  /** One move of a run, spelled out on the states around it. */
  lemma {:induction false} MoveAt(log: seq<Move>, i: nat) returns (s: State, next: State)
    requires Exec(START, log).Some? && i < |log|
    ensures Exec(START, log[..i]) == Some(s) && Exec(START, log[..i + 1]) == Some(next)
    ensures Enabled(s, log[i]) && next == Apply(s, log[i]) && Socket(s) && Stages(s)
    decreases |log|
  {
    var front := log[..|log| - 1];
    if i == |front| {
      assert log[..i] == front && log[..i + 1] == log;
      RunKeeps(front);
      s, next := Exec(START, front).value, Exec(START, log).value;
    } else {
      assert front[..i] == log[..i] && front[..i + 1] == log[..i + 1];
      s, next := MoveAt(front, i);
    }
  }

  lemma {:induction false} StateAt(log: seq<Move>, i: nat) returns (s: State)
    requires Exec(START, log).Some? && i <= |log|
    ensures Exec(START, log[..i]) == Some(s) && Socket(s) && Stages(s)
  {
    if i == |log| {
      assert log[..i] == log;
      RunKeeps(log);
      s := Exec(START, log).value;
    } else {
      var next;
      s, next := MoveAt(log, i);
    }
  }

  lemma {:induction false} MarksStay(s: State, m: Move)
    requires Enabled(s, m)
    ensures s.liveSent ==> Apply(s, m).liveSent
    ensures s.activateSent ==> Apply(s, m).activateSent
  {
    if m.SendLive? || m.SendActivate? {
    }
  }

  lemma {:induction false} MarksAreMade(s: State, m: Move)
    requires Enabled(s, m)
    ensures m.SendLive? ==> Apply(s, m).liveSent
    ensures !m.SendLive? ==> Apply(s, m).liveSent == s.liveSent
  {
  }

  lemma {:induction false} UngatedIsMade(s: State, m: Move)
    requires Enabled(s, m) && !m.Readmit? && !s.successor.Ungated?
    ensures !Apply(s, m).successor.Ungated?
  {
    var next := Apply(s, m).successor;
    match m
    case Spawn => assert next == Hydrating;
    case Connect => assert next == Connected;
    case SendReady => assert next == Readied;
    case TakeActivate => assert next == Activated;
    case SendLive => assert next == Live;
    case GiveUp => assert next == Refused;
    case Exit => assert next == Dead;
    case _ =>
  }

  /** Between two moments of a run LIVE stays sent, and ACTIVATE stays sent. */
  lemma {:induction false} MarksStayOver(log: seq<Move>, i: nat, j: nat) returns (s: State, later: State)
    requires Exec(START, log).Some? && i <= j <= |log|
    ensures Exec(START, log[..i]) == Some(s) && Exec(START, log[..j]) == Some(later)
    ensures Socket(s) && Stages(s) && Socket(later) && Stages(later)
    ensures s.liveSent ==> later.liveSent
    ensures s.activateSent ==> later.activateSent
    decreases j
  {
    if i == j {
      s := StateAt(log, i);
      later := s;
    } else {
      var before;
      s, before := MarksStayOver(log, i, j - 1);
      var b, next := MoveAt(log, j - 1);
      MarksStay(b, log[j - 1]);
      later := StateAt(log, j);
    }
  }

  /** Where the marks of a run come from. */
  lemma {:induction false} MarksAreMoves(log: seq<Move>)
    requires Exec(START, log).Some?
    ensures Exec(START, log).value.liveSent <==> SendLive in log
    ensures Exec(START, log).value.successor.Ungated? ==> Readmit in log
  {
    if log != [] {
      var front, m := log[..|log| - 1], log[|log| - 1];
      RunKeeps(front);
      MarksAreMoves(front);
      InExtended(log, SendLive);
      InExtended(log, Readmit);
      MarksOfMove(Exec(START, front).value, m);
    }
  }

  lemma {:induction false} InExtended(log: seq<Move>, m: Move)
    requires log != []
    ensures m in log <==> m in log[..|log| - 1] || m == log[|log| - 1]
  {
    assert log == log[..|log| - 1] + [log[|log| - 1]];
  }

  lemma {:induction false} MarksOfMove(s: State, m: Move)
    requires Enabled(s, m)
    ensures Apply(s, m).liveSent <==> s.liveSent || m.SendLive?
    ensures Apply(s, m).successor.Ungated? ==> s.successor.Ungated? || m.Readmit?
  {
    MarksAreMade(s, m);
    if !m.Readmit? && !s.successor.Ungated? {
      UngatedIsMade(s, m);
    }
  }

  // ---------------------------------------------------------------- who may read

  /** Whether both processes may read the public stream after the first i moves. */
  predicate Shared(log: seq<Move>, i: nat)
    requires i <= |log|
  {
    var s := Exec(START, log[..i]);
    s.Some? && IncumbentOwns(s.value) && SuccessorOwns(s.value)
  }

  /** Move i asks for admission again while the incumbent may read the public stream. */
  predicate Intrudes(log: seq<Move>, i: nat)
    requires i < |log|
  {
    var s := Exec(START, log[..i]);
    log[i].Readmit? && s.Some? && IncumbentOwns(s.value)
  }

  /** If admission is asked for once, in no interleaving may both processes read the public stream. */
  lemma {:induction false} MutualExclusion(log: seq<Move>)
    requires Exec(START, log).Some? && AsksOnce(log)
    ensures !(IncumbentOwns(Exec(START, log).value) && SuccessorOwns(Exec(START, log).value))
  {
    RunKeeps(log);
    MarksAreMoves(log);
  }

  lemma {:induction false} IntrusionShares(log: seq<Move>, i: nat)
    requires Exec(START, log).Some? && i < |log| && Intrudes(log, i)
    ensures Shared(log, i + 1)
  {
    var s, next := MoveAt(log, i);
  }

  /** A process that owns without a gate asked again at some move, and nothing has changed hands since. */
  lemma {:induction false} SharingIsIntrusion(log: seq<Move>, j: nat) returns (i: nat)
    requires Exec(START, log).Some? && j <= |log| && Shared(log, j)
    ensures i < j && Intrudes(log, i)
    decreases j
  {
    var later := StateAt(log, j);
    assert later.successor.Ungated? && !later.activateSent;
    assert log[..0] == [];
    var s, next := MoveAt(log, j - 1);
    MarksStay(s, log[j - 1]);
    if log[j - 1].Readmit? {
      i := j - 1;
    } else {
      if !s.successor.Ungated? {
        UngatedIsMade(s, log[j - 1]);
      }
      assert IncumbentOwns(s) by {
        assert s.incumbent.Relinquished? ==> s.activateSent;
      }
      i := SharingIsIntrusion(log, j - 1);
    }
  }

  /** Exactly when exclusion fails: when admission is asked for again, after a refusal, while the
      incumbent still owns the session. */
  lemma {:induction false} ExclusionIsExact(log: seq<Move>)
    requires Exec(START, log).Some?
    ensures (exists j: nat :: j <= |log| && Shared(log, j)) <==> (exists i: nat :: i < |log| && Intrudes(log, i))
  {
    if j: nat :| j <= |log| && Shared(log, j) {
      var i := SharingIsIntrusion(log, j);
    }
    if i: nat :| i < |log| && Intrudes(log, i) {
      IntrusionShares(log, i);
    }
  }

  /** Giving the session up means that the successor took ACTIVATE and answered LIVE; keeping it
      means that the successor has ended, or that ACTIVATE was not sent. */
  lemma {:induction false} OutcomesAreSound(log: seq<Move>)
    requires Exec(START, log).Some?
    ensures var s := Exec(START, log).value;
      && (s.incumbent.Relinquished? ==> s.activated && s.liveSent && !IncumbentOwns(s))
      && (s.incumbent.Retained? ==> Barred(s) && IncumbentOwns(s))
      && (AsksOnce(log) && SuccessorOwns(s) ==> s.readyTaken && s.activated)
  {
    RunKeeps(log);
    MarksAreMoves(log);
  }

  /** Each expected gate byte is the only one that can arrive: no handoff fails on a wrong byte. */
  lemma {:induction false} GateBytesAreInOrder(log: seq<Move>)
    requires Exec(START, log).Some?
    ensures var s := Exec(START, log).value;
      && (s.incumbent.AwaitingReady? && s.toIncumbent != [] ==> s.toIncumbent[0] == READY)
      && (s.incumbent.AwaitingLive? && s.toIncumbent != [] ==> s.toIncumbent == [LIVE])
      && (s.successor.Readied? && s.toSuccessor != [] ==> s.toSuccessor == [ACTIVATE])
  {
    RunKeeps(log);
  }

  lemma {:induction false} ReturnIsForGood(s: State, m: Move)
    requires Socket(s) && Stages(s) && Enabled(s, m) && Returned(s.incumbent)
    ensures Apply(s, m).incumbent == s.incumbent && Apply(s, m).activateSent == s.activateSent
  {
    hide Socket, Stages;
    if m.Connect? || m.SendReady? || m.TakeActivate? || m.SendLive? {
    }
  }

  /** An outcome is for good: whatever happens later, after an error no successor that asks once ever
      reads the public stream, and after giving it up the incumbent never does. */
  lemma {:induction false} OutcomesAreFinal(log: seq<Move>, more: seq<Move>)
    requires Exec(START, log).Some? && Returned(Exec(START, log).value.incumbent)
    requires Exec(START, log + more).Some?
    ensures Exec(START, log + more).value.incumbent == Exec(START, log).value.incumbent
    ensures Exec(START, log).value.incumbent.Retained? && AsksOnce(log + more) ==> (
      !SuccessorOwns(Exec(START, log + more).value))
    decreases |more|
  {
    if more == [] {
      assert log + more == log;
    } else {
      var front := more[..|more| - 1];
      assert (log + more)[..|log + more| - 1] == log + front;
      assert log + more == (log + front) + [more[|more| - 1]];
      OutcomesAreFinal(log, front);
      RunKeeps(log + front);
      ReturnIsForGood(Exec(START, log + front).value, more[|more| - 1]);
    }
    if AsksOnce(log + more) {
      MutualExclusion(log + more);
    }
  }

  lemma {:induction false} NoMoves()
    ensures Exec(START, []) == Some(START)
  {
  }

  lemma {:induction false} OneMore(log: seq<Move>, s: State, m: Move) returns (more: seq<Move>, next: State)
    requires Exec(START, log) == Some(s) && Enabled(s, m)
    ensures more == log + [m] && next == Apply(s, m) && Exec(START, more) == Some(next)
  {
    more, next := log + [m], Apply(s, m);
    assert more[..|more| - 1] == log;
  }

  // ---------------------------------------------------------------- how often ownership moves

  /** The successor owns the session at some moment of the run. */
  ghost predicate EverOwned(log: seq<Move>) {
    exists i: nat :: i <= |log| && OwnedAt(log, i)
  }

  predicate OwnedAt(log: seq<Move>, i: nat)
    requires i <= |log|
  {
    var s := Exec(START, log[..i]);
    s.Some? && SuccessorOwns(s.value)
  }

  predicate KeptAt(log: seq<Move>, i: nat)
    requires i <= |log|
  {
    var s := Exec(START, log[..i]);
    s.Some? && IncumbentOwns(s.value)
  }

  /** The incumbent owns the session again after the successor has owned it. */
  ghost predicate Returns(log: seq<Move>) {
    exists i: nat, j: nat :: i <= j <= |log| && OwnedAt(log, i) && KeptAt(log, j)
  }

  lemma {:induction false} MoveInLog(log: seq<Move>, m: Move) returns (i: nat)
    requires m in log
    ensures i < |log| && log[i] == m
  {
    i :| i < |log| && log[i] == m;
  }

  lemma {:induction false} OwnedComesFromMove(log: seq<Move>, i: nat)
    requires Exec(START, log).Some? && i <= |log| && OwnedAt(log, i)
    ensures SendLive in log || Readmit in log
  {
    var s := StateAt(log, i);
    MarksAreMoves(log[..i]);
    assert forall m :: m in log[..i] ==> m in log;
  }

  /** The successor owns the session at some moment exactly if it sent LIVE, or asked again. */
  lemma {:induction false} OwnershipIsSendLive(log: seq<Move>)
    requires Exec(START, log).Some?
    ensures EverOwned(log) <==> SendLive in log || Readmit in log
  {
    if i: nat :| i <= |log| && OwnedAt(log, i) {
      OwnedComesFromMove(log, i);
    }
    if SendLive in log || Readmit in log {
      var i := MoveInLog(log, if SendLive in log then SendLive else Readmit);
      var s, next := MoveAt(log, i);
      assert OwnedAt(log, i + 1);
    }
  }

  /** If admission is asked for once, ownership comes back to the incumbent exactly if the successor
      sent LIVE and the incumbent returned an error all the same: otherwise it moves at most once.
      What the successor read in between is lost with it. */
  lemma {:induction false} OwnershipMovesOnce(log: seq<Move>)
    requires Exec(START, log).Some? && AsksOnce(log)
    ensures Returns(log) <==> SendLive in log && Exec(START, log).value.incumbent.Retained?
  {
    if i: nat, j: nat :| i <= j <= |log| && OwnedAt(log, i) && KeptAt(log, j) {
      OwnedComesFromMove(log, i);
      KeptAfterOwned(log, i, j);
    }
    if SendLive in log && Exec(START, log).value.incumbent.Retained? {
      var i := MoveInLog(log, SendLive);
      var s, next := MoveAt(log, i);
      assert OwnedAt(log, i + 1);
      assert log[..|log|] == log;
      assert KeptAt(log, |log|);
    }
  }

  lemma {:induction false} KeptAfterOwned(log: seq<Move>, i: nat, j: nat)
    requires Exec(START, log).Some? && AsksOnce(log) && i <= j <= |log| && OwnedAt(log, i) && KeptAt(log, j)
    ensures Exec(START, log).value.incumbent.Retained?
  {
    hide Exec;
    var s, later := MarksStayOver(log, i, j);
    MarksAreMoves(log[..i]);
    assert AsksOnce(log[..i]) by {
      assert forall m :: m in log[..i] ==> m in log;
    }
    assert s.liveSent && later.incumbent.Retained?;
    assert log == log[..j] + log[j..];
    OutcomesAreFinal(log[..j], log[j..]);
  }

  /** Such a run exists: LIVE is late. */
  lemma {:induction false} OwnershipCanReturn() returns (log: seq<Move>)
    ensures Exec(START, log).Some? && AsksOnce(log) && Returns(log)
  {
    var s: State;
    log, s := Admitted();
    log, s := OneMore(log, s, Fail);
    log, s := OneMore(log, s, Exit);
    log, s := OneMore(log, s, Reap);
    OwnershipMovesOnce(log);
  }

  /** So does one in which a second admission breaks exclusion. */
  lemma {:induction false} SecondAdmissionShares() returns (log: seq<Move>)
    ensures Exec(START, log).Some? && Shared(log, |log|)
  {
    hide Exec;
    NoMoves();
    var s: State;
    log, s := OneMore([], START, Spawn);
    log, s := OneMore(log, s, Arm);
    log, s := OneMore(log, s, Connect);
    log, s := OneMore(log, s, SendReady);
    log, s := OneMore(log, s, GiveUp);
    log, s := OneMore(log, s, Readmit);
    assert log[..|log|] == log;
  }

  lemma {:induction false} Greeted() returns (log: seq<Move>, s: State)
    ensures Exec(START, log) == Some(s) && AsksOnce(log) && s.incumbent.AwaitingReady? && s.successor.Readied?
    ensures s.toIncumbent == [READY] && s.toSuccessor == []
  {
    hide Exec;
    NoMoves();
    log, s := OneMore([], START, Spawn);
    log, s := OneMore(log, s, Arm);
    log, s := OneMore(log, s, Connect);
    log, s := OneMore(log, s, SendReady);
    log, s := OneMore(log, s, Accept);
    log, s := OneMore(log, s, Time);
  }

  /** Both sides play their parts up to LIVE, which has not arrived. */
  lemma {:induction false} Admitted() returns (log: seq<Move>, s: State)
    ensures Exec(START, log) == Some(s) && AsksOnce(log) && SendLive in log && s.incumbent.AwaitingLive?
    ensures s.successor.Live?
  {
    log, s := Greeted();
    log, s := OneMore(log, s, TakeReady);
    log, s := OneMore(log, s, SendActivate);
    assert s.toSuccessor == [ACTIVATE];
    log, s := OneMore(log, s, TakeActivate);
    log, s := OneMore(log, s, SendLive);
  }

  // ---------------------------------------------------------------- the two programs

  datatype HandoffResult = Relinquish | Error

  class Session {
    var s: State
    /** The rendezvous that the successor was started with; the first admission takes it. */
    var gate: bool
    ghost var log: seq<Move>

    ghost predicate Valid()
      reads this
    {
      Exec(START, log) == Some(s) && Socket(s) && Stages(s)
    }

    constructor ()
      ensures Valid() && s == START && gate
    {
      s, gate, log := START, true, [];
      new;
      RunKeeps([]);
    }

    method Step(m: Move)
      requires Valid() && Enabled(s, m)
      modifies this`s, this`log
      ensures Valid() && s == Apply(old(s), m) && log == old(log) + [m]
    {
      if ByIncumbent(m) {
        IncumbentMoveKeeps(s, m);
      } else {
        SuccessorMoveKeeps(s, m);
      }
      assert (log + [m])[..|log|] == log;
      s := Apply(s, m);
      log := log + [m];
    }

    /** The successor runs on while the incumbent waits. */
    method SuccessorRuns()
      requires Valid()
      modifies this`s, this`log
      ensures Valid() && s.incumbent == old(s.incumbent) && s.activateSent == old(s.activateSent)
      ensures old(s.linked) ==> s.linked
    {
      var n: nat :| true;
      for i := 0 to n
        invariant Valid() && s.incumbent == old(s.incumbent) && s.activateSent == old(s.activateSent)
        invariant old(s.linked) ==> s.linked
      {
        var m: Move := *;
        if !ByIncumbent(m) && Enabled(s, m) {
          Step(m);
        }
      }
    }

    /** The incumbent runs on while the successor waits. */
    method IncumbentRuns()
      requires Valid() && !s.successor.Absent?
      modifies this`s, this`log
      ensures Valid() && s.successor == old(s.successor)
    {
      var n: nat :| true;
      for i := 0 to n
        invariant Valid() && s.successor == old(s.successor)
      {
        var m: Move := *;
        if ByIncumbent(m) && Enabled(s, m) {
          Step(m);
        }
      }
    }

    /** Waits for a gate byte; there may be none in time, or another. */
    method ExpectGateByte(expected: byte, take: Move) returns (ok: bool)
      requires Valid() && ((take.TakeReady? && expected == READY && s.incumbent.AwaitingReady?) || (take.TakeLive? &&
          expected == LIVE && s.incumbent.AwaitingLive?))
      modifies this`s, this`log
      ensures Valid()
      ensures ok ==> s.incumbent == if take.TakeReady? then Activating else Relinquished
      ensures !ok ==> s.incumbent == old(s.incumbent)
    {
      SuccessorRuns();
      var late: bool := *;
      if late || s.toIncumbent == [] || s.toIncumbent[0] != expected {
        return false;
      }
      Step(take);
      ok := true;
    }

    /** Polls for the connection until it comes, the child ends, the deadline passes or polling fails. */
    method AwaitConnection() returns (ok: bool)
      requires Valid() && s.incumbent.Accepting?
      modifies this`s, this`log
      ensures Valid() && s.incumbent == if ok then Accepted else Accepting
    {
      var polls: nat :| true;
      for i := 0 to polls
        invariant Valid() && s.incumbent.Accepting?
      {
        SuccessorRuns();
        var broken: bool := *;
        if broken {
          return false;
        }
        if s.linked {
          Step(Accept);
          return true;
        }
        if s.successor.Dead? {
          return false;
        }
      }
      ok := false;
    }

    /** Waits for READY, sends ACTIVATE and waits for LIVE. */
    method FinishHandoff() returns (ok: bool)
      requires Valid() && s.incumbent.Accepting?
      modifies this`s, this`log
      ensures Valid() && s.incumbent == if ok then Relinquished else Aborting
    {
      ok := AwaitConnection();
      var remaining: bool := *;
      if ok && remaining {
        Step(Time);
        ok := ExpectGateByte(READY, TakeReady);
        var written: bool := *;
        if ok && written {
          Step(SendActivate);
          ok := ExpectGateByte(LIVE, TakeLive);
        } else {
          ok := false;
        }
      } else {
        ok := false;
      }
      if !ok {
        Step(Fail);
      }
    }

    /** Kills the child unless it has ended, and waits for its end. */
    method AbortSuccessor()
      requires Valid() && s.incumbent.Aborting?
      modifies this`s, this`log
      ensures Valid() && s.incumbent.Retained? && s.successor.Dead?
    {
      SuccessorRuns();
      if !s.successor.Dead? {
        Step(Exit);
      }
      Step(Reap);
    }

    /** Launches the child and sees the handoff through. */
    method TryHandoff() returns (ok: bool)
      requires Valid() && s.incumbent.Preparing?
      modifies this`s, this`log
      ensures Valid() && s.incumbent == if ok then Relinquished else Retained
    {
      var spawned: bool, representable: bool := *, *;
      if !spawned {
        Step(FailToSpawn);
        return false;
      }
      Step(Spawn);
      SuccessorRuns();
      if !representable {
        Step(Overflow);
        return false;
      }
      Step(Arm);
      ok := FinishHandoff();
      if !ok {
        AbortSuccessor();
      }
    }

    /** The incumbent's side. An error return leaves no successor that can ever be admitted. */
    method HandoffUnix() returns (r: HandoffResult)
      requires Valid() && s.incumbent.Preparing?
      modifies this`s, this`log
      ensures Valid()
      ensures r.Relinquish? ==> s.incumbent.Relinquished? && s.activated && s.liveSent && !IncumbentOwns(s)
      ensures r.Error? ==> s.incumbent.Retained? && Barred(s) && IncumbentOwns(s)
      ensures r.Error? && AsksOnce(log) ==> !SuccessorOwns(s)
    {
      var ok := TryHandoff();
      r := if ok then Relinquish else Error;
      if AsksOnce(log) {
        MutualExclusion(log);
      }
    }

    /** The successor's side: it may go on to read the public stream when this returns without an
        error. The first call takes the rendezvous; a later one finds none and returns at once, which
        shares the session if the first was refused. */
    method AdmitSuccessor() returns (ok: bool)
      requires Valid() && (if gate then s.successor.Hydrating?
          else s.successor.Live? || s.successor.Refused? || s.successor.Ungated?)
      modifies this
      ensures Valid() && !gate && (ok <==> SuccessorOwns(s))
      ensures old(gate) ==> s.successor == (if ok then Live else Refused)
      ensures old(gate) && ok ==> s.activated && s.liveSent && !IncumbentOwns(s)
      ensures !old(gate) ==> ok && s == (if old(s.successor.Refused?) then Apply(old(s), Readmit) else old(s))
      ensures !old(gate) && old(s.successor.Refused?) ==> IncumbentOwns(s) == old(IncumbentOwns(s))
    {
      if !gate {
        if s.successor.Refused? {
          Step(Readmit);
        }
        return true;
      }
      gate := false;
      IncumbentRuns();
      var connected: bool, written: bool := *, *;
      if !s.listening || !connected {
        Step(GiveUp);
        return false;
      }
      Step(Connect);
      IncumbentRuns();
      if !written {
        Step(GiveUp);
        return false;
      }
      ok := AwaitActivation();
    }

    /** Reports readiness, waits for ACTIVATE and answers LIVE. */
    method AwaitActivation() returns (ok: bool)
      requires Valid() && s.successor.Connected?
      modifies this`s, this`log
      ensures Valid() && s.successor == if ok then Live else Refused
    {
      Step(SendReady);
      IncumbentRuns();
      var late: bool, answered: bool := *, *;
      if late || s.toSuccessor == [] || s.toSuccessor[0] != ACTIVATE {
        Step(GiveUp);
        return false;
      }
      Step(TakeActivate);
      IncumbentRuns();
      if !answered {
        Step(GiveUp);
        return false;
      }
      Step(SendLive);
      ok := true;
    }
  }
}
