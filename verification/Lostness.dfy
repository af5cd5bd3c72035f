/** Runs of the supervisor that lose a session for good, one for each way to lose it, and one that
    drops a nested request: every step is a handler's, in a world in which no send fails. */
module Lostness {
  import opened Wire
  import opened Replay
  import opened Kernel
  import opened KernelInvariant
  import opened Journal
  import opened Authority
  import opened Control
  import opened ControlSteps
  import opened HostLaws
  import opened Supervision
  import opened Revival
  import opened Sessions

  /** Every private request gets through. */
  function Always(): nat -> bool {
    (n: nat) => true
  }

  /** The worker that serves alone is lost. */
  method Bereave(s: Supervisor)
    requires s.reliable && s.Holds([]) && Quiet(s.View()) && s.ActiveToken() == Some(1) && s.candidate.None?
    requires s.host.k.phase.Live? && s.host.k.pending == map[]
    modifies s, s.kernel
    ensures s.Holds([]) && Quiet(s.View()) && s.active.None? && s.candidate.None? && s.phase.Recovering?
    ensures s.host.k.phase.Live? && s.host.book == old(s.host).book && s.published == old(s.published)
    ensures s.nextInternal == old(s.nextInternal) && s.nextWorker == old(s.nextWorker)
  {
    hide Base, Sound, Quiet, Run.Accepted, AllSealed;
    ghost var v := s.View();
    var ok := s.HandleWorkerLoss(1);
    LossOfCalm(v);
  }

  /** A session that was live, but not for long enough to have a catalog. */
  method StrandedRun(reading: Reading, initial: Release, script: Script) returns (s: Supervisor)
    requires Plays(script, reading)
    ensures s.Holds([]) && Quiet(s.View()) && Stranded(s.View())
  {
    hide Base, Sound;
    s := GoLive(reading, Always(), initial, script);
    Bereave(s);
  }

  /** A session whose only transition is outside the journal is lost with its worker. */
  method SeveredRun(reading: Reading, initial: Release, script: Script) returns (s: Supervisor)
    requires Plays(script, reading) && Keeps(script, Checkpointed)
    ensures s.Holds([]) && Quiet(s.View()) && Severed(s.View()) && !Stranded(s.View()) && !Fallen(s.View())
  {
    hide Base, Sound, Run.Accepted, AllSealed;
    s := Work(reading, Always(), initial, script);
    Bereave(s);
  }

  /** A session with one journaled transition that has lost its worker. */
  method Bereft(reading: Reading, initial: Release, script: Script, text: Name) returns (s: Supervisor)
    requires Plays(script, reading) && Keeps(script, Journaled(Constant(text))) && |script.call| <= MAX_BYTES
    ensures fresh(s) && fresh(s.kernel) && fresh(s.journal) && s.reading == reading
    ensures s.reliable && s.arrives == Always()
    ensures s.Holds([]) && Quiet(s.View()) && Awaits(s.View()) && !Hopeless(s.View())
    ensures s.host.k.phase.Live? && |s.host.book.entries| == 1 && s.nextInternal == 1 && s.nextWorker == 1
    ensures s.published == Some(script.catalog)
  {
    hide Base, Sound, Run.Accepted, AllSealed;
    s := Journaling(reading, Always(), initial, script, text);
    Bereave(s);
  }

  /** Its recovery candidate has been sent the journal entry. */
  method Refilling(reading: Reading, initial: Release, peer: Peer, script: Script, text: Name) returns (s: Supervisor)
    requires Plays(script, reading) && Speaks(peer, reading) && Keeps(script, Journaled(Constant(text)))
    requires |script.call| <= MAX_BYTES
    ensures fresh(s) && fresh(s.kernel) && fresh(s.journal) && s.reading == reading && s.reliable
    ensures s.Holds([]) && Quiet(s.View()) && Engaged(s.View(), Restoring, RestoreJournal(0)) && s.active.None?
    ensures s.phase.Draining? && s.CanSend(s.nextInternal) && !Severed(s.View()) && !Stranded(s.View())
  {
    hide Base, Sound, Quiet, Supervisor.EndsOver;
    s := Bereft(reading, initial, script, text);
    var ok := Greet(s, peer);
    s.Reached();
    LostIsHandable(s.View());
    ok := Align(s, peer);
    RestoringDrains(s.View());
  }

  /** The recovery candidate refuses the journal entry that it is sent: the session is lost, with its
      phase left at draining. */
  method FallenRun(reading: Reading, initial: Release, peer: Peer, script: Script, text: Name) returns (s: Supervisor)
    requires Plays(script, reading) && Speaks(peer, reading) && Keeps(script, Journaled(Constant(text)))
    requires |script.call| <= MAX_BYTES
    ensures s.Holds([]) && Quiet(s.View()) && Fallen(s.View()) && s.phase.Draining? && !Severed(s.View())
    ensures !Stranded(s.View())
  {
    hide Base, Sound, Quiet;
    s := Refilling(reading, initial, peer, script, text);
    var ok := Reply(s, peer.answer(s.candidate.value.worker.token, s.nextInternal, true), Restoring, RestoreJournal(0),
      true);
  }

  /** The recovery candidate shows another catalog, and then something that cannot be read, while the
      client is given time to ask: the session is lost, with its phase left at that. */
  method FallenWhileAnnounced(reading: Reading, initial: Release, peer: Peer, script: Script, text: Name,
      other: Payload, garbage: Payload) returns (s: Supervisor)
    requires Plays(script, reading) && Speaks(peer, reading) && Keeps(script, Journaled(Constant(text)))
    requires |script.call| <= MAX_BYTES
    requires other != script.catalog.canonical && reading.parse(garbage).None?
    ensures s.Holds([]) && Quiet(s.View()) && Fallen(s.View()) && s.phase.AwaitingCatalogRefresh?
    ensures !Severed(s.View()) && !Stranded(s.View())
  {
    hide Base, Sound, Supervisor.EndsOver;
    s := Bereft(reading, initial, script, text);
    var ok := Greet(s, peer);
    ghost var catalog;
    ok, catalog := ShowCatalog(s, peer, other);
    ok := s.HandleWorkerPayload(s.candidate.value.worker.token, garbage);
  }

  // ---------------------------------------------------------------- a nested request that comes late

  /** A session with one journaled transition is being handed to a new release: the first entry is out. */
  method HandingOver(reading: Reading, initial: Release, news: Release, peer: Peer, script: Script,
      text: Name) returns (s: Supervisor)
    requires Plays(script, reading) && Speaks(peer, reading) && Keeps(script, Journaled(Constant(text)))
    requires |script.call| <= MAX_BYTES
    requires IsNews(news, initial, None)
    ensures fresh(s) && fresh(s.kernel) && fresh(s.journal) && s.reading == reading
    ensures s.reliable && s.arrives == Always()
    ensures s.Holds([]) && Quiet(s.View()) && Engaged(s.View(), Restoring, RestoreJournal(0))
    ensures s.ActiveToken() == Some(1) && |s.host.book.entries| == 1 && s.nextInternal < 10 && s.nextCallback < 10
  {
    hide Base, Sound, Quiet;
    s := Prepared(reading, Always(), initial, news, peer, script, text);
    var ok := Align(s, peer);
  }

  /** The incumbent asks the client something while the journal is on its way: its successor takes over
      all the same, and the question is dropped unanswered. */
  method LateNestedRun(reading: Reading, initial: Release, news: Release, peer: Peer, script: Script, text: Name,
      ask: Payload, asked: RequestId, m: Method)
    returns (s: Supervisor, ghost id: RequestId, ghost j: nat)
    requires Plays(script, reading) && Speaks(peer, reading) && Keeps(script, Journaled(Constant(text)))
    requires |script.call| <= MAX_BYTES
    requires IsNews(news, initial, None) && reading.parse(ask) == Some(Request(asked, m))
    ensures s.Chronicled() && j < |s.run.acts| && s.run.acts[j].Activate? && s.run.states[j].seat.active == Some(1)
    ensures id in s.run.states[j].seat.nested && s.run.states[j + 1].seat.nested == {}
  {
    hide Base, Sound, Quiet;
    s := HandingOver(reading, initial, news, peer, script, text);
    var ok := s.HandleWorkerPayload(1, ask);
    id := RequestId.Callback(s.nextCallback);
    OpenIsNested(s.View(), id);
    ghost var before := s.run;
    ghost var token := s.candidate.value.worker.token;
    ok := Acknowledge(s, peer, Restoring, RestoreJournal(0));
    j := OpenAtActivation(before, s.run, id, token);
  }

  lemma {:induction false} OpenIsNested(v: View, id: RequestId)
    requires Sound(v, []) && id in v.callbacks
    ensures id in v.host.seat.nested && v.host.seat.active == TokenOf(v.active)
  {
  }
}
