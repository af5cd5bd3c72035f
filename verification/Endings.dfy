/** Runs of the supervisor that end the host although its workers are well, a run that stalls, and runs
    with an unexpected journal: every step is a handler's. */
module Endings {
  import opened Wire
  import opened Replay
  import opened Kernel
  import opened KernelInvariant
  import opened Journal
  import opened Authority
  import opened Control
  import opened ControlSteps
  import opened Supervision
  import opened Revival
  import opened Sessions

  // ---------------------------------------------------------------- runs that end the host

  lemma {:induction false} WaitingThroughLoss(v: View, f: Frame)
    requires v.host.k.phase.AwaitingInitialized? && v.host.k.pending == map[] && v.host.k.queue == [f]
    requires AsksCatalog(f) && v.host.Permits(Lose)
    ensures AfterLoss(v).host.k.phase.AwaitingInitialized? && CatalogWaits(AfterLoss(v).host.k)
  {
    assert f in KernelAfter(v.host.k, Lose).queue;
  }

  lemma {:induction false} QueuedAlone(k: State, f: Frame)
    requires Calm(k, AwaitingInitialized, 1) && AsksCatalog(f)
    ensures k.Observe(f) == Step(k, Ok(())) && KernelAfter(k, Queue(f)) == k.(queue := [f])
  {
  }

  /** The client asks for the catalog before it confirms the handshake; then the worker is lost. */
  method Waiting(reading: Reading, initial: Release, script: Script, list: Payload, id: RequestId)
    returns (s: Supervisor)
    requires Plays(script, reading) && reading.parse(list) == Some(Request(id, ToolsList))
    ensures fresh(s) && fresh(s.kernel) && fresh(s.journal) && s.reading == reading && s.reliable && s.CanSend(0)
    ensures s.Holds([]) && Quiet(s.View()) && Awaits(s.View()) && s.nextInternal == 0 && s.nextWorker == 1
    ensures s.host.k.phase.AwaitingInitialized? && CatalogWaits(s.host.k)
  {
    hide Base, Sound, Quiet, Run.Accepted, AllSealed, CatalogWaits, Supervisor.EndsOver;
    s := Begin(reading, (n: nat) => true, initial, script);
    var ok := Welcome(s, initial, script);
    ghost var f := Frame(list, Request(id, ToolsList));
    QueuedAlone(s.host.k, f);
    ok := s.HandleClientPayload(list);
    ghost var v := s.View();
    ok := s.HandleWorkerLoss(1);
    WaitingThroughLoss(v, f);
  }

  /** The recovery of such a session is well until the candidate has answered the handshake; then the
      host ends. */
  method EarlyCatalogRun(reading: Reading, initial: Release, peer: Peer, script: Script, list: Payload, id: RequestId)
    returns (s: Supervisor, ok: bool)
    requires Plays(script, reading) && Speaks(peer, reading) && reading.parse(list) == Some(Request(id, ToolsList))
    ensures s.Chronicled() && s.reliable && !ok
  {
    hide Base, Sound, Quiet, CatalogWaits;
    s := Waiting(reading, initial, script, list, id);
    Launch(s);
    ok := Acknowledge(s, peer, AwaitingInitialize, CandidateInitialize);
  }

  /** A successor is ready, and the first journal entry does not get through: the host ends, although the
      incumbent is well. */
  method FirstEntryLostRun(reading: Reading, arrives: nat -> bool, initial: Release, news: Release, peer: Peer,
      script: Script, text: Name)
    returns (s: Supervisor, ok: bool)
    requires Plays(script, reading) && Speaks(peer, reading) && Keeps(script, Journaled(Constant(text)))
    requires |script.call| <= MAX_BYTES && IsNews(news, initial, None)
    requires arrives(1) && arrives(2) && arrives(3) && !arrives(4)
    ensures s.Chronicled() && s.reliable && !ok
  {
    hide Base, Sound, Quiet, Proceeds;
    s := Prepared(reading, arrives, initial, news, peer, script, text);
    ghost var catalog;
    ok, catalog := ShowCatalog(s, peer, script.catalog.canonical);
  }

  // ---------------------------------------------------------------- runs with an unexpected journal

  /** A prompt request that names a journaled tool is journaled. */
  method PromptRun(reading: Reading, initial: Release, script: Script, text: Name) returns (s: Supervisor)
    requires Plays(script, reading) && Keeps(script, Journaled(Constant(text))) && |script.call| <= MAX_BYTES
    requires script.rpc == ReadOnly(PromptsGet)
    ensures s.Holds([]) && Quiet(s.View())
    ensures s.journal.entries == [Entry(reading.scoped(script.tool, text), CallOf(script))]
  {
    hide Base, Sound, Quiet;
    s := Journaling(reading, (n: nat) => true, initial, script, text);
  }

  lemma {:induction false} DropAlone(e: Entry)
    ensures Drop([e], e.key) == []
  {
    assert [e][1..] == [];
  }

  /** A transition that does not fit costs the earlier entry under its key, and seals the journal. */
  method OversizedRun(reading: Reading, initial: Release, script: Script, text: Name, big: Payload)
    returns (s: Supervisor)
    requires Plays(script, reading) && Keeps(script, Journaled(Constant(text))) && |script.call| <= MAX_BYTES
    requires |big| > MAX_BYTES && Exchanges(reading, big, script.callId, script.rpc, script.done)
    requires reading.tool(Frame(big, Request(script.callId, script.rpc))) == Some(script.tool)
    ensures s.Holds([]) && Quiet(s.View())
    ensures |s.host.book.history| == 2 && s.journal.entries == [] && s.host.book.sealed
  {
    hide Base, Sound, Quiet, Serving, Calm;
    s := Journaling(reading, (n: nat) => true, initial, script, text);
    DropAlone(Entry(reading.scoped(script.tool, text), CallOf(script)));
    Exchange(s, initial, script.catalog, 2, big, script.callId, script.rpc, script.done);
  }

  // ---------------------------------------------------------------- a run that stalls

  /** While a successor is being prepared, the client makes a request. */
  method Meanwhile(s: Supervisor, ghost initial: Release, ghost catalog: Catalog, script: Script)
    requires Plays(script, s.reading) && Preparing(s, initial, catalog) && Calm(s.host.k, Live, 2)
    modifies s, s.kernel
    ensures Preparing(s, initial, catalog) && Busy(s.host.k, Live, 3, CallOf(script))
  {
    hide Base, Sound, Quiet, Run.Accepted, AllSealed;
    Called(s.host.k, 2, CallOf(script), Classify(s.reading, s.published, CallOf(script)));
    var ok := s.HandleClientPayload(script.call);
  }

  /** The last answer that the incumbent owes comes while it waits for the client's; when the client
      answers, nothing is left that would start the handover. */
  method StalledRun(reading: Reading, initial: Release, news: Release, peer: Peer, script: Script,
      ask: Payload, asked: RequestId, m: Method, reply: Payload)
    returns (s: Supervisor)
    requires Plays(script, reading) && Speaks(peer, reading) && IsNews(news, initial, None)
    requires reading.parse(ask) == Some(Request(asked, m))
    requires reading.parse(reply) == Some(Response(RequestId.Callback(1), false))
    ensures s.Holds([]) && Quiet(s.View()) && Stalled(s.View()) && s.callbacks == map[]
  {
    hide Base, Sound, Quiet, Run.Accepted, AllSealed, Supervisor.EndsOver, Supervisor.Bookkeeping, Serving, Engaged,
      Busy, Fenced;
    s := Work(reading, (n: nat) => true, initial, script);
    Prepare(s, initial, script.catalog, news, peer);
    Meanwhile(s, initial, script.catalog, script);
    Fence(s, initial, peer, script, ask, asked, m);
    Drain(s, script, reply);
  }

  /** Dispatch is closed for a successor that is ready; the incumbent has asked the client something. */
  ghost predicate Fenced(s: Supervisor)
    reads s, s.kernel, s.journal
  {
    && s.reliable && s.Holds([]) && Quiet(s.View()) && s.ActiveToken() == Some(1) && s.internal == map[]
    && s.phase.Draining? && s.candidate.Some? && s.candidate.value.stage.Ready? && !s.candidate.value.armed
    && s.callbacks.Keys == {RequestId.Callback(1)}
  }

  /** The incumbent asks the client something, and its successor shows the same catalog. */
  method Fence(s: Supervisor, ghost initial: Release, peer: Peer, script: Script, ask: Payload, ghost asked: RequestId,
      ghost m: Method)
    requires Speaks(peer, s.reading) && s.CanSend(3) && s.reading.parse(ask) == Some(Request(asked, m))
    requires Preparing(s, initial, script.catalog) && Busy(s.host.k, Live, 3, CallOf(script))
    modifies s, s.kernel, s.journal
    ensures Fenced(s) && Busy(s.host.k, Live, 3, CallOf(script))
  {
    hide Base, Sound, Quiet, Run.Accepted, AllSealed, Supervisor.EndsOver, Busy;
    var ok := s.HandleWorkerPayload(1, ask);
    assert RequestId.Callback(1) in s.callbacks;
    ghost var catalog;
    ok, catalog := ShowCatalog(s, peer, script.catalog.canonical);
  }

  /** The incumbent answers, and then the client. */
  method Drain(s: Supervisor, script: Script, reply: Payload)
    requires Plays(script, s.reading) && Fenced(s) && Busy(s.host.k, Live, 3, CallOf(script))
    requires s.reading.parse(reply) == Some(Response(RequestId.Callback(1), false))
    modifies s, s.kernel, s.journal
    ensures s.Holds([]) && Quiet(s.View()) && Stalled(s.View()) && s.callbacks == map[]
  {
    hide Base, Sound, Quiet, Run.Accepted, AllSealed, Supervisor.Bookkeeping;
    assert RequestId.Callback(1) in s.callbacks;
    CallAnswered(s.host.k, 3, CallOf(script), Frame(script.done, Response(script.callId, false)));
    var ok := s.HandleWorkerPayload(1, script.done);
    ok := s.HandleClientPayload(reply);
  }
}
