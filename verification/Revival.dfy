/** Whether a session that has lost its worker ever gets another one: exactly when it is not hopeless.
    Runs of the supervisor in a reliable world, each made of events that its handlers take. */
module Revival {
  import opened Wire
  import opened Replay
  import opened Kernel
  import opened KernelInvariant
  import opened Journal
  import opened Authority
  import opened Control
  import opened ControlSteps
  import opened Supervision

  /** How a worker writes its answers to the private requests of the host, which are numbered. */
  datatype Peer = Peer(answer: (nat, nat, bool) -> Payload, listing: (nat, nat, Payload) -> Payload)

  ghost predicate Lists(payload: Payload, id: RequestId, canonical: Payload, reading: Reading) {
    && reading.parse(payload) == Some(Response(id, false))
    && reading.catalog(Frame(payload, Response(id, false))).Some?
    && reading.catalog(Frame(payload, Response(id, false))).value.canonical == canonical
  }

  /** Any answer, and any catalog, can be written so that the supervisor reads it back. */
  ghost predicate Speaks(peer: Peer, reading: Reading) {
    && (forall w: nat, n: nat, e :: reading.parse(peer.answer(w, n, e)) == Some(Response(RequestId.Internal(w, n), e)))
    && (forall w: nat, n: nat, canonical ::
        Lists(peer.listing(w, n, canonical), RequestId.Internal(w, n), canonical, reading))
  }

  lemma {:induction false} LostIsHandable(v: View)
    requires Sound(v, []) && HostInv(v.host) && v.active.None? && !v.host.book.sealed
    ensures Handable(v) && Quiet(v)
  {
  }

  /** A lost session that a new worker can still be prepared for. */
  ghost predicate Awaits(v: View) {
    && v.active.None? && v.candidate.None? && v.phase.Recovering?
    && (v.host.k.phase.Live? ==> v.published.Some? && !v.host.book.sealed)
  }

  lemma {:induction false} HopefulAwaits(v: View)
    requires Sound(v, []) && v.active.None? && !Hopeless(v)
    ensures v.candidate.None? ==> Awaits(v)
    ensures v.candidate.Some? ==> v.candidate.value.purpose.Recovery? && Awaits(AfterStartingOver(AfterRejection(v)))
  {
  }

  /** The private request that the candidate owes an answer to. */
  function Asked(v: View): RequestId
    requires v.candidate.Some?
  {
    RequestId.Internal(v.candidate.value.worker.token, v.serial)
  }

  /** The private requests after these numbers can be numbered, and get through. */
  ghost predicate Clears(s: Supervisor, lo: nat, hi: nat) {
    forall n: nat :: lo <= n < hi ==> s.CanSend(n)
  }

  /** The candidate answers its private request with this payload. */
  method Reply(s: Supervisor, payload: Payload, ghost stage: Stage, ghost action: InternalAction,
      ghost hasError: bool) returns (ok: bool)
    requires s.Holds([]) && Quiet(s.View()) && s.reliable && Engaged(s.View(), stage, action)
    requires s.reading.parse(payload) == Some(Response(Asked(s.View()), hasError))
    modifies s, s.kernel, s.journal
    ensures s.Chronicled() && (ok ==> s.Holds([]) && Quiet(s.View())) && old(s.run.acts) <= s.run.acts
    ensures s.CanSend(old(s.nextInternal)) ==> (
      Proceeds(old(s.View()), old(s.run.acts), action, hasError,
          s.reading.catalog(Frame(payload, Response(Asked(old(s.View())), hasError))), ok, s.View(), s.run.acts))
    ensures ok <==> !s.EndsOver(old(s.View()), action, hasError,
        s.reading.catalog(Frame(payload, Response(Asked(old(s.View())), hasError))))
  {
    hide Proceeds, Base, Sound, Quiet, Supervisor.EndsOver;
    ok := s.HandleWorkerPayload(s.candidate.value.worker.token, payload);
  }

  /** The candidate acknowledges its private request. */
  method Acknowledge(s: Supervisor, peer: Peer, ghost stage: Stage, ghost action: InternalAction) returns (ok: bool)
    requires s.Holds([]) && Quiet(s.View()) && s.reliable && Engaged(s.View(), stage, action)
    requires !action.CandidateCatalog? && Speaks(peer, s.reading)
    modifies s, s.kernel, s.journal
    ensures s.Chronicled() && (ok ==> s.Holds([]) && Quiet(s.View())) && old(s.run.acts) <= s.run.acts
    ensures s.CanSend(old(s.nextInternal)) ==>
        exists catalog :: Proceeds(old(s.View()), old(s.run.acts), action, false, catalog, ok, s.View(), s.run.acts)
    ensures ok <==> !s.EndsOver(old(s.View()), action, false, None)
  {
    hide Proceeds, Base, Sound, Quiet;
    var payload := peer.answer(s.candidate.value.worker.token, s.nextInternal, false);
    ok := Reply(s, payload, stage, action, false);
  }

  /** The candidate shows a catalog with this public form. */
  method ShowCatalog(s: Supervisor, peer: Peer, canonical: Payload) returns (ok: bool, ghost catalog: Catalog)
    requires s.Holds([]) && Quiet(s.View()) && s.reliable && Speaks(peer, s.reading)
    requires Engaged(s.View(), AwaitingCatalog, CandidateCatalog)
    modifies s, s.kernel, s.journal
    ensures s.Chronicled() && (ok ==> s.Holds([]) && Quiet(s.View())) && old(s.run.acts) <= s.run.acts
    ensures catalog.canonical == canonical
    ensures s.CanSend(old(s.nextInternal)) ==> (
      Proceeds(old(s.View()), old(s.run.acts), CandidateCatalog, false, Some(catalog), ok, s.View(), s.run.acts))
    ensures ok <==> !s.EndsOver(old(s.View()), CandidateCatalog, false, Some(catalog))
  {
    hide Proceeds, Base, Sound, Quiet, Supervisor.EndsOver;
    var id := RequestId.Internal(s.candidate.value.worker.token, s.nextInternal);
    var payload := peer.listing(s.candidate.value.worker.token, s.nextInternal, canonical);
    assert Lists(payload, id, canonical, s.reading);
    catalog := s.reading.catalog(Frame(payload, Response(id, false))).value;
    ok := Reply(s, payload, AwaitingCatalog, CandidateCatalog, false);
  }

  /** A recovery candidate is launched and asked to initialize. */
  method Launch(s: Supervisor)
    requires s.Holds([]) && Quiet(s.View()) && s.reliable && Awaits(s.View())
    requires s.CanSend(s.nextInternal) && s.nextWorker < COUNTER_MAX
    requires s.host.k.phase.AwaitingInitialized? || s.host.k.phase.Live?
    modifies s, s.kernel
    ensures s.Holds([]) && Quiet(s.View()) && old(s.run.acts) <= s.run.acts
    ensures Waits(old(s.View()), s.View(), AwaitingInitialize, CandidateInitialize)
    ensures s.candidate.value.worker.token == s.nextWorker
  {
    hide Base, Sound, Quiet, Supervisor.CannotBegin;
    var ok := s.OnTick(false, true, None);
  }

  /** The recovery candidate of a live session is launched and gets through the handshake. */
  method Greet(s: Supervisor, peer: Peer) returns (ok: bool)
    requires s.Holds([]) && Quiet(s.View()) && s.reliable && Awaits(s.View()) && Speaks(peer, s.reading)
    requires s.CanSend(s.nextInternal) && s.CanSend(s.nextInternal + 1)
    requires s.nextWorker < COUNTER_MAX && s.host.k.phase.Live?
    modifies s, s.kernel, s.journal
    ensures ok && s.Holds([]) && Quiet(s.View()) && old(s.run.acts) <= s.run.acts
    ensures SameSession(old(s.View()), s.View()) && s.nextInternal == old(s.nextInternal) + 2
    ensures Engaged(s.View(), AwaitingCatalog, CandidateCatalog)
  {
    hide Base, Sound, Quiet, Supervisor.EndsOver;
    Launch(s);
    ok := Acknowledge(s, peer, AwaitingInitialize, CandidateInitialize);
  }

  /** The worker that serves now has been handed everything that was queued. */
  ghost predicate Resumed(v: View) {
    v.active.Some? && Relieved(v.active.value.token, v)
  }

  /** It shows the same catalog, and is sent the first journal entry if there is one. */
  method Align(s: Supervisor, peer: Peer) returns (ok: bool)
    requires s.Holds([]) && Quiet(s.View()) && s.reliable && Speaks(peer, s.reading) && s.CanSend(s.nextInternal)
    requires Engaged(s.View(), AwaitingCatalog, CandidateCatalog) && Handable(s.View()) && s.published.Some?
    modifies s, s.kernel, s.journal
    ensures s.Chronicled() && (ok ==> s.Holds([]) && Quiet(s.View())) && old(s.run.acts) <= s.run.acts
    ensures if old(s.host).book.entries == [] then ok && Activated(old(s.run.acts), s.run.acts) && Resumed(s.View())
            else ok && Waits(old(s.View()), s.View(), Restoring, RestoreJournal(0))
  {
    hide Base, Sound, Quiet, Supervisor.EndsOver;
    ghost var catalog;
    ok, catalog := ShowCatalog(s, peer, s.published.value.canonical);
  }

  /** It acknowledges the journal entries from this one on, and is activated. */
  method Absorb(s: Supervisor, peer: Peer, index: nat) returns (ok: bool)
    requires s.Holds([]) && Quiet(s.View()) && s.reliable && Speaks(peer, s.reading)
    requires index < |s.host.book.entries|
    requires Clears(s, s.nextInternal, s.nextInternal + |s.host.book.entries| - index)
    requires Engaged(s.View(), Restoring, RestoreJournal(index))
    modifies s, s.kernel, s.journal
    ensures s.Chronicled() && old(s.run.acts) <= s.run.acts && Activated(old(s.run.acts), s.run.acts)
    ensures ok && Resumed(s.View())
    decreases |s.host.book.entries| - index
  {
    hide Base, Sound, Quiet, Supervisor.EndsOver;
    ghost var acts := s.run.acts;
    ghost var token := s.candidate.value.worker.token;
    var more := index + 1 < |s.journal.entries|;
    assert s.CanSend(s.nextInternal);
    ok := Acknowledge(s, peer, Restoring, RestoreJournal(index));
    if !more {
      AckActivates(acts, token, s.run.acts);
    } else {
      PrefixActivations(acts, s.run.acts);
      ok := Absorb(s, peer, index + 1);
    }
  }

  /** A live session that is not hopeless, and for which nothing is under way, is given a worker. */
  method ReviveLive(s: Supervisor, peer: Peer) returns (ok: bool)
    requires s.Holds([]) && Quiet(s.View()) && s.reliable && Awaits(s.View()) && Speaks(peer, s.reading)
    requires Clears(s, s.nextInternal, s.nextInternal + |s.host.book.entries| + 3) && s.nextWorker < COUNTER_MAX
    requires s.host.k.phase.Live?
    modifies s, s.kernel, s.journal
    ensures s.Chronicled() && old(s.run.acts) <= s.run.acts && Activated(old(s.run.acts), s.run.acts)
    ensures ok && Resumed(s.View())
  {
    hide Base, Sound, Quiet, Engaged, Handable;
    ghost var acts := s.run.acts;
    ghost var n := s.nextInternal;
    assert s.CanSend(n) && s.CanSend(n + 1) && s.CanSend(n + 2);
    ok := Greet(s, peer);
    PrefixActivations(acts, s.run.acts);
    s.Reached();
    LostIsHandable(s.View());
    ghost var aligned := s.run.acts;
    var journaled := s.journal.entries != [];
    ok := Align(s, peer);
    PrefixActivations(aligned, s.run.acts);
    if journaled {
      ok := Absorb(s, peer, 0);
    }
  }

  /** A session whose handshake is still open starts over, or hands it to the new worker as it is; the
      host ends then if a catalog request waits. */
  method ReviveEarly(s: Supervisor, peer: Peer) returns (ok: bool)
    requires s.Holds([]) && Quiet(s.View()) && s.reliable && Awaits(s.View()) && Speaks(peer, s.reading)
    requires s.CanSend(s.nextInternal) && s.CanSend(s.nextInternal + 1)
    requires s.nextWorker < COUNTER_MAX && !s.host.k.phase.Live?
    modifies s, s.kernel, s.journal
    ensures s.Chronicled() && old(s.run.acts) <= s.run.acts && Activated(old(s.run.acts), s.run.acts)
    ensures old(s.host).k.phase.AwaitingInitialized? ==> (ok <==> !CatalogWaits(old(s.host).k))
  {
    hide Base, Sound, Quiet, CatalogWaits, Supervisor.CannotBegin;
    if s.kernel.phase.AwaitingInitialized? {
      ghost var acts := s.run.acts;
      Launch(s);
      PrefixActivations(acts, s.run.acts);
      ok := Acknowledge(s, peer, AwaitingInitialize, CandidateInitialize);
    } else {
      ghost var acts := s.run.acts;
      ok := s.OnTick(false, true, None);
      ActivatedBy(acts, s.nextWorker, s.run.acts);
    }
  }

  /** The converse of hopelessness: from every other state of a session that has lost its worker, some
      continuation activates a worker, whatever the candidate was doing. With what every event keeps
      (Supervisor.HandleEvent), a lost session has a future exactly when it is not hopeless. The
      worker of a live session is handed all that was queued meanwhile. */
  method Revive(s: Supervisor, peer: Peer) returns (ok: bool)
    requires s.Holds([]) && Quiet(s.View()) && s.reliable && s.active.None? && !Hopeless(s.View())
    requires Speaks(peer, s.reading)
    requires Clears(s, s.nextInternal, s.nextInternal + |s.host.book.entries| + 3) && s.nextWorker < COUNTER_MAX
    modifies s, s.kernel, s.journal
    ensures s.Chronicled() && old(s.run.acts) <= s.run.acts && Activated(old(s.run.acts), s.run.acts)
    ensures old(s.host).k.phase.Live? ==> ok && Resumed(s.View())
    ensures old(s.host).k.phase.AwaitingInitialized? ==> (ok <==> !CatalogWaits(old(s.host).k))
  {
    hide Base, Sound, Quiet, CatalogWaits, Resumed;
    ghost var acts := s.run.acts;
    HopefulAwaits(s.View());
    if s.candidate.Some? {
      ok := s.HandleWorkerLoss(s.candidate.value.worker.token);
    }
    PrefixActivations(acts, s.run.acts);
    assert s.CanSend(s.nextInternal) && s.CanSend(s.nextInternal + 1);
    if s.kernel.phase.Live? {
      ok := ReviveLive(s, peer);
    } else {
      ok := ReviveEarly(s, peer);
    }
  }
}
