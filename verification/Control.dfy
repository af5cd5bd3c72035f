/** The supervisor's bookkeeping as values: workers, candidates, private requests and nested routes,
    the classification of client requests, and the invariant that ties all of it to the abstract
    host. The class in module Supervision updates these fields in place. */
module Control {
  import opened Wire
  import opened Replay
  import opened Kernel
  import opened KernelInvariant
  import opened Journal
  import opened Authority

  // ---------------------------------------------------------------- catalogs and releases

  datatype EffectRecovery = ReplaySafe | Deduplicated | ProbeRequired | AtMostOnce

  /** A journal key is a constant, or a pointer to a scalar field of the request. */
  datatype JournalKey = Constant(text: Name) | Pointer(path: Name)

  datatype StateContract = Stateless | Journaled(key: JournalKey) | Checkpointed | GenerationPinned

  datatype ToolContract = ToolContract(recovery: EffectRecovery, state: StateContract, keyPointer: Option<Name>)

  /** A catalog: the canonical bytes of its public projection, and its private contracts. */
  datatype Catalog = Catalog(canonical: Payload, contracts: map<Name, ToolContract>)

  datatype Compatibility = Unversioned | Versioned(readable: set<nat>, writable: nat)

  datatype Release = Release(generation: Name, state: Compatibility)

  predicate CanFollow(successor: Compatibility, incumbent: Compatibility) {
    match (successor, incumbent)
    case (Unversioned, Unversioned) => true
    case (Versioned(readable, _), Versioned(_, writable)) => writable in readable
    case _ => false
  }

  /** A release to prepare a successor for: a new one, not rejected before, that can read the incumbent's state. */
  predicate IsNews(release: Release, incumbent: Release, rejected: Option<Name>) {
    release.generation != incumbent.generation && rejected != Some(release.generation) &&
        CanFollow(release.state, incumbent.state)
  }

  /** The order of releases: a successor is one that was not seen or turned down before, and that reads
      what the incumbent writes. A release that keeps no state follows only another that keeps none. */
  lemma {:induction false} NewsIsExact(release: Release, incumbent: Release, rejected: Option<Name>)
    ensures IsNews(release, incumbent, rejected) <==> (
      && release.generation != incumbent.generation
      && (rejected.Some? ==> rejected.value != release.generation)
      && (release.state.Unversioned? <==> incumbent.state.Unversioned?)
      && (release.state.Versioned? && incumbent.state.Versioned? ==>
           incumbent.state.writable in release.state.readable))
  {
  }

  /** What the supervisor reads out of JSON text. Parsing itself is a parameter of the model. */
  datatype Reading = Reading(
    parse: Parser,
    tool: Frame -> Option<Name>,
    keyPresent: (Frame, Name) -> bool,
    scalar: (Frame, Name) -> Option<Name>,
    scoped: (Name, Name) -> Name,
    catalog: Frame -> Option<Catalog>,
    target: Frame -> Option<RequestId>,
    rewritten: (Frame, RequestId) -> Payload)

  function Projected(e: EffectRecovery): ReplayContract {
    match e
    case ReplaySafe => Convergent
    case Deduplicated => Convergent
    case ProbeRequired => ReplayContract.ProbeRequired
    case AtMostOnce => NeverReplay
  }

  function Classify(reading: Reading, catalog: Option<Catalog>, f: Frame): ReplayContract
    requires f.envelope.Request?
  {
    var m := f.envelope.rpc;
    if m.Initialize? || m.ReadOnly? || m.ToolsList? then Projected(ReplaySafe)
    else if !m.ToolsCall? then Projected(AtMostOnce)
    else
      match reading.tool(f)
      case None => Projected(AtMostOnce)
      case Some(tool) =>
        if catalog.None? || tool !in catalog.value.contracts then Projected(AtMostOnce)
        else
          var contract := catalog.value.contracts[tool];
          if contract.recovery.Deduplicated? &&
              !(contract.keyPointer.Some? && reading.keyPresent(f, contract.keyPointer.value)) then
            Projected(AtMostOnce)
          else if contract.recovery.ProbeRequired? then Projected(AtMostOnce)
          else Projected(contract.recovery)
  }

  predicate Convergently(reading: Reading, f: Frame, contract: ToolContract) {
    contract.recovery.ReplaySafe?
    || (contract.recovery.Deduplicated? && contract.keyPointer.Some? &&
        reading.keyPresent(f, contract.keyPointer.value))
  }

  /** Automatic repetition is granted to the standard read-only surfaces and to tool calls that the
      current catalog declares replay-safe, or deduplicated with their key present; everything else
      is at most once, and nothing is ever held for a probe. */
  lemma {:induction false} ClassificationGrants(reading: Reading, catalog: Option<Catalog>, f: Frame)
    requires f.envelope.Request?
    ensures !Classify(reading, catalog, f).ProbeRequired?
    ensures Classify(reading, catalog, f).Convergent? <==>
      || f.envelope.rpc.Initialize? || f.envelope.rpc.ReadOnly? || f.envelope.rpc.ToolsList?
      || (f.envelope.rpc.ToolsCall? && exists tool :: (
            && reading.tool(f) == Some(tool) && catalog.Some? && tool in catalog.value.contracts
            && Convergently(reading, f, catalog.value.contracts[tool])))
  {
    if f.envelope.rpc.ToolsCall? && reading.tool(f).Some? && catalog.Some? &&
        reading.tool(f).value in catalog.value.contracts {
      var contract := catalog.value.contracts[reading.tool(f).value];
      assert Classify(reading, catalog, f).Convergent? <==> Convergently(reading, f, contract);
    }
  }

  // ---------------------------------------------------------------- the supervisor's own state

  datatype Worker = Worker(token: nat, release: Release, catalog: Option<Catalog>)

  datatype Purpose = Rollover | Recovery

  datatype Stage = AwaitingInitialize | AwaitingCatalog | Ready | Restoring

  /** `armed` says that a deadline is set; whether it has passed is up to the clock. */
  datatype Candidate = Candidate(worker: Worker, purpose: Purpose, stage: Stage, armed: bool)

  datatype RolloverPhase = NoRollover | AwaitingCatalogRefresh | Draining | Recovering

  datatype InternalAction = ActiveCatalog | CandidateInitialize | CandidateCatalog | RestoreJournal(index: nat)

  datatype InternalRequest = InternalRequest(worker: nat, action: InternalAction)

  datatype CallbackRoute = CallbackRoute(worker: nat, original: RequestId)

  function TokenOf(w: Option<Worker>): Option<nat> {
    if w.Some? then Some(w.value.token) else None
  }

  function HeldId(refresh: Option<Frame>): Option<RequestId> {
    if refresh.Some? && refresh.value.envelope.Request? then Some(refresh.value.envelope.id) else None
  }

  /** The fields of the supervisor, together with the abstract host state its run has reached. */
  datatype View = View(
    host: Host,
    active: Option<Worker>,
    candidate: Option<Candidate>,
    published: Option<Catalog>,
    internal: map<RequestId, InternalRequest>,
    callbacks: map<RequestId, CallbackRoute>,
    phase: RolloverPhase,
    workers: nat,
    serial: nat,
    asked: nat,
    refresh: Option<Frame>,
    rejected: Option<Name>)

  // ---------------------------------------------------------------- the invariant

  /** The fields agree with the abstract host about who is who and what is owed. */
  predicate Seated(seat: Seat, active: Option<Worker>, candidate: Option<Candidate>, nested: set<RequestId>,
      phase: RolloverPhase, workers: nat) {
    && seat.active == TokenOf(active)
    && seat.heir.Some? == candidate.Some?
    && (candidate.Some? ==> seat.heir.value.token == candidate.value.worker.token)
    && seat.draining == phase.Draining?
    && seat.nested == nested
    && seat.born <= workers
  }

  predicate Owes(desk: Desk, due: seq<Due>, refresh: Option<Frame>) {
    desk == Desk(due, HeldId(refresh)) && (refresh.Some? ==> AsksCatalog(refresh.value))
  }

  /** Phase, stage and purpose fit together. */
  predicate Staged(phase: RolloverPhase, serving: bool, candidate: Option<Candidate>) {
    && (phase.NoRollover? ==> serving)
    && (phase.Recovering? ==> !serving)
    && (serving && candidate.None? ==> phase.NoRollover?)
    && (candidate.Some? ==>
         && candidate.value.purpose.Rollover? == serving
         && (candidate.value.stage.AwaitingInitialize? || candidate.value.stage.AwaitingCatalog? ==>
               phase == (if serving then NoRollover else Recovering))
         && (candidate.value.stage.Ready? ==> phase.AwaitingCatalogRefresh? || phase.Draining?)
         && (candidate.value.stage.Restoring? ==> phase.Draining?))
  }

  /** The public catalog is the active worker's; it, its refresh and the journal come with a live
      session; a candidate is prepared only for a session that can be replayed to it. */
  predicate Coherent(session: SessionPhase, book: Book, active: Option<Worker>, candidate: Option<Candidate>,
      published: Option<Catalog>, refresh: Option<Frame>) {
    && (published.Some? || refresh.Some? ==> session.Live?)
    && (published.None? ==> book.entries == [] && !book.sealed)
    && (active.Some? ==> active.value.catalog == published)
    && (candidate.Some? ==>
         && (session.AwaitingInitialized? || session.Live?)
         && (candidate.value.purpose.Rollover? ==> published.Some?)
         && (candidate.value.stage.AwaitingInitialize? || session.Live?)
         && ((candidate.value.stage.Ready? || candidate.value.stage.Restoring?) ==
             candidate.value.worker.catalog.Some?))
  }

  predicate AtMostOne(internal: map<RequestId, InternalRequest>) {
    forall a, b :: a in internal && b in internal ==> a == b
  }

  /** At most one private request is out, and it is the one that its worker's stage calls for. */
  predicate Errand(r: InternalRequest, seat: Seat, candidate: Option<Candidate>, session: SessionPhase,
      published: Option<Catalog>) {
    match r.action
    case ActiveCatalog => seat.active == Some(r.worker) && session.Live? && published.None?
    case CandidateInitialize => candidate.Some? && candidate.value.worker.token == r.worker &&
        candidate.value.stage.AwaitingInitialize?
    case CandidateCatalog => candidate.Some? && candidate.value.worker.token == r.worker &&
        candidate.value.stage.AwaitingCatalog?
    case RestoreJournal(i) =>
      && candidate.Some? && candidate.value.worker.token == r.worker && candidate.value.stage.Restoring?
      && seat.heir.Some? && i == seat.heir.value.acked && seat.heir.value.sent == i + 1
  }

  predicate Errands(internal: map<RequestId, InternalRequest>, seat: Seat, candidate: Option<Candidate>,
      session: SessionPhase, published: Option<Catalog>) {
    && AtMostOne(internal)
    && (forall id :: id in internal ==> Errand(internal[id], seat, candidate, session, published))
  }

  predicate Routed(callbacks: map<RequestId, CallbackRoute>, active: Option<nat>) {
    forall id :: id in callbacks ==> active == Some(callbacks[id].worker)
  }

  /** Restoration has begun exactly when the first entry is out; one entry is out at a time. */
  predicate Restored(seat: Seat, candidate: Option<Candidate>) {
    candidate.Some? && seat.heir.Some? ==>
      && (candidate.value.stage.Restoring? <==> seat.heir.value.sent > 0)
      && (candidate.value.stage.Restoring? ==> seat.heir.value.sent == seat.heir.value.acked + 1)
  }

  ghost predicate Base(v: View, due: seq<Due>) {
    && Seated(v.host.seat, v.active, v.candidate, v.callbacks.Keys, v.phase, v.workers)
    && Owes(v.host.desk, due, v.refresh)
    && Staged(v.phase, v.active.Some?, v.candidate)
    && Coherent(v.host.k.phase, v.host.book, v.active, v.candidate, v.published, v.refresh)
    && Errands(v.internal, v.host.seat, v.candidate, v.host.k.phase, v.published)
    && Routed(v.callbacks, v.host.seat.active)
    && (v.phase.Draining? ==> v.published.Some?)
  }

  ghost predicate Sound(v: View, due: seq<Due>) {
    Base(v, due) && Restored(v.host.seat, v.candidate)
  }

  /** Nothing is waiting to be dispatched again. */
  ghost predicate Flushed(pending: PendingMap, active: Option<nat>) {
    active.Some? ==> forall id :: id in pending ==> pending[id].scheduled.None?
  }

  /** Dispatch is open to the client. */
  predicate Open(active: Option<nat>, phase: RolloverPhase, published: Option<Catalog>) {
    active.Some? && (phase.NoRollover? || phase.AwaitingCatalogRefresh?) && published.Some?
  }

  /** Between events: with an active worker no recovery work is left over, and while dispatch is
      open nothing at all is queued. */
  ghost predicate Quiet(v: View) {
    && Flushed(v.host.k.pending, v.host.seat.active)
    && (Open(v.host.seat.active, v.phase, v.published) ==> v.host.k.queue == [])
  }

  // ---------------------------------------------------------------- sessions that are lost for good

  /** A live session that lost its worker before it ever had a catalog. */
  predicate Stranded(v: View) {
    v.active.None? && v.published.None? && v.host.k.phase.Live?
  }

  /** A session that lost its worker, and with it state that is not in the journal. */
  predicate Severed(v: View) {
    v.active.None? && v.host.book.sealed
  }

  /** The candidate was given up after it had become ready, and there is no incumbent to return to. */
  predicate Fallen(v: View) {
    v.active.None? && v.candidate.None? && (v.phase.Draining? || v.phase.AwaitingCatalogRefresh?)
  }

  predicate Hopeless(v: View) {
    Stranded(v) || Severed(v) || Fallen(v)
  }

  /** A hopeless session stays one, and no worker is activated for it. */
  predicate NoRevival(v: View, before: seq<Act>, w: View, after: seq<Act>) {
    Hopeless(v) ==> Hopeless(w) && Activations(after) == Activations(before)
  }

  // ---------------------------------------------------------------- handovers that stall

  /** Dispatch is closed for a candidate that is ready, the incumbent has nothing in flight whose answer
      could start the handover, and no deadline runs. */
  predicate Stalled(v: View) {
    && v.active.Some? && v.phase.Draining? && !v.host.k.HasInFlight()
    && v.candidate.Some? && v.candidate.value.stage.Ready? && !v.candidate.value.armed
  }

  /** A worker has been lost or given up since. */
  predicate Parted(before: seq<Act>, after: seq<Act>) {
    exists i :: |before| <= i < |after| && (after[i].Lose? || after[i].Discard?)
  }

  lemma {:induction false} PartedBy(before: seq<Act>, a: Act, after: seq<Act>)
    requires before + [a] <= after && (a.Lose? || a.Discard?)
    ensures Parted(before, after)
  {
    assert after[|before|] == (before + [a])[|before|];
  }

  lemma {:induction false} PartedSince(before: seq<Act>, middle: seq<Act>, after: seq<Act>)
    requires before <= middle <= after
    ensures Parted(before, middle) || Parted(middle, after) ==> Parted(before, after)
  {
    if Parted(before, middle) {
      var i :| |before| <= i < |middle| && (middle[i].Lose? || middle[i].Discard?);
      assert after[i] == middle[i];
    }
  }

  /** A stalled handover stays stalled, between the same two workers, until one of them is gone. */
  predicate NoProgress(v: View, before: seq<Act>, w: View, after: seq<Act>) {
    Stalled(v) ==> Parted(before, after) || (Stalled(w) && w.active == v.active && w.candidate == v.candidate)
  }

  // ---------------------------------------------------------------- what the kernel can hand out

  /** No reachable kernel of the supervisor holds for a probe. */
  lemma {:induction false} NeverHeld(k: State)
    requires Inv(k) && ProbeFree(k.pending)
    ensures k.Pop().result.Ok? && !k.Pop().result.value.HeldForProbe?
  {
    PopNeverErrs(k);
    if k.queue != [] {
      var ids, backlog :| Split(k, ids, backlog);
      HeadOfQueue(k, ids, backlog);
      if ids != [] {
        assert Sane(ids[0], k.pending[ids[0]], k.next);
      }
    }
  }

  /** An empty queue leaves nothing scheduled. */
  lemma {:induction false} EmptyQueueIsFlushed(k: State)
    requires Inv(k) && k.queue == []
    ensures forall id :: id in k.pending ==> k.pending[id].scheduled.None?
  {
    var ids, backlog :| Split(k, ids, backlog);
    assert |FramesOf(ids, k.pending)| == 0;
  }

  /** Client frames are handed out only when nothing is scheduled. */
  lemma {:induction false} HandOutIsFlushed(k: State)
    requires Inv(k) && k.Pop().result.Ok? && k.Pop().result.value.ClientFrame?
    ensures forall id :: id in k.pending ==> k.pending[id].scheduled.None?
    ensures k.Pop().kernel == k.(queue := k.queue[1..]) && k.queue != [] && k.Pop().result.value.frame == k.queue[0]
  {
    var ids, backlog :| Split(k, ids, backlog);
    PopShape(k, ids, backlog);
  }
}
