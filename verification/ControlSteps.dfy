/** The supervisor's transitions on values, and that each of them keeps the invariant. */
module ControlSteps {
  import opened Wire
  import opened Replay
  import opened Kernel
  import opened KernelInvariant
  import opened Journal
  import opened Authority
  import opened Control
  import opened Snapshot
  import L = KernelLaws

  // ---------------------------------------------------------------- worker loss

  /** The active worker is gone, and the client has been told what became of its requests. */
  ghost function AfterLoss(v: View): View
    requires v.host.Permits(Lose)
  {
    v.(host := v.host.Apply(Lose).(desk := Desk([], HeldId(v.refresh))),
       active := None, candidate := None, internal := map[], callbacks := map[], phase := Recovering)
  }

  /** Nothing is due, or bytes to the worker that is lost. */
  predicate Interruptible(due: seq<Due>) {
    due == [] || (|due| == 1 && due[0].ToWorker?)
  }

  lemma {:induction false} LossKeeps(v: View, due: seq<Due>)
    requires Base(v, due) && Interruptible(due) && HostInv(v.host) && v.active.Some?
    ensures v.host.Permits(Lose) && Retained(v.callbacks, TokenOf(v.active)) == map[]
    ensures v.host.Apply(Lose).desk == Desk(Replies(v.host.k.Requeue(RECOVERY).1.rejected), HeldId(v.refresh))
    ensures v.host.desk.held == HeldId(v.refresh) && v.host.Apply(Lose).book == v.host.book
    ensures Sound(AfterLoss(v), []) && Quiet(AfterLoss(v))
  {
    RetainNone(v.callbacks, TokenOf(v.active));
    assert due != [] ==> due[1..] == [];
    assert [] + Replies(v.host.k.Requeue(RECOVERY).1.rejected) == Replies(v.host.k.Requeue(RECOVERY).1.rejected);
  }

  /** The nested routes of other workers than this one. */
  function Retained(callbacks: map<RequestId, CallbackRoute>, token: Option<nat>): map<RequestId, CallbackRoute> {
    map id | id in callbacks && Some(callbacks[id].worker) != token :: callbacks[id]
  }

  /** Every nested route belongs to the active worker, so none survives it. */
  lemma {:induction false} RetainNone(callbacks: map<RequestId, CallbackRoute>, token: Option<nat>)
    requires Routed(callbacks, token)
    ensures Retained(callbacks, token) == map[]
  {
  }

  /** The active worker has been lost since; nothing of it is left. */
  ghost predicate LostSince(before: View, v: View) {
    && v.active.None? && v.candidate.None? && v.phase.Recovering? && v.internal == map[]
    && v.published == before.published && v.refresh == before.refresh && v.workers == before.workers
    && Quiet(v)
  }

  // ---------------------------------------------------------------- steps of the kernel

  predicate OfKernel(a: Act) {
    a.Observe? || a.Queue? || a.Admit? || a.Pop? || a.Answer?
  }

  lemma {:induction false} SessionFollows(k: State, a: Act)
    requires !a.Lose?
    ensures L.PhaseFollows(k.phase, KernelAfter(k, a).phase)
  {
  }

  lemma {:induction false} DeskMovesOn(desk: Desk, a: Act, incurred: seq<Due>)
    requires |desk.due| <= 1 && OfKernel(a)
    ensures desk.After(a, incurred) == Desk(incurred, desk.held)
  {
    if desk.due != [] {
      assert desk.due[1..] == [];
    }
    assert [] + incurred == incurred;
  }

  lemma {:induction false} CoherentFollows(v: View, session: SessionPhase)
    requires Coherent(v.host.k.phase, v.host.book, v.active, v.candidate, v.published, v.refresh)
    requires Errands(v.internal, v.host.seat, v.candidate, v.host.k.phase, v.published)
    requires L.PhaseFollows(v.host.k.phase, session)
    ensures Coherent(session, v.host.book, v.active, v.candidate, v.published, v.refresh)
    ensures Errands(v.internal, v.host.seat, v.candidate, session, v.published)
  {
  }

  ghost function Stepped(v: View, a: Act): View
    requires v.host.Permits(a)
  {
    v.(host := v.host.Apply(a))
  }

  /** A step of the kernel leaves everything but the kernel and the obligations as it was. */
  lemma {:induction false} KernelStepKeeps(v: View, a: Act, due: seq<Due>)
    requires Sound(v, due) && |due| <= 1 && v.host.Permits(a) && OfKernel(a)
    ensures Sound(Stepped(v, a), Incurs(v.host.k, a))
    ensures Stepped(v, a).host.k == KernelAfter(v.host.k, a)
    ensures Stepped(v, a).host.seat == v.host.seat && Stepped(v, a).host.book == v.host.book
  {
    DeskMovesOn(v.host.desk, a, Incurs(v.host.k, a));
    SessionFollows(v.host.k, a);
    CoherentFollows(v, KernelAfter(v.host.k, a).phase);
  }

  /** Invocations in flight are untouched. */
  ghost predicate KeepsFlight(k: State, after: State) {
    forall id :: id in k.pending && k.pending[id].scheduled.None? ==>
        id in after.pending && after.pending[id] == k.pending[id]
  }

  /** What is due to a client frame that is refused. */
  function Refusal(f: Frame, reason: HostRejection): seq<Due> {
    if f.envelope.Request? then [ToClient(f.envelope.id, Refused(reason))] else []
  }

  /** What is due once a request has been admitted, or not. */
  function AdmissionDue(f: Frame, r: Result<RequestId>): seq<Due> {
    match r
    case Ok(_) => [ToWorker(f.payload)]
    case Err(reason) => Refusal(f, reason)
  }

  /** What is due once a frame has been queued, or not. */
  function QueueDue(f: Frame, r: Result<()>): seq<Due> {
    match r
    case Ok(_) => []
    case Err(reason) => Refusal(f, reason)
  }

  /** What a first dispatch does to the kernel. */
  lemma {:induction false} AdmissionShape(k: State, f: Frame, c: ReplayContract)
    requires f.envelope.Request?
    ensures KernelAfter(k, Admit(f, c)).queue == k.queue
    ensures Incurs(k, Admit(f, c)) == AdmissionDue(f, k.Begin(f, c, PENDING_CAPACITY).result)
    ensures (forall id :: id in k.pending ==> k.pending[id].scheduled.None?) ==>
      forall id :: id in KernelAfter(k, Admit(f, c)).pending ==> KernelAfter(k, Admit(f, c)).pending[id].scheduled.None?
  {
  }

  /** A first dispatch, or its refusal: it leaves the queue and whatever is in flight alone. */
  lemma {:induction false} AdmissionKeeps(v: View, f: Frame, c: ReplayContract)
    requires Sound(v, [Place(f)]) && HostInv(v.host) && f.envelope.Request? && v.host.Permits(Admit(f, c))
    ensures Sound(Stepped(v, Admit(f, c)), Incurs(v.host.k, Admit(f, c)))
    ensures Incurs(v.host.k, Admit(f, c)) == AdmissionDue(f, v.host.k.Begin(f, c, PENDING_CAPACITY).result)
    ensures Stepped(v, Admit(f, c)).host.k.queue == v.host.k.queue
    ensures Stepped(v, Admit(f, c)).host.seat == v.host.seat
    ensures KeepsFlight(v.host.k, Stepped(v, Admit(f, c)).host.k)
    ensures Flushed(v.host.k.pending, v.host.seat.active) ==> (
      Flushed(Stepped(v, Admit(f, c)).host.k.pending, v.host.seat.active))
  {
    KernelStepKeeps(v, Admit(f, c), [Place(f)]);
    AdmissionShape(v.host.k, f, c);
    InFlightIsKept(v.host.k, Admit(f, c));
  }

  /** The view once a single obligation has been met. */
  ghost function Met(v: View): View {
    v.(host := v.host.(desk := Desk([], v.host.desk.held)))
  }

  lemma {:induction false} MetKeeps(v: View, due: seq<Due>)
    requires Sound(v, due)
    ensures Sound(Met(v), [])
  {
  }

  /** What is due after a queue entry has been handed out. */
  function Taken(r: DispatchOutcome): seq<Due> {
    match r
    case Replayed(f) => [ToWorker(f.payload)]
    case ClientFrame(f) => if f.envelope.Request? then [Place(f)] else [ToWorker(f.payload)]
    case _ => []
  }

  /** In every state of the supervisor a pop hands out a replay or a client frame, or finds the
      queue empty; client frames come only once nothing is scheduled. */
  lemma {:induction false} PopGives(k: State)
    requires Inv(k) && ProbeFree(k.pending) && NoAnswers(k.queue)
    ensures k.Pop().result.Ok? && !k.Pop().result.value.HeldForProbe?
    ensures Incurs(k, Pop) == Taken(k.Pop().result.value)
    ensures k.Pop().result.value.Empty? ==> k.queue == [] && k.Pop().kernel == k
    ensures !k.Pop().result.value.Empty? ==> k.queue != [] && k.Pop().kernel.queue == k.queue[1..]
    ensures k.Pop().result.value.ClientFrame? ==>
        k.queue != [] && k.Pop().result.value.frame == k.queue[0] && !k.queue[0].envelope.Response?
    ensures !k.Pop().result.value.Replayed? ==> forall id :: id in k.Pop().kernel.pending ==>
        k.Pop().kernel.pending[id].scheduled.None?
  {
    NeverHeld(k);
    if k.queue == [] {
      EmptyQueueIsFlushed(k);
    } else if k.Pop().result.value.ClientFrame? {
      HandOutIsFlushed(k);
    }
  }

  /** A catalog request waits in the queue for its first dispatch. */
  ghost predicate CatalogWaits(k: State) {
    exists f :: f in k.queue && AsksCatalog(f) && f.envelope.id !in k.pending
  }

  lemma {:induction false} QueuedIdIn(queue: seq<Frame>, f: Frame)
    requires f in queue && f.envelope.Request?
    ensures f.envelope.id in QueuedIds(queue)
  {
    if f != queue[0] {
      QueuedIdIn(queue[1..], f);
    }
  }

  /** Admission takes no waiting catalog request for an invocation: its id would be a duplicate. */
  lemma {:induction false} AdmissionLeavesCatalogs(k: State, f: Frame, c: ReplayContract)
    ensures CatalogWaits(k.Begin(f, c, PENDING_CAPACITY).kernel) <==> CatalogWaits(k)
  {
    var after := k.Begin(f, c, PENDING_CAPACITY).kernel;
    forall g | g in k.queue && AsksCatalog(g) ensures g.envelope.id in after.pending <==> g.envelope.id in k.pending {
      QueuedIdIn(k.queue, g);
    }
  }

  /** A worker gets the queue, and there is no catalog for a catalog request in it. */
  ghost predicate Starves(v: View) {
    v.active.Some? && v.phase.NoRollover? && v.published.None? && CatalogWaits(v.host.k)
  }

  /** Whether a catalog request waits, before and after this entry was taken from the queue. */
  ghost predicate Advances(k: State, r: DispatchOutcome, after: State) {
    match r
    case Empty => !CatalogWaits(k)
    case ClientFrame(f) => if AsksCatalog(f) then CatalogWaits(k) else CatalogWaits(after) <==> CatalogWaits(k)
    case _ => CatalogWaits(after) <==> CatalogWaits(k)
  }

  lemma {:induction false} PopAdvances(k: State)
    requires k.Pop().result.Ok?
    ensures Advances(k, k.Pop().result.value, k.Pop().kernel)
  {
    if k.queue != [] {
      assert forall f :: f in k.queue <==> f == k.queue[0] || f in k.queue[1..];
      assert k.queue[0] in k.queue;
    }
  }

  /** A pop, seen from the supervisor: what is due then, and what can be said about the entry. */
  lemma {:induction false} PopKeepsView(v: View, parse: Parser) returns (w: View, r: DispatchOutcome)
    requires Sound(v, []) && HostInv(v.host) && SealedKernel(v.host.k, parse) && v.active.Some? && !v.phase.Draining?
    ensures v.host.Permits(Pop) && w == Stepped(v, Pop) && w == v.(host := w.host)
    ensures w.host.k == v.host.k.Pop().kernel && w.host.book == v.host.book
    ensures v.host.k.Pop().result == Ok(r) && Sound(w, Taken(r)) && KeepsFlight(v.host.k, w.host.k)
    ensures !r.HeldForProbe? && (r.Empty? ==> w.host.k.queue == [])
    ensures (!r.Empty? ==> |w.host.k.queue| < |v.host.k.queue|)
    ensures r.ClientFrame? ==> !r.frame.envelope.Response? && Sealed(r.frame, parse)
    ensures !r.Replayed? ==> Flushed(w.host.k.pending, w.host.seat.active)
    ensures v.host.k.queue == [] ==> r.Empty? && Idle(v, w)
    ensures Advances(v.host.k, r, w.host.k)
  {
    hide CatalogWaits, Base, Sound, State.Pop;
    PopGives(v.host.k);
    PopAdvances(v.host.k);
    w := PopIsSound(v);
    InFlightIsKept(v.host.k, Pop);
    r := v.host.k.Pop().result.value;
  }

  lemma {:induction false} PopIsSound(v: View) returns (w: View)
    requires Sound(v, []) && HostInv(v.host) && v.active.Some? && !v.phase.Draining?
    ensures v.host.Permits(Pop) && w == Stepped(v, Pop) && w == v.(host := w.host)
    ensures w.host.k == KernelAfter(v.host.k, Pop) && w.host.book == v.host.book && w.host.seat == v.host.seat
    ensures Sound(w, Incurs(v.host.k, Pop))
  {
    hide HostInv, State.Pop;
    KernelStepKeeps(v, Pop, []);
    w := Stepped(v, Pop);
  }

  /** Queueing a client frame, seen from the supervisor. */
  lemma {:induction false} QueueKeepsView(v: View, f: Frame) returns (w: View)
    requires Sound(v, if f.envelope.Request? then [Place(f)] else []) && Quiet(v) && !f.envelope.Response?
    requires !Control.Open(v.host.seat.active, v.phase, v.published)
    ensures v.host.Permits(Queue(f)) && w == Stepped(v, Queue(f)) && w == v.(host := w.host)
    ensures w.host.k == v.host.k.Enqueue(f, QUEUE_CAPACITY).kernel
    ensures w.host.book == v.host.book && Quiet(w) && (Hopeless(v) ==> Hopeless(w))
    ensures Sound(w, QueueDue(f, v.host.k.Enqueue(f, QUEUE_CAPACITY).result))
  {
    QueueingShape(v.host.k, f);
    KernelStepKeeps(v, Queue(f), if f.envelope.Request? then [Place(f)] else []);
    w := Stepped(v, Queue(f));
  }

  lemma {:induction false} MetStaysQuiet(v: View)
    requires Quiet(v)
    ensures Quiet(Met(v))
  {
  }

  lemma {:induction false} MetStaysHopeless(v: View)
    requires Hopeless(v)
    ensures Hopeless(Met(v))
  {
  }

  // ---------------------------------------------------------------- candidates

  predicate OfSeat(a: Act) {
    a.Nest? || a.Return? || a.Propose? || a.Discard? || a.Drain? || a.Open? || a.Send? || a.Ack? || a.Activate? ||
    a.Tell?
  }

  /** A step of the seat leaves kernel, journal and obligations alone. */
  lemma {:induction false} SeatStep(h: Host, a: Act)
    requires h.Permits(a) && OfSeat(a) && h.desk.due == []
    ensures h.Apply(a) == h.(seat := h.seat.After(a))
  {
    assert [] + Incurs(h.k, a) == Incurs(h.k, a);
  }

  /** Giving up the held catalog request touches nothing else. */
  lemma {:induction false} ForgetStep(h: Host)
    requires h.desk.due == []
    ensures h.Permits(Forget) && h.Apply(Forget) == h.(desk := Desk([], None))
  {
    assert [] + Incurs(h.k, Forget) == Incurs(h.k, Forget);
  }

  function Others(internal: map<RequestId, InternalRequest>, token: nat): map<RequestId, InternalRequest> {
    map id | id in internal && internal[id].worker != token :: internal[id]
  }

  /** The candidate is gone; with an incumbent, dispatch is open again under it. */
  ghost function AfterRejection(v: View): View {
    var internal := if v.candidate.Some? then Others(v.internal, v.candidate.value.worker.token) else v.internal;
    var rejected := if v.candidate.Some? && v.candidate.value.purpose.Rollover? then
        Some(v.candidate.value.worker.release.generation) else v.rejected;
    if v.active.Some? then
      v.(host := v.host.(seat := v.host.seat.(heir := None, draining := false), desk := Desk([], None)),
         candidate := None, internal := internal, phase := NoRollover, refresh := None, rejected := rejected)
    else
      v.(host := v.host.(seat := v.host.seat.(heir := None)), candidate := None, internal := internal, rejected :=
          rejected)
  }

  /** Dispatch is open again under the incumbent. */
  ghost function AfterResume(v: View): View {
    v.(host := v.host.(seat := v.host.seat.(draining := false), desk := Desk([], None)), phase :=
        NoRollover, refresh := None)
  }

  lemma {:induction false} RejectionKeeps(v: View)
    requires Base(v, []) && HostInv(v.host)
    ensures v.host.desk.due == [] && v.host.seat.heir.Some? == v.candidate.Some?
    ensures Sound(AfterRejection(v), [])
    ensures v.active.None? ==> Quiet(AfterRejection(v))
  {
  }

  /** A release that was given up is not tried again, whoever serves. */
  lemma {:induction false} RejectionIsRemembered(v: View, incumbent: Release)
    requires v.candidate.Some? && v.candidate.value.purpose.Rollover?
    ensures !IsNews(v.candidate.value.worker.release, incumbent, AfterRejection(v).rejected)
  {
    NewsIsExact(v.candidate.value.worker.release, incumbent, AfterRejection(v).rejected);
  }

  /** An incumbent that stays has a catalog to answer from. */
  lemma {:induction false} RejectionFeeds(v: View)
    requires Base(v, [])
    ensures v.candidate.Some? || v.phase.Draining? ==> !Starves(AfterRejection(v))
    ensures v.active.Some? ==> (Starves(AfterResume(v)) <==> Starves(AfterRejection(v)))
  {
  }

  /** The candidate becomes the active worker. */
  ghost function AfterActivation(v: View): View
    requires v.candidate.Some?
  {
    v.(host := v.host.(seat := v.host.seat.After(Activate(v.candidate.value.worker.token))),
       active := Some(v.candidate.value.worker), candidate := None, published := v.candidate.value.worker.catalog,
       callbacks := map[], phase := NoRollover)
  }

  /** Whether the candidate may take over now. */
  ghost predicate MayActivate(v: View) {
    v.candidate.Some? ==>
      && v.host.Permits(Activate(v.candidate.value.worker.token))
      && v.internal == map[]
      && (v.candidate.value.worker.catalog.None? ==> v.published.None? && v.refresh.None?)
  }

  lemma {:induction false} ActivationKeeps(v: View)
    requires Base(v, []) && HostInv(v.host) && v.candidate.Some? && MayActivate(v)
    ensures Sound(AfterActivation(v), [])
    ensures v.refresh.Some? ==> AfterActivation(v).published.Some?
  {
  }

  /** The held catalog request has been answered. */
  ghost function AfterRefresh(v: View): View {
    v.(refresh := None, host := v.host.(desk := Desk([], None)))
  }

  lemma {:induction false} RefreshKeeps(v: View)
    requires Sound(v, [])
    ensures Sound(AfterRefresh(v), [])
  {
  }

  // ---------------------------------------------------------------- restoration

  /** The candidate has acknowledged the first `index` entries and nothing else is under way. */
  ghost predicate Restorable(v: View, index: nat) {
    v.candidate.Some? && v.host.seat.heir.Some? ==>
      && v.phase.Draining? && (v.candidate.value.stage.Ready? || v.candidate.value.stage.Restoring?)
      && v.host.seat.heir.value.sent == index == v.host.seat.heir.value.acked
      && index <= |v.host.book.entries|
      && !v.host.k.HasInFlight() && !v.host.book.sealed && v.internal == map[]
      && (index == 0 ==> v.host.seat.nested == {})
  }

  lemma {:induction false} RestorableIsEmpty(v: View, index: nat)
    requires Base(v, []) && Restorable(v, index) && v.candidate.Some?
    ensures v.internal == map[] && v.host.seat.heir.Some?
  {
  }

  lemma {:induction false} RestoringDrains(v: View)
    requires Sound(v, []) && v.candidate.Some? && v.candidate.value.stage.Restoring?
    ensures v.phase.Draining?
  {
  }

  ghost function AfterStage(v: View): View
    requires v.candidate.Some?
  {
    v.(candidate := Some(v.candidate.value.(stage := Restoring, armed := true)))
  }

  lemma {:induction false} StageKeeps(v: View, index: nat)
    requires Base(v, []) && v.candidate.Some? && Restorable(v, index)
    ensures Base(AfterStage(v), []) && Restorable(AfterStage(v), index)
  {
  }

  ghost function AfterSend(v: View, id: RequestId, index: nat): View
    requires v.candidate.Some? && v.host.seat.heir.Some? && index < |v.host.book.entries|
  {
    v.(host := v.host.(seat := v.host.seat.After(Send(v.host.book.entries[index]))),
       internal := v.internal[id := InternalRequest(v.candidate.value.worker.token, RestoreJournal(index))])
  }

  /** The next journal entry goes to the candidate. */
  lemma {:induction false} SendKeeps(v: View, id: RequestId, index: nat)
    requires Base(v, []) && v.candidate.Some? && v.candidate.value.stage.Restoring? && Restorable(v, index)
    requires index < |v.host.book.entries|
    ensures v.host.seat.heir.Some? && v.host.desk.due == [] && v.host.Permits(Send(v.host.book.entries[index]))
    ensures Sound(AfterSend(v, id, index), [])
  {
  }

  lemma {:induction false} RestoredMayActivate(v: View, index: nat)
    requires Base(v, []) && Restorable(v, index) && index >= |v.host.book.entries|
    ensures MayActivate(v)
    ensures v.candidate.Some? ==> !Starves(AfterActivation(v))
  {
  }

  /** A candidate that is ready has no private request out. */
  lemma {:induction false} ReadyIsRestorable(v: View)
    requires Sound(v, []) && HostInv(v.host) && v.phase.Draining?
    requires v.candidate.Some? ==> !v.candidate.value.stage.Restoring?
    requires !v.host.k.HasInFlight() && !v.host.book.sealed && v.callbacks == map[]
    ensures Restorable(v, 0)
  {
  }

  lemma {:induction false} NoActiveCallbacks(v: View)
    requires Base(v, [])
    requires forall id :: id in v.callbacks ==> Some(v.callbacks[id].worker) != TokenOf(v.active)
    ensures v.callbacks == map[]
  {
  }

  // ---------------------------------------------------------------- preparing a worker

  /** A fresh candidate. */
  ghost function AfterProposal(v: View, worker: Worker, purpose: Purpose): View {
    v.(host := v.host.(seat := v.host.seat.After(Propose(worker.token))),
       candidate := Some(Candidate(worker, purpose, AwaitingInitialize, true)))
  }

  /** A worker may be prepared: for an idle live session as its successor, or for a lost one. */
  predicate MayPropose(v: View, worker: Worker, purpose: Purpose) {
    && v.candidate.None? && worker.catalog.None?
    && v.host.seat.born < worker.token <= v.workers
    && (v.host.k.phase.AwaitingInitialized? || v.host.k.phase.Live?)
    && (if purpose.Rollover? then v.active.Some? && v.phase.NoRollover? && v.published.Some?
        else v.active.None? && v.phase.Recovering?)
  }

  lemma {:induction false} ProposalKeeps(v: View, worker: Worker, purpose: Purpose)
    requires Sound(v, []) && HostInv(v.host) && MayPropose(v, worker, purpose)
    ensures v.host.Permits(Propose(worker.token)) && v.internal == map[]
    ensures Sound(AfterProposal(v, worker, purpose), [])
  {
  }

  /** A private request takes the next serial number. */
  lemma {:induction false} NextSerial(v: View, serial: nat, index: nat)
    requires Base(v, [])
    ensures Base(v.(serial := serial), [])
    ensures Sound(v, []) ==> Sound(v.(serial := serial), [])
    ensures Restorable(v, index) ==> Restorable(v.(serial := serial), index)
    ensures Quiet(v) ==> Quiet(v.(serial := serial))
  {
  }

  /** A private request has gone out. */
  function AfterRequest(v: View, id: RequestId, r: InternalRequest): View {
    v.(internal := v.internal[id := r])
  }

  lemma {:induction false} RequestKeeps(v: View, id: RequestId, r: InternalRequest)
    requires Sound(v, []) && v.internal == map[] && Errand(r, v.host.seat, v.candidate, v.host.k.phase, v.published)
    ensures Sound(AfterRequest(v, id, r), [])
  {
  }

  function AfterHandshake(v: View): View
    requires v.candidate.Some?
  {
    v.(candidate := Some(v.candidate.value.(stage := AwaitingCatalog)))
  }

  lemma {:induction false} HandshakeKeeps(v: View)
    requires Sound(v, []) && v.candidate.Some? && v.candidate.value.stage.AwaitingInitialize? &&
        v.internal == map[] && v.host.k.phase.Live?
    ensures Sound(AfterHandshake(v), [])
  {
  }

  /** While the handshake is not over a lost worker is simply started again. */
  ghost function AfterRestart(v: View, worker: Worker): View {
    v.(host := v.host.(seat := v.host.seat.After(Activate(worker.token))), active := Some(worker), phase := NoRollover)
  }

  lemma {:induction false} RestartKeeps(v: View, worker: Worker)
    requires Sound(v, []) && HostInv(v.host) && v.active.None? && v.candidate.None?
    requires worker.catalog.None? && v.host.seat.born < worker.token <= v.workers
    requires v.host.k.phase.Cold? || v.host.k.phase.Initializing?
    ensures v.host.Permits(Activate(worker.token))
    ensures Sound(AfterRestart(v, worker), []) && v.published.None?
  {
  }

  lemma {:induction false} MoreWorkers(v: View, due: seq<Due>, workers: nat)
    requires Sound(v, due) && v.workers <= workers
    ensures Sound(v.(workers := workers), due)
  {
  }

  // ---------------------------------------------------------------- readiness

  /** The candidate has shown its catalog and is ready; `phase` says what happens next. */
  ghost function AfterReady(v: View, catalog: Catalog, phase: RolloverPhase): View
    requires v.candidate.Some?
  {
    var c := v.candidate.value;
    v.(candidate := Some(c.(worker := c.worker.(catalog := Some(catalog)), stage := Ready, armed := !phase.Draining?)),
       phase := phase,
       host := v.host.(seat := v.host.seat.(draining := phase.Draining?)))
  }

  lemma {:induction false} ReadyKeeps(v: View, catalog: Catalog, phase: RolloverPhase)
    requires Sound(v, []) && Quiet(v) && v.candidate.Some? && v.candidate.value.stage.AwaitingCatalog? &&
        v.internal == map[]
    requires phase.AwaitingCatalogRefresh? || (phase.Draining? && v.published.Some?)
    ensures Sound(AfterReady(v, catalog, phase), []) && Quiet(AfterReady(v, catalog, phase))
    ensures v.host.seat.Unstarted() && v.host.desk.due == []
    ensures v.host.Permits(Drain) && v.host.Permits(Act.Open)
    ensures Hopeless(v) ==> Hopeless(AfterReady(v, catalog, phase))
  {
  }

  /** Dispatch closes for the handover. */
  ghost function AfterDrain(v: View): View
    requires v.candidate.Some?
  {
    v.(host := v.host.(seat := v.host.seat.(draining := true)), phase := Draining,
       candidate := Some(v.candidate.value.(armed := false)))
  }

  lemma {:induction false} DrainKeeps(v: View)
    requires Sound(v, []) && Quiet(v) && v.candidate.Some? && v.candidate.value.stage.Ready?
    requires v.phase.AwaitingCatalogRefresh? && v.published.Some?
    ensures Sound(AfterDrain(v), []) && Quiet(AfterDrain(v))
  {
  }

  /** A recovery that has lost its candidate starts over. */
  ghost function AfterStartingOver(v: View): View {
    v.(phase := Recovering, host := v.host.(seat := v.host.seat.(draining := false)))
  }

  lemma {:induction false} StartingOverKeeps(v: View)
    requires Sound(v, []) && Quiet(v) && v.active.None? && v.candidate.None?
    ensures Sound(AfterStartingOver(v), []) && Quiet(AfterStartingOver(v))
  {
  }

  // ---------------------------------------------------------------- private responses

  /** The seed for a new worker is at hand, and can be read. */
  lemma {:induction false} SeedAtHand(k: State, parse: Parser)
    requires Inv(k) && SealedKernel(k, parse) && (k.phase.AwaitingInitialized? || k.phase.Live?)
    ensures k.seed.Some? && k.ReplaySeed() == Ok(k.seed) && parse(k.seed.value.payload).Some?
    ensures k.phase.Live? ==> k.seed.value.notification.Some?
  {
  }

  /** The request that has been answered is out no more, and it was the only one. */
  lemma {:induction false} AnswerLeavesNone(v: View, id: RequestId)
    requires Sound(v, []) && id in v.internal
    ensures v.internal - {id} == map[]
    ensures Sound(v.(internal := map[]), [])
    ensures Errand(v.internal[id], v.host.seat, v.candidate, v.host.k.phase, v.published)
  {
  }

  /** The session's first catalog. */
  function AfterCatalog(v: View, catalog: Catalog): View
    requires v.active.Some?
  {
    v.(active := Some(v.active.value.(catalog := Some(catalog))), published := Some(catalog))
  }

  lemma {:induction false} CatalogKeeps(v: View, catalog: Catalog)
    requires Sound(v, []) && v.active.Some? && v.internal == map[] && v.host.k.phase.Live? && v.published.None?
    ensures Sound(AfterCatalog(v, catalog), []) && v.phase.NoRollover? && v.candidate.None?
  {
  }

  /** A candidate for a session whose handshake is still open has nothing to be given. */
  lemma {:induction false} HandshakeMayActivate(v: View)
    requires Sound(v, []) && HostInv(v.host) && v.internal == map[]
    requires v.candidate.Some? && v.candidate.value.stage.AwaitingInitialize? && v.host.k.phase.AwaitingInitialized?
    ensures MayActivate(v)
    ensures Starves(AfterActivation(v)) <==> CatalogWaits(v.host.k)
  {
  }

  /** While the journal is on its way, recovery can still succeed. */
  lemma {:induction false} RestoringIsHopeful(v: View)
    requires Sound(v, []) && HostInv(v.host) && v.candidate.Some? && v.candidate.value.stage.Restoring?
    ensures !Hopeless(v)
  {
  }

  ghost function AfterAck(v: View): View
    requires v.host.seat.heir.Some?
  {
    v.(host := v.host.(seat := v.host.seat.After(Ack)))
  }

  lemma {:induction false} AckKeeps(v: View, index: nat)
    requires Sound(v, []) && HostInv(v.host) && v.internal == map[] && v.candidate.Some? &&
        v.candidate.value.stage.Restoring?
    requires v.host.seat.heir.Some? && v.host.seat.heir.value.acked == index && v.host.seat.heir.value.sent == index + 1
    ensures v.host.desk.due == [] && v.host.Permits(Ack) && Base(AfterAck(v), []) && Restorable(AfterAck(v), index + 1)
  {
  }

  // ---------------------------------------------------------------- answers and arrivals

  /** A worker's answer takes one invocation off the books and schedules nothing. */
  lemma {:induction false} AnswerShape(k: State, f: Frame)
    requires f.envelope.Response?
    ensures k.queue == [] ==> KernelAfter(k, Answer(f)).queue == []
    ensures forall id :: id in KernelAfter(k, Answer(f)).pending ==>
        id in k.pending && KernelAfter(k, Answer(f)).pending[id] == k.pending[id]
    ensures Incurs(k, Answer(f)) == if k.Complete(f).result.Ok? then [ToClient(f.envelope.id, Said(f.payload))] else []
    ensures k.Complete(f).result.Ok? ==> f.envelope.id in k.pending
    ensures k.Complete(f).result.Err? ==> KernelAfter(k, Answer(f)) == k
  {
  }

  lemma {:induction false} AnswerIsQuiet(v: View, f: Frame, due: seq<Due>)
    requires Sound(v, due) && Quiet(v) && v.active.Some? && f.envelope.Response? && v.host.Permits(Answer(f))
    ensures Quiet(Stepped(v, Answer(f)))
    ensures HostInv(v.host) && v.host.k.Complete(f).result.Ok? ==> v.host.seat.Unstarted()
  {
    AnswerShape(v.host.k, f);
  }

  /** While a handover is stalled, no answer can come: nothing is pending, and nothing private is out. */
  lemma {:induction false} StalledHasNoAnswers(v: View, f: Frame)
    requires Base(v, []) && Quiet(v) && Stalled(v) && f.envelope.Response?
    ensures v.internal == map[] && v.host.k.Complete(f).result.Err?
  {
  }

  lemma {:induction false} StalledHasCatalog(v: View)
    requires Base(v, []) && Stalled(v)
    ensures v.published.Some?
  {
  }

  /** A frame from the client leaves a stalled handover stalled. */
  lemma {:induction false} ArrivalStalls(v: View, f: Frame)
    requires Stalled(v)
    ensures Stalled(v.(host := v.host.(k := KernelAfter(v.host.k, Observe(f)))))
    ensures Stalled(v.(host := v.host.(k := KernelAfter(v.host.k, Queue(f)))))
  {
  }

  /** Where a request goes does not depend on the kernel. */
  lemma {:induction false} PlacementIsPublic(v: View, host: Host, reading: Reading, f: Frame)
    requires f.envelope.Request?
    ensures Placement(v.(host := host), reading, f) == Placement(v, reading, f)
  {
  }

  /** Nothing has happened yet. */
  lemma {:induction false} NothingYet(parse: Parser) returns (r: Run)
    ensures r.acts == [] && r.Accepted() && r.Last() == Unborn && AllSealed(r.acts, parse)
  {
    r := Run([], [Unborn]);
  }

  /** A supervisor whose first worker has just been launched. */
  lemma {:induction false} FreshIsSound(initial: Release) returns (host: Host, v: View)
    ensures Unborn.Permits(Activate(1)) && host == Unborn.Apply(Activate(1)) && host.k == Unborn.k
    ensures host.book == Book([], [], false)
    ensures v == View(host, Some(Worker(1, initial, None)), None, None, map[], map[], NoRollover, 1, 0, 0, None, None)
    ensures Sound(v, []) && Quiet(v)
  {
    assert !Unborn.k.HasInFlight();
    SeatStep(Unborn, Activate(1));
    host := Unborn.Apply(Activate(1));
    v := View(host, Some(Worker(1, initial, None)), None, None, map[], map[], NoRollover, 1, 0, 0, None, None);
  }

  /** What is due once a client frame has arrived. */
  ghost function Arrived(k: State, f: Frame): seq<Due> {
    match k.Observe(f).result
    case Ok(_) => if f.envelope.Request? then [Place(f)] else []
    case Err(reason) => Refusal(f, reason)
  }

  lemma {:induction false} ArrivalShape(k: State, f: Frame)
    ensures Incurs(k, Observe(f)) == Arrived(k, f)
    ensures KernelAfter(k, Observe(f)).queue == k.queue && KernelAfter(k, Observe(f)).pending == k.pending
    ensures f.envelope.Notification? && IsInitializedNotification(f.envelope.note) && k.Observe(f).result.Ok? ==>
      k.phase.AwaitingInitialized? && KernelAfter(k, Observe(f)).phase.Live?
  {
  }

  /** Before its first catalog a serving session has nothing private under way. */
  lemma {:induction false} HandshakeIsAlone(v: View)
    requires Sound(v, []) && v.active.Some? && v.host.k.phase.AwaitingInitialized?
    ensures v.internal == map[] && v.candidate.None? && v.published.None?
  {
  }

  lemma {:induction false} QueueingShape(k: State, f: Frame)
    ensures KernelAfter(k, Queue(f)).pending == k.pending
    ensures Incurs(k, Queue(f)) == QueueDue(f, k.Enqueue(f, QUEUE_CAPACITY).result)
  {
  }

  // ---------------------------------------------------------------- the journal

  lemma {:induction false} BookStep(h: Host, a: Act)
    requires h.Permits(a) && (a.Record? || a.Seal?)
    ensures h.Apply(a) == h.(book := h.book.After(a))
  {
    assert h.desk.due + Incurs(h.k, a) == h.desk.due;
  }

  lemma {:induction false} AnswerIsDue(v: View, id: RequestId, word: Word)
    requires Sound(v, [ToClient(id, word)])
    ensures v.host.desk.due == [ToClient(id, word)]
  {
  }

  lemma {:induction false} BookKeeps(v: View, due: seq<Due>, book: Book)
    requires Sound(v, due) && v.published.Some?
    ensures Sound(v.(host := v.host.(book := book)), due)
  {
  }

  // ---------------------------------------------------------------- nested requests

  /** The active worker has one more nested request open. */
  function AfterNest(v: View, id: RequestId, original: RequestId): View
    requires v.active.Some?
  {
    v.(host := v.host.(seat := v.host.seat.After(Nest(id))), asked := v.asked + 1,
       callbacks := v.callbacks[id := CallbackRoute(v.active.value.token, original)])
  }

  lemma {:induction false} NestKeeps(v: View, id: RequestId, original: RequestId)
    requires Sound(v, []) && v.active.Some?
    ensures v.host.desk.due == [] && v.host.Permits(Nest(id))
    ensures Sound(AfterNest(v, id, original), [])
  {
  }

  /** The client has answered a nested request. */
  ghost function AfterReturn(v: View, id: RequestId): View {
    v.(host := v.host.(seat := v.host.seat.After(Return(id))), callbacks := v.callbacks - {id})
  }

  lemma {:induction false} ReturnKeeps(v: View, id: RequestId)
    requires Sound(v, []) && Quiet(v) && id in v.callbacks
    ensures v.host.Permits(Return(id)) && v.host.desk.due == [] && TokenOf(v.active) == Some(v.callbacks[id].worker)
    ensures Sound(AfterReturn(v, id), []) && Quiet(AfterReturn(v, id))
    ensures !Hopeless(v)
    ensures Stalled(v) ==> Stalled(AfterReturn(v, id))
  {
  }

  // ---------------------------------------------------------------- a held catalog request

  ghost function AfterHold(v: View, f: Frame): View {
    v.(host := v.host.(seat := v.host.seat.(draining := true), desk := Desk([], HeldId(Some(f)))),
       refresh := Some(f), phase := Draining,
       candidate := if v.candidate.Some? then Some(v.candidate.value.(armed := false)) else None)
  }

  lemma {:induction false} HoldKeeps(v: View, f: Frame)
    requires Sound(v, [Place(f)]) && Quiet(v) && AsksCatalog(f) && v.published.Some? && v.phase.AwaitingCatalogRefresh?
    ensures v.host.Permits(Hold(f)) && v.host.Apply(Hold(f)) == v.host.(desk := Desk([], HeldId(Some(f))))
    ensures v.host.(desk := Desk([], HeldId(Some(f)))).Permits(Drain)
    ensures v.host.seat.After(Drain) == v.host.seat.(draining := true)
    ensures v.candidate.Some? ==> !v.candidate.value.stage.Restoring?
    ensures Sound(AfterHold(v, f), []) && Quiet(AfterHold(v, f))
  {
    assert [Place(f)][1..] + Incurs(v.host.k, Hold(f)) == [];
  }

  /** Where an accepted client request goes: a catalog request is answered, held for a successor
      whose catalog has been announced, or queued during a handover; anything else is dispatched,
      or queued while there is no catalog, no worker, or a handover. */
  ghost function Placement(v: View, reading: Reading, f: Frame): Act
    requires f.envelope.Request?
  {
    var gating := v.phase.Draining? || v.phase.Recovering?;
    if AsksCatalog(f) && v.published.Some? then
      if v.phase.AwaitingCatalogRefresh? then Hold(f) else if gating then Queue(f)
      else Relay(f.envelope.id, Listed(v.published.value.canonical))
    else if (!f.envelope.rpc.Initialize? && v.published.None?) || gating || v.active.None? then Queue(f)
    else Admit(f, Classify(reading, v.published, f))
  }

  /** Who gets a request now: the catalog once it is published, or a worker that serves and is not
      being replaced, once there is a catalog to classify by; the opening of the handshake needs none.
      A request for a catalog that is about to change is held, and whatever else cannot go on waits. */
  lemma {:induction false} PlacementIsExact(v: View, reading: Reading, f: Frame)
    requires f.envelope.Request?
    ensures var place := Placement(v, reading, f);
      var listing := f.envelope.rpc.ToolsList? && v.published.Some?;
      var closed := v.phase.Draining? || v.phase.Recovering?;
      && (place == Hold(f) <==> listing && v.phase.AwaitingCatalogRefresh?)
      && (place.Relay? <==> listing && v.phase.NoRollover?)
      && (place.Relay? ==> place == Relay(f.envelope.id, Listed(v.published.value.canonical)))
      && (place.Admit? <==>
            !listing && !closed && v.active.Some? && (f.envelope.rpc.Initialize? || v.published.Some?))
      && (place.Admit? ==> place == Admit(f, Classify(reading, v.published, f)))
      && (place == Queue(f) <==> !place.Hold? && !place.Relay? && !place.Admit?)
  {
  }

  // ---------------------------------------------------------------- what a reliable world leads to

  /** Kernel and journal are as they were. */
  predicate SameCore(h: Host, after: Host) {
    after.k == h.k && after.book == h.book
  }

  /** Only the host has moved on, with the same kernel and journal. */
  predicate Idle(v: View, w: View) {
    w == v.(host := w.host) && SameCore(v.host, w.host)
  }

  predicate SameWorker(a: Candidate, b: Candidate) {
    a.worker.token == b.worker.token && a.purpose == b.purpose
  }

  /** The session is as it was; only the candidate and its private request are not. */
  predicate SameSession(v: View, w: View) {
    && SameCore(v.host, w.host) && w.published == v.published && w.active == v.active && w.callbacks == v.callbacks &&
        w.asked == v.asked
    && (v.candidate.Some? && w.candidate.Some? ==> SameWorker(v.candidate.value, w.candidate.value))
  }

  /** The candidate is in this stage and owes the answer to this private request. */
  predicate Engaged(v: View, stage: Stage, action: InternalAction) {
    && v.candidate.Some? && v.candidate.value.stage == stage
    && v.internal == map[RequestId.Internal(v.candidate.value.worker.token, v.serial) :=
        InternalRequest(v.candidate.value.worker.token, action)]
  }

  predicate Waits(v: View, w: View, stage: Stage, action: InternalAction) {
    SameSession(v, w) && w.serial == v.serial + 1 && Engaged(w, stage, action)
  }

  predicate Activated(before: seq<Act>, after: seq<Act>) {
    Activations(after) > Activations(before)
  }

  lemma {:induction false} PrefixActivations(before: seq<Act>, after: seq<Act>)
    requires before <= after
    ensures Activations(before) <= Activations(after)
    decreases |after|
  {
    if before == after {
    } else {
      assert before <= after[..|after| - 1];
      PrefixActivations(before, after[..|after| - 1]);
    }
  }

  /** An activation right after `before` counts. */
  lemma {:induction false} ActivatedBy(before: seq<Act>, token: nat, after: seq<Act>)
    requires before + [Activate(token)] <= after
    ensures Activated(before, after)
  {
    assert (before + [Activate(token)])[..|before|] == before;
    PrefixActivations(before + [Activate(token)], after);
  }

  lemma {:induction false} AckActivates(before: seq<Act>, token: nat, after: seq<Act>)
    requires before + [Ack, Activate(token)] <= after
    ensures Activated(before, after)
  {
    assert before + [Ack, Activate(token)] == (before + [Ack]) + [Activate(token)];
    ActivatedBy(before + [Ack], token, after);
    PrefixActivations(before, before + [Ack]);
  }

  /** The incumbent still owes answers, or is owed some. */
  predicate Owing(v: View) {
    v.host.k.HasInFlight() || v.callbacks != map[]
  }

  /** The incumbent, if there is one, owes nothing, so the journal may be handed over. */
  predicate Handable(v: View) {
    !Owing(v) && !v.host.book.sealed
  }

  /** The handover has begun, and the journal is not empty: its first entry is due. */
  predicate JournalDue(v: View) {
    v.phase.Draining? && Handable(v) && v.candidate.Some? && v.host.book.entries != []
  }

  /** A candidate has been given up since. */
  predicate Discarded(before: seq<Act>, after: seq<Act>) {
    exists i :: |before| <= i < |after| && after[i].Discard?
  }

  /** The worker under this number serves, and has been handed all that was queued. */
  predicate Relieved(token: nat, v: View) {
    TokenOf(v.active) == Some(token) && v.candidate.None? && v.phase.NoRollover? && v.host.k.queue == []
  }

  predicate SamePublic(published: Option<Catalog>, catalog: Catalog) {
    published.Some? && published.value.canonical == catalog.canonical
  }

  /** The candidate and its private request are gone; an incumbent gets what was queued. */
  ghost predicate GivenUp(v: View, w: View) {
    w == AfterRejection(v.(internal := map[])).(host := w.host)
  }

  /** Where the answer to the candidate's private request leads in a reliable world: the handshake to
      the catalog, the same catalog to the first journal entry, each entry to the next one, and the
      last step to activation. A changed catalog is announced first, and a refused entry is the end
      of a recovery. */
  ghost predicate Proceeds(v: View, acts: seq<Act>, action: InternalAction, hasError: bool,
      catalog: Option<Catalog>, ok: bool, w: View, acts': seq<Act>) {
    match action
    case ActiveCatalog =>
      if hasError || catalog.None? then acts + [Lose] <= acts' && w.active.None? && w.phase.Recovering?
      else v.active.Some? ==>
        && ok && w == AfterCatalog(v.(internal := map[]), catalog.value).(host := w.host) && w.host.k.queue == []
        && (v.host.k.queue == [] ==> SameCore(v.host, w.host))
    case CandidateInitialize =>
      if hasError then ok && GivenUp(v, w)
      else if v.host.k.phase.AwaitingInitialized? then Activated(acts, acts')
      else ok && Waits(v, w, AwaitingCatalog, CandidateCatalog)
    case CandidateCatalog =>
      if hasError || catalog.None? then ok && GivenUp(v, w)
      else if !SamePublic(v.published, catalog.value) then
        ok && SameSession(v, w) && w.candidate.Some? && w.phase.AwaitingCatalogRefresh?
      else
        if Owing(v) then v.candidate.Some? ==>
          ok && w == AfterReady(v.(internal := map[]), catalog.value, Draining)
        else v.candidate.Some? && !v.host.book.sealed ==> (
          && ok
          && (if v.host.book.entries != [] then Waits(v, w, Restoring, RestoreJournal(0))
              else Activated(acts, acts') && Relieved(v.candidate.value.worker.token, w)))
    case RestoreJournal(i) =>
      if hasError then
        && ok && GivenUp(v, w)
        && (v.active.None? ==>
              Fallen(w) && SameCore(v.host, w.host) && w.phase == v.phase && w.published == v.published)
      else if i + 1 < |v.host.book.entries| then ok && Waits(v, w, Restoring, RestoreJournal(i + 1))
      else
        && ok && v.candidate.Some? && acts + [Ack, Activate(v.candidate.value.worker.token)] <= acts'
        && Relieved(v.candidate.value.worker.token, w)
  }

  /** Taking the answered request off the books makes no difference to where it leads. */
  lemma {:induction false} ProceedsFrom(v: View, acts: seq<Act>, action: InternalAction, hasError: bool,
      catalog: Option<Catalog>, ok: bool, w: View, acts': seq<Act>)
    requires Proceeds(v.(internal := map[]), acts, action, hasError, catalog, ok, w, acts')
    ensures Proceeds(v, acts, action, hasError, catalog, ok, w, acts')
  {
  }

  /** The view after these bookings. */
  ghost function Booked(v: View, acts: seq<Act>): View {
    v.(host := v.host.(book := Rebooked(v.host.book, acts)))
  }

  /** The journal after these bookings, of which there is at most one. */
  function Rebooked(book: Book, acts: seq<Act>): Book {
    if acts == [] then book else book.After(acts[0])
  }
}
