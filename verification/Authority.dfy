/** The abstract host: which worker holds public authority, what it is answerable for, and how a
    successor is given the session before it takes over. One log entry for each step that matters to
    these laws; the supervisor (module Supervision) only ever performs logs that are accepted here. */
module Authority {
  import opened Wire
  import opened Replay
  import opened Kernel
  import opened KernelInvariant
  import opened Journal
  import R = KernelRuns
  import S = KernelSteps

  const QUEUE_CAPACITY: nat := 128
  const PENDING_CAPACITY: nat := 128
  const MAX_REPLAY_ATTEMPTS: u8 := 1
  const RECOVERY := ReplayBudget(MAX_REPLAY_ATTEMPTS, QUEUE_CAPACITY)

  /** A candidate worker, and how much of the journal it was sent and has acknowledged. */
  datatype Heir = Heir(token: nat, sent: nat, acked: nat)

  datatype Act =
    | Observe(frame: Frame)
    | Queue(frame: Frame)
    | Admit(frame: Frame, contract: ReplayContract)
    | Pop
    | Answer(frame: Frame)
    | Lose
    | Nest(id: RequestId)
    | Return(id: RequestId)
    | Record(entry: Entry, kept: bool)
    | Seal
    | Propose(token: nat)
    | Discard
    | Drain
    | Open
    | Send(entry: Entry)
    | Ack
    | Activate(token: nat)
    | Deliver(payload: Payload)
    | Tell(token: nat, payload: Payload)
    | Relay(id: RequestId, word: Word)
    | Hold(frame: Frame)
    | Forget
    | Abandon

  /** What the client is told about a request: a worker's answer, why it is refused, or the catalog. */
  datatype Word = Said(payload: Payload) | Refused(reason: HostRejection) | Listed(canonical: Payload)

  /** What the host still owes before it may do anything else: bytes to the active worker, a reply
      to the client, or a place for a request it has accepted. */
  datatype Due = ToWorker(payload: Payload) | ToClient(id: RequestId, word: Word) | Place(frame: Frame)

  predicate AsksCatalog(f: Frame) {
    f.envelope.Request? && f.envelope.rpc.ToolsList?
  }

  /** The sequence number that a step carries across the dispatch boundary, if it does. */
  function Crossed(k: State, a: Act): Option<nat> {
    match a
    case Admit(f, c) => if k.Begin(f, c, PENDING_CAPACITY).result.Ok? then Some(k.next as nat) else None
    case Pop => (
      match k.Pop().result
      case Ok(Replayed(f)) =>
        if f.envelope.Request? && f.envelope.id in k.pending then
            Some(k.pending[f.envelope.id].sequence as nat) else None
      case _ => None)
    case _ => None
  }

  /** The sequence number that a step answers with a worker's response, if it does. */
  function Answered(k: State, a: Act): Option<nat> {
    match a
    case Answer(f) => (
      match k.Complete(f).result
      case Ok(r) => Some(r.sequence as nat)
      case Err(_) => None)
    case _ => None
  }

  /** The journal gains an entry, or is sealed. */
  predicate Books(a: Act) {
    a.Record? || a.Seal?
  }

  /** The request that a worker's answer has just settled without an error, if this step is one. */
  function Fulfilled(k: State, a: Act): Option<Frame> {
    if a.Answer? && a.frame.envelope.Response? && !a.frame.envelope.hasError && k.Complete(a.frame).result.Ok? then
      Some(k.Complete(a.frame).result.value.frame)
    else None
  }

  function Replies(rejected: seq<RejectedReplay>): (due: seq<Due>)
    ensures |due| == |rejected|
  {
    if rejected == [] then [] else [ToClient(rejected[0].id, Refused(rejected[0].reason))] + Replies(rejected[1..])
  }

  /** What a step makes the host owe. */
  ghost function Incurs(k: State, a: Act): seq<Due>
    requires a.Lose? ==> DistinctSequences(k.pending)
  {
    match a
    case Observe(f) =>
      if !f.envelope.Request? then []
      else if k.Observe(f).result.Ok? then [Place(f)]
      else [ToClient(f.envelope.id, Refused(k.Observe(f).result.rejection))]
    case Queue(f) =>
      if f.envelope.Request? && k.Enqueue(f, QUEUE_CAPACITY).result.Err? then
        [ToClient(f.envelope.id, Refused(k.Enqueue(f, QUEUE_CAPACITY).result.rejection))]
      else []
    case Admit(f, c) =>
      if k.Begin(f, c, PENDING_CAPACITY).result.Ok? then [ToWorker(f.payload)]
      else if f.envelope.Request? then
        [ToClient(f.envelope.id, Refused(k.Begin(f, c, PENDING_CAPACITY).result.rejection))]
      else []
    case Pop => (
      match k.Pop().result
      case Ok(Replayed(f)) => [ToWorker(f.payload)]
      case Ok(ClientFrame(f)) =>
        if f.envelope.Request? then [Place(f)] else if f.envelope.Notification? then [ToWorker(f.payload)] else []
      case _ => [])
    case Answer(f) =>
      if k.Complete(f).result.Ok? && f.envelope.Response? then [ToClient(f.envelope.id, Said(f.payload))] else []
    case Lose => Replies(k.Requeue(RECOVERY).1.rejected)
    case _ => []
  }

  /** A reply from the catalog. */
  predicate FromCatalog(a: Act, id: RequestId) {
    a.Relay? && a.id == id && a.word.Listed?
  }

  /** The host's obligations, oldest first, and the catalog request it holds for a successor. */
  datatype Desk = Desk(due: seq<Due>, held: Option<RequestId>) {

    /** Obligations are met at once, in order. Bytes that cannot be delivered are the loss of the
        worker; only a failed public write abandons replies. */
    predicate Serves(a: Act) {
      if due == [] then
        match a
        case Admit(_, _) => false
        case Queue(f) => f.envelope.Notification?
        case Hold(_) => false
        case Relay(id, word) => held == Some(id) && word.Listed?
        case Record(_, _) => false
        case Seal => false
        case _ => true
      else
        match due[0]
        case ToWorker(p) => a == Deliver(p) || a.Lose?
        case ToClient(id, word) => a == Relay(id, word) || a.Record? || a.Seal? || a.Abandon?
        case Place(f) =>
          || a == Queue(f)
          || (a.Admit? && a.frame == f)
          || (AsksCatalog(f) && (FromCatalog(a, f.envelope.id) || a == Hold(f) || a.Abandon?))
    }

    function After(a: Act, incurred: seq<Due>): Desk
      requires a.Hold? ==> a.frame.envelope.Request?
    {
      Desk(
        if a.Abandon? then [] else (if due == [] || a.Record? || a.Seal? then due else due[1..]) + incurred,
        if a.Hold? then Some(a.frame.envelope.id) else if a.Forget? || (a.Relay? && due == []) then None else held)
    }
  }

  /** The kernel after a step. */
  ghost function KernelAfter(k: State, a: Act): State
    requires a.Lose? ==> DistinctSequences(k.pending)
  {
    match a
    case Observe(f) => k.Observe(f).kernel
    case Queue(f) => k.Enqueue(f, QUEUE_CAPACITY).kernel
    case Admit(f, c) => k.Begin(f, c, PENDING_CAPACITY).kernel
    case Pop => k.Pop().kernel
    case Answer(f) => k.Complete(f).kernel
    case Lose => k.Requeue(RECOVERY).0
    case _ => k
  }

  /** Who is active, who is being prepared, whether dispatch is closed, and the nested requests
      that the active worker has open. Workers are numbered as they are born. */
  datatype Seat = Seat(active: Option<nat>, heir: Option<Heir>, draining: bool, nested: set<RequestId>, born: nat) {

    /** Nothing of the session has been sent to the heir yet. */
    predicate Unstarted() {
      heir.Some? ==> heir.value.sent == 0
    }

    function After(a: Act): Seat
      requires a.Send? || a.Ack? ==> heir.Some?
    {
      match a
      case Lose => Seat(None, None, false, {}, born)
      case Nest(id) => this.(nested := nested + {id})
      case Return(id) => this.(nested := nested - {id})
      case Propose(t) => this.(heir := Some(Heir(t, 0, 0)), born := t)
      case Discard => this.(heir := None)
      case Drain => this.(draining := true)
      case Open => this.(draining := false)
      case Send(_) => this.(heir := Some(heir.value.(sent := heir.value.sent + 1)))
      case Ack => this.(heir := Some(heir.value.(acked := heir.value.acked + 1)))
      case Activate(t) => Seat(Some(t), None, false, {}, if t > born then t else born)
      case _ => this
    }
  }

  /** The session journal: its entries, the transitions behind them, and whether it is sealed. */
  datatype Book = Book(entries: seq<Entry>, history: seq<Entry>, sealed: bool) {

    function After(a: Act): Book {
      match a
      case Record(e, kept) => Book(Drop(entries, e.key) + (if kept then [e] else []), history + [e], sealed || !kept)
      case Seal => this.(sealed := true)
      case _ => this
    }
  }

  /** Each invocation is owned by the worker that was active when it last crossed. */
  function OwnerAfter(owner: map<nat, nat>, crossed: Option<nat>, active: Option<nat>): map<nat, nat> {
    if crossed.Some? && active.Some? then owner[crossed.value := active.value] else owner
  }

  datatype Host = Host(k: State, seat: Seat, book: Book, desk: Desk, owner: map<nat, nat>) {

    /** A step is in order when the obligations so far allow it and its own condition holds. */
    ghost predicate Permits(a: Act) {
      desk.Serves(a) && Allows(a)
    }

    ghost predicate Allows(a: Act) {
      match a
      case Observe(_) => true
      case Queue(f) => !f.envelope.Response?
      case Admit(_, c) => seat.active.Some? && !seat.draining && !c.ProbeRequired?
      case Pop => seat.active.Some? && !seat.draining
      case Answer(f) =>
        seat.active.Some? && (f.envelope.Response? && f.envelope.id in k.pending ==>
            k.pending[f.envelope.id].scheduled.None?)
      case Lose => seat.active.Some? && DistinctSequences(k.pending)
      case Nest(_) => seat.active.Some?
      case Return(_) => true
      case Record(_, _) => seat.Unstarted()
      case Seal => seat.Unstarted()
      case Propose(t) => seat.heir.None? && t > seat.born
      case Discard => seat.heir.Some?
      case Drain => true
      case Open => seat.Unstarted()
      case Send(e) =>
        && seat.heir.Some? && seat.draining && !k.HasInFlight() && !book.sealed
        && seat.heir.value.sent == seat.heir.value.acked < |book.entries| && e == book.entries[seat.heir.value.sent]
        && (seat.heir.value.sent == 0 ==> seat.nested == {})
      case Ack => seat.heir.Some? && seat.heir.value.acked < seat.heir.value.sent
      case Activate(t) =>
        && !k.HasInFlight() && !book.sealed
        && (seat.active.Some? ==> seat.draining)
        && (book.entries == [] ==> seat.nested == {})
        && (|| seat.heir == Some(Heir(t, |book.entries|, |book.entries|))
            || (seat.heir.None? && seat.active.None? && t > seat.born && book.entries == []))
      case Deliver(_) => seat.active.Some?
      case Tell(t, _) => seat.active == Some(t)
      case Relay(_, _) => true
      case Hold(f) => AsksCatalog(f)
      case Forget => true
      case Abandon => true
    }

    ghost function Apply(a: Act): Host
      requires Permits(a)
    {
      Host(KernelAfter(k, a), seat.After(a), book.After(a), desk.After(a, Incurs(k, a)),
           OwnerAfter(owner, Crossed(k, a), seat.active))
    }
  }

  const Unborn := Host(R.ColdState, Seat(None, None, false, {}, 0), Book([], [], false), Desk([], None), map[])

  ghost predicate Next(h: Host, a: Act, after: Host) {
    h.Permits(a) && after == h.Apply(a)
  }

  /** A run: its steps, and the states before, between and after them. */
  datatype Run = Run(acts: seq<Act>, states: seq<Host>) {

    ghost predicate Step(i: nat)
      requires i < |acts| && |states| == |acts| + 1
    {
      Next(states[i], acts[i], states[i + 1])
    }

    /** The request that the last step has settled without an error. */
    function Warrant(): Option<Frame> {
      if 0 < |acts| <= |states| then Fulfilled(states[|acts| - 1].k, acts[|acts| - 1]) else None
    }

    /** Only a request that has just been settled without an error may be booked, and as itself. */
    predicate Warrants(a: Act) {
      Books(a) ==> Warrant().Some? && (a.Record? ==> a.entry.frame == Warrant().value)
    }

    predicate Warranted(i: nat)
      requires i < |acts| && |states| == |acts| + 1
    {
      Run(acts[..i], states[..i + 1]).Warrants(acts[i])
    }

    ghost predicate Accepted() {
      && |states| == |acts| + 1
      && states[0] == Unborn
      && (forall i: nat :: i < |acts| ==> Step(i))
      && (forall i: nat {:trigger Warranted(i)} :: i < |acts| ==> Warranted(i))
    }

    ghost function Last(): Host
      requires Accepted()
    {
      states[|acts|]
    }

    ghost function Then(a: Act): Run
      requires Accepted() && Last().Permits(a)
    {
      Run(acts + [a], states + [Last().Apply(a)])
    }
  }

  lemma {:induction false} ThenIsAccepted(r: Run, a: Act)
    requires r.Accepted() && r.Last().Permits(a) && r.Warrants(a)
    ensures r.Then(a).Accepted() && r.Then(a).Last() == r.Last().Apply(a)
    ensures r.Then(a).Warrant() == Fulfilled(r.Last().k, a)
  {
    hide Fulfilled, Host.Permits, Host.Apply, Books;
    var t := r.Then(a);
    forall i: nat | i < |r.acts| + 1 ensures t.Step(i) {
      if i < |r.acts| {
        assert r.Step(i);
      }
    }
    forall i: nat | i < |r.acts| + 1 ensures t.Warranted(i) {
      assert t.acts[..i] == r.acts[..i] && t.states[..i + 1] == r.states[..i + 1];
      if i < |r.acts| {
        assert r.Warranted(i);
      } else {
        assert r.acts[..i] == r.acts && r.states[..i + 1] == r.states;
      }
    }
  }

  function Activations(acts: seq<Act>): nat {
    if acts == [] then 0 else Activations(acts[..|acts| - 1]) + if acts[|acts| - 1].Activate? then 1 else 0
  }

  predicate SealedAct(a: Act, parse: Parser) {
    a.Observe? || a.Queue? || a.Admit? ==> Sealed(a.frame, parse)
  }

  /** Every client frame that the host has taken came out of the parser. */
  predicate AllSealed(acts: seq<Act>, parse: Parser) {
    acts == [] || (AllSealed(acts[..|acts| - 1], parse) && SealedAct(acts[|acts| - 1], parse))
  }

  lemma {:induction false} OneMoreAct(acts: seq<Act>, a: Act, parse: Parser)
    ensures Activations(acts + [a]) == Activations(acts) + if a.Activate? then 1 else 0
    ensures AllSealed(acts + [a], parse) <==> AllSealed(acts, parse) && SealedAct(a, parse)
  {
    assert (acts + [a])[..|acts|] == acts;
  }

  // ---------------------------------------------------------------- the host invariant

  /** Every invocation in flight belongs to the worker that is active now. */
  ghost predicate Pinned(pending: PendingMap, active: Option<nat>, owner: map<nat, nat>) {
    forall id :: id in pending && pending[id].scheduled.None? ==>
      active.Some? && pending[id].sequence in owner && owner[pending[id].sequence] == active.value
  }

  ghost predicate ProbeFree(pending: PendingMap) {
    forall id :: id in pending ==> !pending[id].contract.ProbeRequired?
  }

  predicate NoAnswers(queue: seq<Frame>) {
    forall f :: f in queue ==> !f.envelope.Response?
  }

  ghost predicate Lineage(seat: Seat, entries: nat) {
    && (seat.active.Some? ==> seat.active.value <= seat.born)
    && (seat.active.None? ==> seat.nested == {})
    && (seat.heir.Some? ==>
         && seat.heir.value.token <= seat.born && seat.active != Some(seat.heir.value.token)
         && seat.heir.value.acked <= seat.heir.value.sent <= seat.heir.value.acked + 1
         && seat.heir.value.sent <= entries)
  }

  /** Once the first journal entry is on its way to an heir, the incumbent owes nothing. */
  ghost predicate Handover(k: State, seat: Seat, sealed: bool) {
    !seat.Unstarted() ==> seat.draining && !k.HasInFlight() && !sealed
  }

  ghost predicate Faithful(book: Book) {
    !book.sealed ==> book.entries == Compact(book.history)
  }

  ghost predicate HostInv(h: Host) {
    && Inv(h.k)
    && Pinned(h.k.pending, h.seat.active, h.owner)
    && ProbeFree(h.k.pending)
    && NoAnswers(h.k.queue)
    && Lineage(h.seat, |h.book.entries|)
    && Handover(h.k, h.seat, h.book.sealed)
    && Faithful(h.book)
  }

  // ---------------------------------------------------------------- each step keeps it

  /** What the steps that use the kernel do to invocations that are already in flight. */
  lemma {:induction false} InFlightIsKept(k: State, a: Act)
    requires Inv(k) && !a.Lose?
    ensures forall id :: id in k.pending && k.pending[id].scheduled.None? ==>
      !(a.Answer? && a.frame.envelope.Response? && a.frame.envelope.id == id) ==>
      id in KernelAfter(k, a).pending && KernelAfter(k, a).pending[id] == k.pending[id]
  {
    if a.Pop? && k.Pop().kernel != k {
      var ids, backlog :| Split(k, ids, backlog);
      PopShape(k, ids, backlog);
    }
  }

  /** An invocation in flight after a step was in flight before, or crossed in that step. */
  lemma {:induction false} InFlightComesFrom(k: State, a: Act)
    requires Inv(k)
    ensures forall id :: id in KernelAfter(k, a).pending && KernelAfter(k, a).pending[id].scheduled.None? ==>
      || (!a.Lose? && id in k.pending && k.pending[id] == KernelAfter(k, a).pending[id])
      || Crossed(k, a) == Some(KernelAfter(k, a).pending[id].sequence as nat)
  {
    match a
    case Pop => PoppedComesFrom(k);
    case Lose =>
      var kept := RequeueParts(k, RECOVERY);
    case _ =>
  }

  lemma {:induction false} PoppedComesFrom(k: State)
    requires Inv(k)
    ensures forall id :: id in k.Pop().kernel.pending && k.Pop().kernel.pending[id].scheduled.None? ==>
      || (id in k.pending && k.pending[id] == k.Pop().kernel.pending[id])
      || Crossed(k, Act.Pop) == Some(k.Pop().kernel.pending[id].sequence as nat)
  {
    hide State.Pop, Inv;
    S.NextDispatchIsExact(k);
  }

  /** Only these steps change the active worker. */
  lemma {:induction false} ActiveIsKept(h: Host, a: Act)
    requires h.Allows(a)
    ensures Crossed(h.k, a).Some? ==> h.seat.active.Some? && !h.seat.draining
    ensures h.seat.After(a).active == h.seat.active || a.Lose? || (a.Activate? && !h.k.HasInFlight())
  {
  }

  lemma {:induction false} StepPins(h: Host, a: Act)
    requires Inv(h.k) && Pinned(h.k.pending, h.seat.active, h.owner) && h.Allows(a)
    ensures Pinned(KernelAfter(h.k, a).pending, h.seat.After(a).active,
        OwnerAfter(h.owner, Crossed(h.k, a), h.seat.active))
  {
    InFlightComesFrom(h.k, a);
    ActiveIsKept(h, a);
  }

  lemma {:induction false} StepStaysProbeFree(h: Host, a: Act)
    requires Inv(h.k) && ProbeFree(h.k.pending) && h.Allows(a)
    ensures ProbeFree(KernelAfter(h.k, a).pending)
  {
    match a
    case Lose =>
      var kept := RequeueParts(h.k, RECOVERY);
    case Pop =>
      if h.k.Pop().kernel != h.k {
        var ids, backlog :| Split(h.k, ids, backlog);
        PopShape(h.k, ids, backlog);
      }
    case _ =>
  }

  lemma {:induction false} WithoutHasNoAnswers(queue: seq<Frame>, ids: set<RequestId>)
    requires NoAnswers(queue)
    ensures NoAnswers(Without(queue, ids))
  {
    if queue != [] {
      WithoutHasNoAnswers(queue[1..], ids);
    }
  }

  lemma {:induction false} LaneHasNoAnswers(k: State, ids: seq<RequestId>)
    requires Identified(k) && AllIn(ids, k.pending)
    ensures NoAnswers(FramesOf(ids, k.pending))
  {
    if ids != [] {
      assert AllIn(ids[1..], k.pending);
      assert ids[0] in k.pending && Sane(ids[0], k.pending[ids[0]], k.next);
      LaneHasNoAnswers(k, ids[1..]);
    }
  }

  lemma {:induction false} StepQueuesNoAnswers(h: Host, a: Act)
    requires Inv(h.k) && NoAnswers(h.k.queue) && h.Allows(a)
    ensures NoAnswers(KernelAfter(h.k, a).queue)
  {
    match a
    case Answer(f) =>
      if f.envelope.Response? { WithoutHasNoAnswers(h.k.queue, {f.envelope.id}); }
    case Lose =>
      var kept := RequeueParts(h.k, RECOVERY);
      LaneHasNoAnswers(h.k, kept);
      WithoutHasNoAnswers(h.k.queue, h.k.pending.Keys);
    case _ =>
  }

  /** Nothing enters flight while dispatch is closed. */
  lemma {:induction false} StepStaysIdle(h: Host, a: Act)
    requires Inv(h.k) && h.Allows(a) && !h.k.HasInFlight() && h.seat.draining
    ensures !KernelAfter(h.k, a).HasInFlight()
  {
    InFlightComesFrom(h.k, a);
    ActiveIsKept(h, a);
  }

  lemma {:induction false} StepKeepsHandover(h: Host, a: Act)
    requires Inv(h.k) && Handover(h.k, h.seat, h.book.sealed) && h.Allows(a)
    ensures Handover(KernelAfter(h.k, a), h.seat.After(a), h.book.After(a).sealed)
  {
    if h.seat.draining && !h.k.HasInFlight() {
      StepStaysIdle(h, a);
    }
  }

  lemma {:induction false} StepKeepsLineage(h: Host, a: Act)
    requires Lineage(h.seat, |h.book.entries|) && h.Allows(a)
    ensures Lineage(h.seat.After(a), |h.book.After(a).entries|)
  {
  }

  lemma {:induction false} StepStaysFaithful(book: Book, a: Act)
    requires Faithful(book)
    ensures Faithful(book.After(a))
  {
    if a.Record? && a.kept {
      CompactExtends(book.history, a.entry);
    }
  }

  lemma {:induction false} StepKeepsKernel(k: State, a: Act)
    requires Inv(k)
    ensures Inv(KernelAfter(k, a))
  {
    match a
    case Observe(f) => ObserveKeeps(k, f);
    case Queue(f) => EnqueueKeeps(k, f, QUEUE_CAPACITY);
    case Admit(f, c) => BeginKeeps(k, f, c, PENDING_CAPACITY);
    case Pop => PopKeeps(k);
    case Answer(f) => CompleteKeeps(k, f);
    case Lose => RequeueKeeps(k, RECOVERY);
    case _ =>
  }

  lemma {:induction false} StepKeeps(h: Host, a: Act)
    requires HostInv(h) && h.Permits(a)
    ensures HostInv(h.Apply(a))
  {
    StepKeepsKernel(h.k, a);
    StepPins(h, a);
    StepStaysProbeFree(h, a);
    StepQueuesNoAnswers(h, a);
    StepKeepsLineage(h, a);
    StepKeepsHandover(h, a);
    StepStaysFaithful(h.book, a);
  }

  // ---------------------------------------------------------------- laws of every accepted run

  /** In every state the host can reach, each invocation in flight is owned by the active worker. */
  lemma {:induction false} GenerationPinning(r: Run, i: nat)
    requires r.Accepted() && i <= |r.acts|
    ensures HostInv(r.states[i])
  {
    if i == 0 {
      ColdKernel();
    } else {
      GenerationPinning(r, i - 1);
      assert r.Step(i - 1);
      StepKeeps(r.states[i - 1], r.acts[i - 1]);
    }
  }

  /** Step x dispatches the invocation with this sequence number. */
  predicate Crosses(r: Run, x: nat, s: nat)
    requires x < |r.acts| && x < |r.states|
  {
    Crossed(r.states[x].k, r.acts[x]) == Some(s)
  }

  /** Step x passes on a worker's answer to it. */
  predicate Answers(r: Run, x: nat, s: nat)
    requires x < |r.acts| && x < |r.states|
  {
    Answered(r.states[x].k, r.acts[x]) == Some(s)
  }

  /** Step x is no worker loss, and no answer to this invocation. */
  predicate Spares(r: Run, x: nat, s: nat)
    requires x < |r.acts| && x < |r.states|
  {
    !r.acts[x].Lose? && !Answers(r, x, s)
  }

  /** The invocation with this sequence number is dispatched and unanswered. */
  ghost predicate FlightOf(k: State, s: nat) {
    exists id :: id in k.pending && k.pending[id].sequence == s && k.pending[id].scheduled.None?
  }

  lemma {:induction false} CrossingPutsInFlight(k: State, a: Act, s: nat)
    requires Inv(k) && Crossed(k, a) == Some(s)
    ensures FlightOf(KernelAfter(k, a), s)
  {
    match a
    case Admit(f, c) => assert f.envelope.id in KernelAfter(k, a).pending;
    case Pop =>
      var ids, backlog :| Split(k, ids, backlog);
      PopShape(k, ids, backlog);
      HeadOfQueue(k, ids, backlog);
      assert ids[0] in KernelAfter(k, a).pending;
  }

  lemma {:induction false} FlightGoesOn(k: State, a: Act, s: nat)
    requires Inv(k) && FlightOf(k, s) && !a.Lose? && Answered(k, a) != Some(s)
    ensures FlightOf(KernelAfter(k, a), s)
  {
    var id :| id in k.pending && k.pending[id].sequence == s && k.pending[id].scheduled.None?;
    InFlightIsKept(k, a);
    if a.Answer? && a.frame.envelope.Response? && a.frame.envelope.id == id {
      assert k.Complete(a.frame).result.Err?;
    }
    assert id in KernelAfter(k, a).pending;
  }

  /** One step of an invocation in flight, or of its dispatch, under the active worker. */
  lemma {:induction false} FlightStep(h: Host, a: Act, s: nat)
    requires HostInv(h) && h.Permits(a)
    requires Crossed(h.k, a) == Some(s) || (FlightOf(h.k, s) && !a.Lose? && Answered(h.k, a) != Some(s))
    ensures FlightOf(h.Apply(a).k, s) && h.seat.active.Some? && h.Apply(a).seat.active == h.seat.active
  {
    ActiveIsKept(h, a);
    if Crossed(h.k, a) == Some(s) {
      CrossingPutsInFlight(h.k, a, s);
    } else {
      FlightGoesOn(h.k, a, s);
    }
  }

  /** No rollover smothering: from its dispatch until it is answered or its worker is lost, an
      invocation stays in flight and the worker it was dispatched to stays the active one. */
  lemma {:induction false} NoRolloverSmothering(r: Run, i: nat, k: nat, s: nat)
    requires r.Accepted() && i < k <= |r.acts|
    requires Crosses(r, i, s)
    requires forall x: nat :: i < x < k ==> Spares(r, x, s)
    ensures FlightOf(r.states[k].k, s)
    ensures r.states[k].seat.active == r.states[i].seat.active && r.states[i].seat.active.Some?
    decreases k
  {
    GenerationPinning(r, k - 1);
    assert r.Step(k - 1);
    if k > i + 1 {
      NoRolloverSmothering(r, i, k - 1, s);
      assert Spares(r, k - 1, s);
    }
    FlightStep(r.states[k - 1], r.acts[k - 1], s);
  }
}
