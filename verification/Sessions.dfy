/** A session from its start, as events that the supervisor's handlers take: the handshake, the first
    catalog, a tool call, a worker loss, a successor that is being prepared. */
module Sessions {
  import opened Wire
  import opened Replay
  import opened Kernel
  import opened KernelInvariant
  import opened Journal
  import opened Authority
  import opened Control
  import opened ControlSteps
  import opened Supervision
  import opened Revival
  import R = KernelRuns

  /** What the client and the first worker send: the handshake, a catalog, and one request. */
  datatype Script = Script(
    id: RequestId, hello: Payload, welcome: Payload, ready: Payload,
    listing: Payload, catalog: Catalog,
    callId: RequestId, call: Payload, rpc: Method, tool: Name, done: Payload)

  function CallOf(script: Script): Frame {
    Frame(script.call, Request(script.callId, script.rpc))
  }

  function FirstRequest(): RequestId {
    RequestId.Internal(1, 1)
  }

  /** A request that a session with a catalog dispatches, and its answer. */
  predicate Exchanges(reading: Reading, ask: Payload, id: RequestId, rpc: Method, done: Payload) {
    && !rpc.Initialize? && !rpc.ToolsList?
    && reading.parse(ask) == Some(Request(id, rpc)) && reading.parse(done) == Some(Response(id, false))
  }

  ghost predicate Plays(script: Script, reading: Reading) {
    && reading.parse(script.hello) == Some(Request(script.id, Initialize))
    && reading.parse(script.welcome) == Some(Response(script.id, false))
    && reading.parse(script.ready) == Some(Notification(Initialized))
    && reading.parse(script.listing) == Some(Response(FirstRequest(), false))
    && reading.catalog(Frame(script.listing, Response(FirstRequest(), false))) == Some(script.catalog)
    && Exchanges(reading, script.call, script.callId, script.rpc, script.done)
    && reading.tool(CallOf(script)) == Some(script.tool) && script.tool in script.catalog.contracts
  }

  /** Nothing is pending or queued. */
  predicate Calm(k: State, phase: SessionPhase, next: nat) {
    k.phase == phase && k.pending == map[] && k.queue == [] && k.next == next
  }

  /** One request is in flight, and nothing else is pending or queued. */
  predicate Busy(k: State, phase: SessionPhase, next: nat, f: Frame) {
    && k.phase == phase && k.queue == [] && k.next == next && f.envelope.Request? && k.pending.Keys == {f.envelope.id}
    && k.pending[f.envelope.id].frame == f && k.pending[f.envelope.id].rpc == f.envelope.rpc &&
        k.pending[f.envelope.id].knowledge.InFlight?
  }

  /** The first worker serves alone, and nothing is under way but its first catalog. */
  predicate Serving(v: View, initial: Release, catalog: Option<Catalog>, serial: nat) {
    v == Control.View(v.host, Some(Worker(1, initial, catalog)), None, catalog, v.internal, map[], NoRollover, 1,
        serial, 0, None, None)
  }

  // ---------------------------------------------------------------- the kernel meanwhile

  lemma {:induction false} Hello(k: State, f: Frame, c: ReplayContract)
    requires k == R.ColdState && f.envelope.Request? && f.envelope.rpc.Initialize?
    ensures k.Observe(f).result.Ok? && k.Observe(f).kernel.Begin(f, c, PENDING_CAPACITY).result.Ok?
    ensures Busy(k.Observe(f).kernel.Begin(f, c, PENDING_CAPACITY).kernel, Initializing, 1, f)
  {
  }

  lemma {:induction false} HelloAnswered(k: State, hello: Frame, f: Frame)
    requires Busy(k, Initializing, 1, hello) && hello.envelope.rpc.Initialize?
    requires f.envelope == Response(hello.envelope.id, false)
    ensures k.Complete(f).result.Ok? && Calm(k.Complete(f).kernel, AwaitingInitialized, 1)
  {
  }

  lemma {:induction false} Called(k: State, next: nat, f: Frame, c: ReplayContract)
    requires Calm(k, Live, next) && next < 10
    requires f.envelope.Request? && !f.envelope.rpc.Initialize?
    ensures k.Observe(f).result.Ok? && k.Observe(f).kernel.Begin(f, c, PENDING_CAPACITY).result.Ok?
    ensures Busy(k.Observe(f).kernel.Begin(f, c, PENDING_CAPACITY).kernel, Live, next + 1, f)
  {
  }

  lemma {:induction false} CallAnswered(k: State, next: nat, call: Frame, f: Frame)
    requires Busy(k, Live, next, call) && !call.envelope.rpc.Initialize?
    requires f.envelope == Response(call.envelope.id, false)
    ensures k.Complete(f).result.Ok? && Calm(k.Complete(f).kernel, Live, next)
    ensures k.Complete(f).result.value.frame == call
  {
  }

  lemma {:induction false} LossOfCalm(v: View)
    requires v.host.k.phase.Live? && v.host.k.pending == map[] && v.host.Permits(Lose)
    ensures AfterLoss(v).host.k.phase.Live? && AfterLoss(v).host.book == v.host.book
  {
  }

  // ---------------------------------------------------------------- the handshake

  function HelloOf(script: Script): Frame {
    Frame(script.hello, Request(script.id, Initialize))
  }

  /** The client's initialize request reaches the first worker. */
  method Begin(reading: Reading, arrives: nat -> bool, initial: Release, script: Script) returns (s: Supervisor)
    requires Plays(script, reading)
    ensures fresh(s) && fresh(s.kernel) && fresh(s.journal) && s.reading == reading
    ensures s.reliable && s.arrives == arrives
    ensures s.Holds([]) && Quiet(s.View()) && Serving(s.View(), initial, None, 0) && s.internal == map[]
    ensures s.host.book == Book([], [], false) && Busy(s.host.k, Initializing, 1, HelloOf(script))
  {
    hide Base, Sound, Quiet;
    s := new Supervisor.Start(reading, true, arrives, initial);
    Hello(s.host.k, HelloOf(script), Classify(reading, None, HelloOf(script)));
    var ok := s.HandleClientPayload(script.hello);
  }

  /** The worker answers it. */
  method Welcome(s: Supervisor, ghost initial: Release, script: Script) returns (ok: bool)
    requires Plays(script, s.reading) && s.reliable
    requires s.Holds([]) && Quiet(s.View()) && Serving(s.View(), initial, None, 0) && s.internal == map[]
    requires s.host.book == Book([], [], false) && Busy(s.host.k, Initializing, 1, HelloOf(script))
    modifies s, s.kernel, s.journal
    ensures s.Holds([]) && Quiet(s.View()) && Serving(s.View(), initial, None, 0) && s.internal == map[]
    ensures s.host.book == Book([], [], false) && Calm(s.host.k, AwaitingInitialized, 1)
  {
    hide Base, Sound, Quiet;
    HelloAnswered(s.host.k, HelloOf(script), Frame(script.welcome, Response(script.id, false)));
    ok := s.HandleWorkerPayload(1, script.welcome);
  }

  /** The client confirms: the session is live, and the worker is asked for its catalog. */
  method Confirm(s: Supervisor, ghost initial: Release, script: Script) returns (ok: bool)
    requires Plays(script, s.reading) && s.reliable && s.arrives(1)
    requires s.Holds([]) && Quiet(s.View()) && Serving(s.View(), initial, None, 0) && s.internal == map[]
    requires s.host.book == Book([], [], false) && Calm(s.host.k, AwaitingInitialized, 1)
    modifies s, s.kernel
    ensures s.Holds([]) && Quiet(s.View()) && Serving(s.View(), initial, None, 1) && s.host.book == Book([], [], false)
    ensures s.internal == map[FirstRequest() := InternalRequest(1, ActiveCatalog)] && Calm(s.host.k, Live, 1)
  {
    hide Base, Sound, Quiet;
    s.ReachedSeed();
    ok := s.HandleClientPayload(script.ready);
  }

  method GoLive(reading: Reading, arrives: nat -> bool, initial: Release, script: Script) returns (s: Supervisor)
    requires Plays(script, reading) && arrives(1)
    ensures fresh(s) && fresh(s.kernel) && fresh(s.journal) && s.reading == reading
    ensures s.reliable && s.arrives == arrives
    ensures s.Holds([]) && Quiet(s.View()) && Serving(s.View(), initial, None, 1) && s.host.book == Book([], [], false)
    ensures s.internal == map[FirstRequest() := InternalRequest(1, ActiveCatalog)] && Calm(s.host.k, Live, 1)
  {
    hide Base, Sound, Quiet, Calm, Busy, Serving, Plays;
    s := Begin(reading, arrives, initial, script);
    var ok := Welcome(s, initial, script);
    ok := Confirm(s, initial, script);
  }

  // ---------------------------------------------------------------- a session with a catalog

  /** The worker shows the session's first catalog. */
  method Publish(s: Supervisor, ghost initial: Release, script: Script) returns (ok: bool)
    requires Plays(script, s.reading) && s.reliable && s.CanSend(1)
    requires s.Holds([]) && Quiet(s.View()) && Serving(s.View(), initial, None, 1) && s.host.book == Book([], [], false)
    requires s.internal == map[FirstRequest() := InternalRequest(1, ActiveCatalog)] && Calm(s.host.k, Live, 1)
    modifies s, s.kernel, s.journal
    ensures s.Holds([]) && Quiet(s.View()) && Serving(s.View(), initial, Some(script.catalog), 1)
    ensures s.host.book == Book([], [], false) && s.internal == map[] && Calm(s.host.k, Live, 1)
  {
    hide Base, Sound, Quiet;
    ok := s.HandleWorkerPayload(1, script.listing);
  }

  /** The session is live with this catalog, and has nothing private out. */
  ghost predicate Working(s: Supervisor, initial: Release, catalog: Catalog)
    reads s, s.kernel, s.journal
  {
    && s.reliable && s.Holds([]) && Quiet(s.View()) && Serving(s.View(), initial, Some(catalog), 1)
    && s.internal == map[]
  }

  /** The client makes a request, and the worker answers it. */
  method Exchange(s: Supervisor, ghost initial: Release, ghost catalog: Catalog, ghost next: nat,
      ask: Payload, ghost id: RequestId, ghost rpc: Method, done: Payload)
    requires Working(s, initial, catalog) && Calm(s.host.k, Live, next) && next < 10
    requires Exchanges(s.reading, ask, id, rpc, done)
    modifies s, s.kernel, s.journal
    ensures Working(s, initial, catalog) && Calm(s.host.k, Live, next + 1)
    ensures s.host.book == Rebooked(old(s.host).book,
        s.Bookkeeping(Some(catalog), old(s.host).book.entries, Frame(ask, Request(id, rpc))))
  {
    hide Base, Sound, Quiet, Supervisor.Bookkeeping;
    Ask(s, initial, catalog, next, ask, id, rpc);
    CallAnswered(s.host.k, next + 1, Frame(ask, Request(id, rpc)), Frame(done, Response(id, false)));
    var ok := s.HandleWorkerPayload(1, done);
  }

  method Ask(s: Supervisor, ghost initial: Release, ghost catalog: Catalog, ghost next: nat,
      ask: Payload, ghost id: RequestId, ghost rpc: Method)
    requires Working(s, initial, catalog) && Calm(s.host.k, Live, next) && next < 10
    requires !rpc.Initialize? && !rpc.ToolsList? && s.reading.parse(ask) == Some(Request(id, rpc))
    modifies s, s.kernel, s.journal
    ensures Working(s, initial, catalog) && Busy(s.host.k, Live, next + 1, Frame(ask, Request(id, rpc)))
    ensures s.host.book == old(s.host).book
  {
    hide Base, Sound, Quiet;
    ghost var f := Frame(ask, Request(id, rpc));
    Called(s.host.k, next, f, Classify(s.reading, s.published, f));
    var ok := s.HandleClientPayload(ask);
  }

  /** What the request of the script leaves in the journal. */
  function Booking(s: Supervisor, script: Script): seq<Act> {
    s.Bookkeeping(Some(script.catalog), [], CallOf(script))
  }

  /** A live session with a catalog, and one exchange behind it. */
  method Work(reading: Reading, arrives: nat -> bool, initial: Release, script: Script) returns (s: Supervisor)
    requires Plays(script, reading) && arrives(1) && arrives(2)
    ensures fresh(s) && fresh(s.kernel) && fresh(s.journal) && s.reading == reading && s.arrives == arrives
    ensures Working(s, initial, script.catalog) && Calm(s.host.k, Live, 2)
    ensures s.host.book == Rebooked(Book([], [], false), Booking(s, script))
  {
    hide Base, Sound, Quiet, Calm, Busy, Serving, Supervisor.Bookkeeping;
    s := GoLive(reading, arrives, initial, script);
    var ok := Publish(s, initial, script);
    Exchange(s, initial, script.catalog, 1, script.call, script.callId, script.rpc, script.done);
  }

  /** The tool of the script has this state contract. */
  predicate Keeps(script: Script, state: StateContract) {
    script.tool in script.catalog.contracts && script.catalog.contracts[script.tool].state == state
  }

  /** A session with one journaled transition. */
  method Journaling(reading: Reading, arrives: nat -> bool, initial: Release, script: Script, text: Name)
    returns (s: Supervisor)
    requires Plays(script, reading) && Keeps(script, Journaled(Constant(text))) && |script.call| <= MAX_BYTES
    requires arrives(1) && arrives(2)
    ensures fresh(s) && fresh(s.kernel) && fresh(s.journal) && s.reading == reading && s.arrives == arrives
    ensures Working(s, initial, script.catalog) && Calm(s.host.k, Live, 2)
    ensures s.host.book.entries == [Entry(reading.scoped(script.tool, text), CallOf(script))] && !s.host.book.sealed
    ensures s.host.book.history == s.host.book.entries
  {
    hide Base, Sound, Quiet, Calm, Serving;
    s := Work(reading, arrives, initial, script);
  }

  // ---------------------------------------------------------------- a successor

  /** A candidate for a serving session owes its catalog; nothing else has happened since. */
  ghost predicate Preparing(s: Supervisor, initial: Release, catalog: Catalog)
    reads s, s.kernel, s.journal
  {
    && s.reliable && s.Holds([]) && Quiet(s.View()) && Engaged(s.View(), AwaitingCatalog, CandidateCatalog)
    && s.active == Some(Worker(1, initial, Some(catalog))) && s.published == Some(catalog) && s.phase.NoRollover?
    && s.nextInternal == 3 && s.callbacks == map[] && s.nextCallback == 0
  }

  lemma {:induction false} CatalogIsLive(v: View)
    requires Sound(v, []) && v.published.Some?
    ensures v.host.k.phase.Live?
  {
  }

  lemma {:induction false} UnreadyIsIdle(v: View)
    requires Sound(v, []) && v.active.Some? && v.candidate.Some? && v.candidate.value.stage.AwaitingCatalog?
    ensures v.phase.NoRollover?
  {
  }

  /** A working session prepares a successor for a new release, which answers the handshake. */
  method Prepare(s: Supervisor, ghost initial: Release, ghost catalog: Catalog, news: Release, peer: Peer)
    requires Working(s, initial, catalog)
    requires Speaks(peer, s.reading) && IsNews(news, initial, None) && s.CanSend(1) && s.CanSend(2)
    modifies s, s.kernel, s.journal
    ensures Preparing(s, initial, catalog) && SameCore(old(s.host), s.host)
  {
    hide Base, Sound, Quiet, Run.Accepted, AllSealed, Supervisor.EndsOver;
    CatalogIsLive(s.View());
    var ok := s.OnTick(false, false, Some(news));
    ok := Acknowledge(s, peer, AwaitingInitialize, CandidateInitialize);
    UnreadyIsIdle(s.View());
  }

  /** A session with one journaled transition that prepares a successor. */
  method Prepared(reading: Reading, arrives: nat -> bool, initial: Release, news: Release, peer: Peer, script: Script,
      text: Name) returns (s: Supervisor)
    requires Plays(script, reading) && Speaks(peer, reading) && Keeps(script, Journaled(Constant(text)))
    requires |script.call| <= MAX_BYTES && IsNews(news, initial, None) && arrives(1) && arrives(2) && arrives(3)
    ensures fresh(s) && fresh(s.kernel) && fresh(s.journal) && s.reading == reading && s.arrives == arrives
    ensures Preparing(s, initial, script.catalog) && Handable(s.View()) && |s.host.book.entries| == 1
  {
    hide Base, Sound, Quiet, Run.Accepted, AllSealed, Serving, Engaged;
    s := Journaling(reading, arrives, initial, script, text);
    Prepare(s, initial, script.catalog, news, peer);
  }

  // ---------------------------------------------------------------- there are such scripts

  function Ones(n: nat): Payload {
    if n == 0 then [] else [1] + Ones(n - 1)
  }

  /** A payload that says what it is, and for which private request. */
  function Coded(kind: byte, w: nat, n: nat, rest: Payload): Payload {
    [kind] + Ones(w) + [0] + Ones(n) + [0] + rest
  }

  function Lead(p: Payload): (n: nat)
    ensures n <= |p|
  {
    if p == [] || p[0] != 1 then 0 else 1 + Lead(p[1..])
  }

  lemma {:induction false} LeadOfOnes(n: nat, rest: Payload)
    ensures Lead(Ones(n) + [0] + rest) == n
    ensures |Ones(n)| == n && (Ones(n) + [0] + rest)[n..] == [0] + rest
  {
    if n > 0 {
      LeadOfOnes(n - 1, rest);
      assert (Ones(n) + [0] + rest)[1..] == Ones(n - 1) + [0] + rest;
      assert (Ones(n) + [0] + rest)[n..] == (Ones(n - 1) + [0] + rest)[n - 1..];
    } else {
      assert Ones(0) + [0] + rest == [0] + rest;
    }
  }

  function After(p: Payload): Payload {
    if Lead(p) < |p| then p[Lead(p) + 1..] else []
  }

  function WorkerIn(p: Payload): nat
    requires p != []
  {
    Lead(p[1..])
  }

  function SerialIn(p: Payload): nat
    requires p != []
  {
    Lead(After(p[1..]))
  }

  function RestIn(p: Payload): Payload
    requires p != []
  {
    After(After(p[1..]))
  }

  lemma {:induction false} Decoded(kind: byte, w: nat, n: nat, rest: Payload)
    ensures var p := Coded(kind, w, n, rest);
      p != [] && p[0] == kind && WorkerIn(p) == w && SerialIn(p) == n && RestIn(p) == rest
  {
    var p := Coded(kind, w, n, rest);
    var tail := Ones(n) + [0] + rest;
    assert p[1..] == Ones(w) + [0] + tail;
    LeadOfOnes(w, tail);
    LeadOfOnes(n, rest);
    assert After(p[1..]) == tail by {
      assert p[1..][w + 1..] == (p[1..][w..])[1..] == tail;
    }
    assert After(tail) == rest by {
      assert tail[n + 1..] == (tail[n..])[1..] == rest;
    }
  }

  /** A parser for these payloads: private answers, listings, and the frames of a session, in which the
      client numbers its requests with one name. */
  function Parsed(p: Payload, name: Name, rpc: Method): Option<Envelope> {
    if p == [] then None
    else if p[0] == 10 then Some(Response(RequestId.Internal(WorkerIn(p), SerialIn(p)), RestIn(p) == [1]))
    else if p[0] == 11 then Some(Response(RequestId.Internal(WorkerIn(p), SerialIn(p)), false))
    else if p[0] == 20 then Some(Request(Text(name), Initialize))
    else if p[0] == 21 then Some(Response(Text(name), false))
    else if p[0] == 22 then Some(Notification(Initialized))
    else if p[0] == 23 then Some(Request(Text(name), rpc))
    else if p[0] == 24 then Some(Request(Text(name), ToolsList))
    else if p[0] == 25 then Some(Response(RequestId.Callback(1), false))
    else None
  }

  /** What else is sent in the runs: an early catalog request, the answer to a nested request, and a
      request that does not fit the journal. */
  datatype Extras = Extras(list: Payload, reply: Payload, big: Payload)

  function Written(name: Name, state: StateContract, rpc: Method): Reading {
    var contracts := map[name := ToolContract(AtMostOnce, state, None)];
    Reading(
      (p: Payload) => Parsed(p, name, rpc), (f: Frame) => Some(name), (f: Frame, path: Name) => false,
      (f: Frame, path: Name) => None, (t: Name, text: Name) => text,
      (f: Frame) => if f.payload != [] && f.payload[0] == 11 then Some(Catalog(RestIn(f.payload), contracts)) else None,
      (f: Frame) => None, (f: Frame, id: RequestId) => [])
  }

  lemma {:induction false} PeersExist(name: Name, state: StateContract, rpc: Method) returns (peer: Peer)
    ensures Speaks(peer, Written(name, state, rpc))
  {
    var reading := Written(name, state, rpc);
    peer := Peer((w: nat, n: nat, e: bool) => Coded(10, w, n, if e then [1] else []),
      (w: nat, n: nat, c: Payload) => Coded(11, w, n, c));
    forall w: nat, n: nat, e ensures reading.parse(peer.answer(w, n, e)) ==
        Some(Response(RequestId.Internal(w, n), e)) {
      Decoded(10, w, n, if e then [1] else []);
    }
    forall w: nat, n: nat, c ensures Lists(peer.listing(w, n, c), RequestId.Internal(w, n), c, reading) {
      Decoded(11, w, n, c);
    }
  }

  /** Scripts, peers and readings as the runs need them exist, whatever the request is and whatever
      the contract of its tool. */
  lemma {:induction false} ScriptsExist(name: Name, state: StateContract, rpc: Method)
    returns (reading: Reading, peer: Peer, script: Script, extras: Extras)
    requires !rpc.Initialize? && !rpc.ToolsList?
    ensures Plays(script, reading) && Speaks(peer, reading) && Keeps(script, state) && |script.call| <= MAX_BYTES
    ensures script.rpc == rpc && reading.parse([]).None?
    ensures reading.parse(extras.list) == Some(Request(script.callId, ToolsList))
    ensures reading.parse(extras.reply) == Some(Response(RequestId.Callback(1), false))
    ensures |extras.big| > MAX_BYTES && Exchanges(reading, extras.big, script.callId, rpc, script.done)
    ensures reading.tool(Frame(extras.big, Request(script.callId, rpc))) == Some(script.tool)
  {
    hide Speaks, Ones, Coded;
    reading := Written(name, state, rpc);
    peer := PeersExist(name, state, rpc);
    var catalog := Catalog([], map[name := ToolContract(AtMostOnce, state, None)]);
    script := Script(Text(name), [20], [21], [22], Coded(11, 1, 1, []), catalog, Text(name), [23], rpc, name, [21]);
    extras := Extras([24], [25], [23] + Ones(MAX_BYTES));
    LeadOfOnes(MAX_BYTES, []);
    Decoded(11, 1, 1, []);
  }
}
