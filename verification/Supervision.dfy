/** The supervisor: event handlers over its own fields, the continuity kernel and the journal.

    Sends to a worker, writes to the public stream, process launches and clocks are outside events:
    each may fail or fire at will. The ghost run records every step that the abstract host (module
    Authority) knows about; it is only ever extended by `Note`, which demands that the host permits
    the step. A handler that returns false ends the supervisor, except where its caller says so. */
module Supervision {
  import opened Wire
  import opened Replay
  import opened Kernel
  import opened KernelInvariant
  import opened HostKernel
  import opened Journal
  import opened Authority
  import opened Control
  import opened ControlSteps
  import opened HostRecovery
  import R = KernelRuns

  const COUNTER_MAX: nat := 0xFFFF_FFFF_FFFF_FFFF

  // ---------------------------------------------------------------- steps on the desk

  /** After a reply to the oldest obligation, or to the held catalog request. */
  function Relayed(desk: Desk): Desk {
    if desk.due == [] then Desk([], None) else Desk(desk.due[1..], desk.held)
  }

  predicate CanReply(desk: Desk, id: RequestId, word: Word) {
    if desk.due == [] then desk.held == Some(id) && word.Listed? else
      || desk.due[0] == ToClient(id, word)
      || (desk.due[0].Place? && AsksCatalog(desk.due[0].frame) && desk.due[0].frame.envelope.id == id && word.Listed?)
  }

  lemma {:induction false} RelayClears(h: Host, id: RequestId, word: Word)
    requires CanReply(h.desk, id, word)
    ensures h.Permits(Relay(id, word))
    ensures h.Apply(Relay(id, word)) == h.(desk := Relayed(h.desk))
  {
    assert forall d: seq<Due> :: d + [] == d;
  }

  /** What the event loop waits for. A tick says whether the candidate's deadline and the recovery
      backoff have passed, and which release the channel names. */
  datatype Event =
    | FromClient(payload: Payload)
    | ClientEnd
    | FromWorker(token: nat, payload: Payload)
    | WorkerGone(token: nat)
    | Tick(expired: bool, retryDue: bool, observed: Option<Release>)

  class Supervisor {
    const reading: Reading
    /** In a reliable world no write to the client, no delivery to the serving worker and no launch
        fails; in any other each of them may. */
    const reliable: bool
    /** Private requests are numbered: whether the one with this number gets through to its worker. */
    const arrives: nat -> bool
    const kernel: HostSessionKernel
    const journal: SessionJournal
    var active: Option<Worker>
    var candidate: Option<Candidate>
    var published: Option<Catalog>
    var internal: map<RequestId, InternalRequest>
    var callbacks: map<RequestId, CallbackRoute>
    var phase: RolloverPhase
    var nextWorker: nat
    var nextInternal: nat
    var nextCallback: nat
    var recoveryRelease: Release
    var rejectedGeneration: Option<Name>
    var refreshRequest: Option<Frame>
    ghost var run: Run
    ghost var host: Host

    // -------------------------------------------------------------- what holds

    ghost function View(): View
      reads this
    {
      Control.View(host, active, candidate, published, internal, callbacks, phase, nextWorker, nextInternal,
          nextCallback, refreshRequest, rejectedGeneration)
    }

    /** The ghost run is accepted and has led to the host as it is; its frames came out of the parser. */
    ghost predicate Logged()
      reads this
    {
      run.Accepted() && run.Last() == host && AllSealed(run.acts, reading.parse)
    }

    /** The ghost run is accepted, the host is where it ended, and kernel and journal agree with it. */
    ghost predicate Chronicled()
      reads this, kernel, journal
    {
      && Logged()
      && kernel.Model() == host.k
      && journal.Valid()
      && journal.entries == host.book.entries
      && Homed()
      && nextWorker <= COUNTER_MAX && nextInternal <= COUNTER_MAX && nextCallback <= COUNTER_MAX
    }

    /** What recovery launches is the release that serves, or that served last. */
    predicate Homed()
      reads this
    {
      && (active.Some? ==> active.value.release == recoveryRelease)
      && (candidate.Some? && candidate.value.purpose.Recovery? ==> candidate.value.worker.release == recoveryRelease)
    }

    ghost predicate SealAgrees()
      reads this, journal
    {
      (journal.pinned || journal.checkpointed) == host.book.sealed
    }

    /** Between steps, with these obligations open. */
    ghost predicate Holds(due: seq<Due>)
      reads this, kernel, journal
    {
      Chronicled() && SealAgrees() && Sound(View(), due)
    }

    /** In the middle of a restoration. */
    ghost predicate HoldsBase()
      reads this, kernel, journal
    {
      Chronicled() && SealAgrees() && Base(View(), [])
    }

    /** A supervisor whose first worker has been launched. */
    constructor Start(reading: Reading, reliable: bool, arrives: nat -> bool, initial: Release)
      ensures Holds([]) && Quiet(View()) && fresh(kernel) && fresh(journal)
      ensures this.reading == reading && this.reliable == reliable && this.arrives == arrives
      ensures recoveryRelease == initial
      ensures View() == Control.View(host, Some(Worker(1, initial, None)), None, None, map[], map[], NoRollover, 1, 0,
          0, None, None)
      ensures host.k == R.ColdState && host.book == Book([], [], false)
    {
      hide Base, Sound, Quiet, Host.Apply, Host.Permits, HostInv, Run.Accepted, AllSealed, Activations;
      this.reading, this.reliable, this.arrives := reading, reliable, arrives;
      kernel := new HostSessionKernel.Cold();
      journal := new SessionJournal();
      active := Some(Worker(1, initial, None));
      candidate, published, refreshRequest, rejectedGeneration := None, None, None, None;
      internal, callbacks := map[], map[];
      phase := NoRollover;
      nextWorker, nextInternal, nextCallback := 1, 0, 0;
      recoveryRelease := initial;
      ghost var begun := NothingYet(reading.parse);
      run := begun;
      host := begun.Last();
      new;
      ghost var started, v := FreshIsSound(initial);
      Note(Activate(1));
      assert View() == v;
    }

    // -------------------------------------------------------------- the ghost run

    ghost method Note(a: Act)
      requires Logged() && host.Permits(a) && SealedAct(a, reading.parse) && run.Warrants(a)
      modifies this`run, this`host
      ensures Logged()
      ensures host == old(host).Apply(a) && run.Warrant() == Fulfilled(old(host).k, a)
      ensures run.acts == old(run.acts) + [a]
      ensures Activations(run.acts) == Activations(old(run.acts)) + if a.Activate? then 1 else 0
    {
      hide Base, Host.Apply, Desk.Serves;
      ThenIsAccepted(run, a);
      OneMoreAct(run.acts, a, reading.parse);
      run := run.Then(a);
      host := host.Apply(a);
    }

    ghost method NoteSeat(a: Act)
      requires Logged() && host.Permits(a) && OfSeat(a) && host.desk.due == []
      modifies this`run, this`host
      ensures Logged()
      ensures host == old(host).(seat := old(host).seat.After(a))
      ensures run.acts == old(run.acts) + [a]
      ensures Activations(run.acts) == Activations(old(run.acts)) + if a.Activate? then 1 else 0
    {
      hide Sound, Host.Apply, Seat.After, Run.Accepted, AllSealed, Activations;
      SeatStep(host, a);
      Note(a);
    }

    lemma Reached()
      requires Logged()
      ensures HostInv(host)
    {
      GenerationPinning(run, |run.acts|);
    }

    lemma HoldsIsBase()
      requires Holds([])
      ensures HoldsBase()
    {
    }

    lemma ReachedSeed()
      requires Logged() && (host.k.phase.AwaitingInitialized? || host.k.phase.Live?)
      ensures host.k.seed.Some? && host.k.ReplaySeed() == Ok(host.k.seed)
      ensures reading.parse(host.k.seed.value.payload).Some?
      ensures host.k.phase.Live? ==> host.k.seed.value.notification.Some?
    {
      Reached();
      HostIsSealed(run, reading.parse);
      SeedAtHand(host.k, reading.parse);
    }

    // -------------------------------------------------------------- reads and sends

    function ActiveToken(): Option<nat>
      reads this
    {
      TokenOf(active)
    }

    /** The next private request can be numbered, and gets through. */
    predicate CanSend(serial: nat) {
      serial < COUNTER_MAX && arrives(serial + 1)
    }

    /** A write to the public stream that answers a client request. */
    method WriteReply(id: RequestId, word: Word) returns (ok: bool)
      requires Logged() && CanReply(host.desk, id, word)
      modifies this`run, this`host
      ensures Logged()
      ensures host == old(host).(desk := Relayed(old(host).desk))
      ensures run.acts == old(run.acts) + [Relay(id, word)]
      ensures Activations(run.acts) == Activations(old(run.acts))
      ensures reliable ==> ok
    {
      hide Base, Run.Accepted, Host.Apply, Desk.Serves, AllSealed, Activations;
      RelayClears(host, id, word);
      Note(Relay(id, word));
      ok := TryWrite();
    }

    /** A write to a pipe. */
    method TryWrite() returns (ok: bool)
      ensures reliable ==> ok
    {
      var written: bool := *;
      ok := reliable || written;
    }

    method SendActive(payload: Payload) returns (ok: bool)
      requires Logged()
      requires host.seat.active == ActiveToken()
      requires host.desk.due == [] || host.desk.due == [ToWorker(payload)]
      modifies this`run, this`host
      ensures Logged()
      ensures ok ==> active.Some? && host == old(host).(desk := Desk([], old(host).desk.held))
      ensures ok ==> run.acts == old(run.acts) + [Deliver(payload)]
      ensures !ok ==> unchanged(this)
      ensures Activations(run.acts) == Activations(old(run.acts))
      ensures reliable && active.Some? ==> ok
    {
      hide Base, Run.Accepted, AllSealed, Activations;
      if active.None? {
        return false;
      }
      ok := TryWrite();
      if ok {
        Note(Deliver(payload));
      }
    }

    /** The bytes have been delivered, or, in a world that is not reliable, their worker is lost. */
    predicate Carried(before: seq<Act>, payload: Payload, after: seq<Act>) {
      before + [Deliver(payload)] <= after || (!reliable && before + [Lose] <= after)
    }

    predicate Owns(token: nat)
      reads this
    {
      ActiveToken() == Some(token) || (candidate.Some? && candidate.value.worker.token == token)
    }

    /** A frame that is no request, to a worker that the host still owns. */
    method SendWorker(token: nat) returns (ok: bool)
      ensures ok ==> Owns(token)
      ensures reliable && Owns(token) ==> ok
    {
      var taken := TryWrite();
      ok := taken && Owns(token);
    }

    /** A private request under this number, to a worker that the host still owns. */
    method SendPrivate(token: nat, serial: nat) returns (ok: bool)
      ensures ok <==> arrives(serial) && Owns(token)
    {
      ok := arrives(serial) && Owns(token);
    }

    method InternalId(token: nat) returns (id: Option<RequestId>)
      modifies this`nextInternal
      requires nextInternal <= COUNTER_MAX
      ensures nextInternal <= COUNTER_MAX
      ensures id.Some? == (old(nextInternal) < COUNTER_MAX)
      ensures id.None? ==> nextInternal == old(nextInternal)
      ensures id.Some? ==> nextInternal == old(nextInternal) + 1 && id.value == RequestId.Internal(token, nextInternal)
    {
      if nextInternal == COUNTER_MAX {
        return None;
      }
      nextInternal := nextInternal + 1;
      id := Some(RequestId.Internal(token, nextInternal));
    }

    method ActiveCallbacks() returns (n: nat)
      ensures n == 0 <==> forall id :: id in callbacks ==> Some(callbacks[id].worker) != ActiveToken()
    {
      var routed := set id | id in callbacks && Some(callbacks[id].worker) == ActiveToken();
      n := |routed|;
      assert n == 0 <==> routed == {};
      assert forall id :: id in routed <==> id in callbacks && Some(callbacks[id].worker) == ActiveToken();
    }

    predicate GatingNewWork()
      reads this
    {
      phase.Draining? || phase.Recovering?
    }

    // -------------------------------------------------------------- worker loss

    /** The refusals of a worker loss, in order, until a write fails. */
    method WriteRejections(rejected: seq<RejectedReplay>) returns (ok: bool)
      requires Logged() && host.desk.due == Replies(rejected)
      modifies this`run, this`host
      ensures Logged()
      ensures host == old(host).(desk := Desk([], old(host).desk.held))
      ensures old(run.acts) <= run.acts
      ensures reliable ==> ok
    {
      hide Base, Run.Accepted, Quiet, NoRevival, AllSealed, Activations;
      ok := true;
      for i := 0 to |rejected|
        invariant Logged() && (reliable ==> ok)
        invariant host == old(host).(desk := Desk(Replies(rejected[i..]), old(host).desk.held))
        invariant old(run.acts) <= run.acts
      {
        assert rejected[i..][1..] == rejected[i + 1..];
        ok := WriteReply(rejected[i].id, Refused(rejected[i].reason));
        if !ok {
          Note(Abandon);
          break;
        }
      }
    }

    /** Everything in flight is requeued or refused, and the client is told. */
    method RequeueInFlight() returns (ok: bool)
      requires Logged() && host.Permits(Lose) && kernel.Model() == host.k
      requires host.Apply(Lose).desk.due == Replies(host.k.Requeue(RECOVERY).1.rejected)
      modifies this`run, this`host, kernel
      ensures Logged() && kernel.Model() == host.k
      ensures host == old(host).Apply(Lose).(desk := Desk([], old(host).desk.held))
      ensures old(run.acts) + [Lose] <= run.acts
      ensures reliable ==> ok
    {
      hide Run.Accepted, AllSealed, Activations;
      var outcome := kernel.RequeuePendingForReplay(RECOVERY);
      Note(Lose);
      ok := WriteRejections(outcome.rejected);
    }

    /** The active worker, its nested routes, every candidate and every private request are dropped. */
    method ReleaseWorkers()
      modifies this`active, this`callbacks, this`candidate, this`internal, this`phase
      ensures active.None? && candidate.None? && internal == map[] && phase.Recovering?
      ensures callbacks == Retained(old(callbacks), old(ActiveToken()))
    {
      var token := ActiveToken();
      active := None;
      callbacks := Retained(callbacks, token);
      candidate := None;
      internal := map[];
      phase := Recovering;
    }

    /** The active worker is gone: everything in flight is requeued or refused, and every candidate,
        private request and nested route goes with it. Any other worker is no concern of this. */
    method HandleWorkerLossById(token: Option<nat>, ghost due: seq<Due>) returns (ok: bool)
      requires Chronicled() && SealAgrees() && Base(View(), due) && Interruptible(due)
      modifies this, kernel
      ensures token.None? || old(ActiveToken()) != token ==> ok && unchanged(this) && unchanged(kernel)
      ensures token.Some? && old(ActiveToken()) == token ==> (
        && Holds([]) && Quiet(View()) && old(View()).host.Permits(Lose)
        && View() == AfterLoss(old(View())))
      ensures token.Some? && old(ActiveToken()) == token ==> old(run.acts) + [Lose] <= run.acts
      ensures old(run.acts) <= run.acts
      ensures reliable ==> ok
    {
      hide Run.Accepted, AllSealed, Base, Sound, Quiet, HostInv, Host.Permits, Host.Apply, State.Requeue, Activations;
      if token.None? || ActiveToken() != token {
        return true;
      }
      ghost var v := View();
      Reached();
      LossKeeps(v, due);
      ReleaseWorkers();
      ok := RequeueInFlight();
      assert View() == AfterLoss(v);
    }

    // -------------------------------------------------------------- dispatch

    /** Delivers what is due to the active worker; a failed delivery is the loss of that worker. */
    method SendActiveOrRecover(payload: Payload) returns (ok: bool)
      requires Chronicled() && SealAgrees() && Sound(View(), [ToWorker(payload)]) && active.Some?
      modifies this, kernel
      ensures Holds([])
      ensures active.Some? ==> ok && View() == Met(old(View())) && unchanged(kernel)
      ensures active.None? ==> LostSince(old(View()), View())
      ensures Carried(old(run.acts), payload, run.acts)
      ensures reliable ==> ok && active.Some?
    {
      hide Run.Accepted, AllSealed, Activations;
      var token := ActiveToken();
      MetKeeps(View(), [ToWorker(payload)]);
      var sent := SendActive(payload);
      ok := true;
      if !sent {
        ok := HandleWorkerLossById(token, [ToWorker(payload)]);
      } else {
        assert View() == Met(old(View()));
      }
    }

    /** The refusal of a client frame, if it is a request; a refused notification is only logged. */
    method RejectClientFrame(f: Frame, reason: HostRejection) returns (ok: bool)
      requires Chronicled() && SealAgrees() && Sound(View(), Refusal(f, reason))
      modifies this`run, this`host
      ensures Holds([]) && View() == Met(old(View()))
      ensures old(run.acts) <= run.acts
      ensures Activations(run.acts) == Activations(old(run.acts))
      ensures reliable ==> ok
    {
      hide Quiet, Host.Permits, Host.Apply, Run.Accepted, AllSealed, Activations;
      MetKeeps(View(), Refusal(f, reason));
      ok := true;
      if f.envelope.Request? {
        ok := WriteReply(f.envelope.id, Refused(reason));
      }
    }

    /** Answers a catalog request from the published catalog. */
    method ReplyCatalog(f: Frame) returns (ok: bool)
      requires Logged() && f.envelope.Request? && CanReply(host.desk, f.envelope.id, Listed([]))
      requires |host.desk.due| <= 1 && (host.desk.due == [] ==> published.Some?)
      requires host.desk.due != [] ==> host.desk.due[0].Place?
      modifies this`run, this`host
      ensures Logged()
      ensures host == old(host).(desk := Relayed(old(host).desk))
      ensures published.None? ==> !ok
      ensures reliable ==> (ok <==> published.Some?)
      ensures run.acts == old(run.acts) +
          [if published.None? then Abandon else Relay(f.envelope.id, Listed(published.value.canonical))]
      ensures Activations(run.acts) == Activations(old(run.acts))
    {
      hide Sound, Run.Accepted, AllSealed, Activations;
      if published.None? {
        Note(Abandon);
        return false;
      }
      ok := WriteReply(f.envelope.id, Listed(published.value.canonical));
    }

    /** First dispatch of a client request: admission under the contract that the current catalog
        gives it, then delivery; or its refusal. */
    method DispatchRequest(f: Frame) returns (ok: bool)
      requires Chronicled() && SealAgrees() && Sound(View(), [Place(f)]) && f.envelope.Request?
      requires active.Some? && !phase.Draining?
      requires Sealed(f, reading.parse)
      modifies this, kernel
      ensures Holds([])
      ensures active.Some? ==> (
        && View() == old(View()).(host := host) && kernel.queue == old(kernel.queue)
        && KeepsFlight(old(host).k, host.k))
      ensures active.Some? && Flushed(old(host).k.pending, old(host).seat.active) ==> (
        Flushed(host.k.pending, host.seat.active))
      ensures active.None? ==> LostSince(old(View()), View())
      ensures old(run.acts) + [Act.Admit(f, Classify(reading, old(published), f))] <= run.acts
      ensures reliable && old(host).k.Begin(f, Classify(reading, published, f), PENDING_CAPACITY).result.Ok? ==> (
        && ok && active.Some?
        && host.k == old(host).k.Begin(f, Classify(reading, published, f), PENDING_CAPACITY).kernel
        && host.book == old(host).book)
      ensures reliable ==> ok && active.Some?
      ensures active.Some? ==> (CatalogWaits(host.k) <==> CatalogWaits(old(host).k))
    {
      hide Base, Run.Accepted, Flushed, AllSealed, State.Begin, CatalogWaits, Activations;
      var contract := Classify(reading, published, f);
      ClassificationGrants(reading, published, f);
      var admitted := Admit(f, contract);
      match admitted {
        case Err(reason) => ok := RejectClientFrame(f, reason);
        case Ok(_) => ok := SendActiveOrRecover(f.payload);
      }
    }

    method Admit(f: Frame, contract: ReplayContract) returns (r: Result<RequestId>)
      requires Chronicled() && SealAgrees() && Sound(View(), [Place(f)]) && f.envelope.Request?
      requires active.Some? && !phase.Draining? && !contract.ProbeRequired?
      requires Sealed(f, reading.parse)
      modifies this`run, this`host, kernel
      ensures Chronicled() && SealAgrees() && Sound(View(), AdmissionDue(f, r))
      ensures View() == old(View()).(host := host) && kernel.queue == old(kernel.queue)
      ensures KeepsFlight(old(host).k, host.k)
      ensures r == old(host).k.Begin(f, contract, PENDING_CAPACITY).result
      ensures CatalogWaits(host.k) <==> CatalogWaits(old(host).k)
      ensures Flushed(old(host).k.pending, old(host).seat.active) ==> Flushed(host.k.pending, host.seat.active)
      ensures run.acts == old(run.acts) + [Act.Admit(f, contract)]
      ensures r.Ok? ==> (
        host.k == old(host).k.Begin(f, contract, PENDING_CAPACITY).kernel && host.book == old(host).book)
    {
      hide Run.Accepted, Flushed, State.Begin, AllSealed, HostInv, KeepsFlight, CatalogWaits, Activations;
      ghost var v := View();
      ghost var a := Act.Admit(f, contract);
      Reached();
      AdmissionKeeps(v, f, contract);
      AdmissionLeavesCatalogs(v.host.k, f, contract);
      r := kernel.BeginRequestDispatch(f, contract, PENDING_CAPACITY);
      Note(a);
      assert View() == Stepped(v, a);
    }

    method PopNext() returns (r: Result<DispatchOutcome>)
      requires Holds([]) && active.Some? && !phase.Draining?
      modifies this`run, this`host, kernel
      ensures Chronicled() && SealAgrees() && r.Ok? && Sound(View(), Taken(r.value))
      ensures View() == old(View()).(host := host) && KeepsFlight(old(host).k, host.k)
      ensures !r.value.HeldForProbe?
      ensures r.value.Empty? ==> kernel.queue == []
      ensures !r.value.Empty? ==> |kernel.queue| < |old(kernel.queue)|
      ensures r.value.ClientFrame? ==> !r.value.frame.envelope.Response?
      ensures !r.value.Replayed? ==> Flushed(host.k.pending, host.seat.active)
      ensures run.acts == old(run.acts) + [Pop]
      ensures r.value.ClientFrame? ==> Sealed(r.value.frame, reading.parse)
      ensures old(kernel.queue) == [] ==> r.value.Empty? && Idle(old(View()), View())
      ensures Advances(old(host).k, r.value, host.k)
    {
      hide Run.Accepted, AllSealed, Base, Sound, Host.Apply, Host.Permits, HostInv, KeepsFlight, Flushed, Advances,
        Activations;
      Reached();
      HostIsSealed(run, reading.parse);
      ghost var w, outcome := PopKeepsView(View(), reading.parse);
      r := kernel.PopNextDispatch();
      Note(Pop);
      assert View() == w;
    }

    /** Hands one popped entry on; a catalog request is answered here, a request is dispatched, and a
        notification is passed on as it is. */
    method Forward(r: DispatchOutcome) returns (ok: bool)
      requires Chronicled() && SealAgrees() && Sound(View(), Taken(r)) && active.Some? && !phase.Draining?
      requires r.Replayed? || (r.ClientFrame? && !r.frame.envelope.Response?)
      requires r.ClientFrame? ==> Flushed(host.k.pending, host.seat.active)
      requires r.ClientFrame? ==> Sealed(r.frame, reading.parse)
      modifies this, kernel
      ensures Holds([])
      ensures active.Some? ==> (
        && View() == old(View()).(host := host) && kernel.queue == old(kernel.queue)
        && KeepsFlight(old(host).k, host.k))
      ensures active.Some? && r.ClientFrame? ==> Flushed(host.k.pending, host.seat.active)
      ensures active.Some? && !ok ==> r.ClientFrame?
      ensures active.None? ==> LostSince(old(View()), View())
      ensures old(run.acts) <= run.acts
      ensures r.ClientFrame? && AsksCatalog(r.frame) && old(published).None? ==> !ok
      ensures reliable ==> active.Some? && (ok || (r.ClientFrame? && AsksCatalog(r.frame) && published.None?))
      ensures active.Some? ==> (CatalogWaits(host.k) <==> CatalogWaits(old(host).k))
    {
      hide Host.Permits, AllSealed, Run.Accepted, CatalogWaits, Activations;
      if r.ClientFrame? && AsksCatalog(r.frame) {
        MetKeeps(View(), Taken(r));
        ok := ReplyCatalog(r.frame);
        assert View() == Met(old(View()));
      } else if r.ClientFrame? && r.frame.envelope.Request? {
        ok := DispatchRequest(r.frame);
      } else {
        ok := SendActiveOrRecover(r.frame.payload);
      }
    }

    /** Hands out the queue in order while the active worker serves; it always stops, since each round
        takes an entry off. In a reliable world it fails exactly if there is no published catalog and a
        catalog request waits; so with a published catalog it succeeds, and the queue is empty then.
        Errors leave nothing scheduled behind an active worker either. */
    method FlushQueue() returns (ok: bool)
      requires Holds([])
      modifies this, kernel
      ensures Holds([])
      ensures old(active).None? || !old(phase).NoRollover? ==> ok && unchanged(this) && unchanged(kernel)
      ensures active.Some? ==> View() == old(View()).(host := host)
      ensures active.Some? && old(phase).NoRollover? ==> (
        Flushed(host.k.pending, host.seat.active) && (ok ==> kernel.queue == []))
      ensures active.Some? ==> KeepsFlight(old(host).k, host.k)
      ensures active.None? && old(active).Some? ==> LostSince(old(View()), View())
      ensures old(active).Some? && old(phase).NoRollover? ==> old(run.acts) + [Pop] <= run.acts
      ensures old(run.acts) <= run.acts
      ensures old(kernel.queue) == [] ==> ok && Idle(old(View()), View())
      ensures reliable && old(active).Some? ==> active.Some?
      ensures reliable ==> (ok <==> !Starves(old(View())))
    {
      hide Base, Run.Accepted, AllSealed, CatalogWaits, Activations;
      ok := true;
      ghost var before := View();
      ghost var serving := active.Some? && phase.NoRollover?;
      while phase.NoRollover? && active.Some?
        invariant Holds([]) && ok && old(run.acts) <= run.acts
        invariant !serving ==> unchanged(this) && unchanged(kernel)
        invariant old(run.acts) + [Pop] <= run.acts || (run.acts == old(run.acts) && View() == before)
        invariant active.Some? ==> View() == before.(host := host) && KeepsFlight(before.host.k, host.k)
        invariant old(kernel.queue) == [] ==> Idle(before, View())
        invariant active.None? && before.active.Some? ==> LostSince(before, View())
        invariant reliable && before.active.Some? ==> active.Some?
        invariant active.Some? && before.published.None? ==> (CatalogWaits(host.k) <==> CatalogWaits(before.host.k))
        decreases if active.Some? then |kernel.queue| + 1 else 0
      {
        var empty;
        empty, ok := FlushNext();
        if empty || !ok {
          break;
        }
      }
    }

    /** One round: the next entry, if there is one, goes where it belongs. */
    method FlushNext() returns (empty: bool, ok: bool)
      requires Holds([]) && active.Some? && phase.NoRollover?
      modifies this, kernel
      ensures Holds([]) && old(run.acts) + [Pop] <= run.acts
      ensures empty ==> ok && active.Some? && kernel.queue == [] && Flushed(host.k.pending, host.seat.active)
      ensures active.Some? ==> View() == old(View()).(host := host) && KeepsFlight(old(host).k, host.k)
      ensures active.Some? && !empty ==> |kernel.queue| < |old(kernel.queue)|
      ensures active.Some? && !ok ==> Flushed(host.k.pending, host.seat.active)
      ensures active.None? ==> LostSince(old(View()), View())
      ensures old(kernel.queue) == [] ==> empty && Idle(old(View()), View())
      ensures empty ==> !CatalogWaits(old(host).k)
      ensures reliable ==> active.Some? && (ok || Starves(old(View())))
      ensures active.Some? && !empty && ok && old(published).None? ==> (
        CatalogWaits(host.k) <==> CatalogWaits(old(host).k))
    {
      hide Base, Run.Accepted, AllSealed, CatalogWaits, Activations;
      empty, ok := false, true;
      var popped := PopNext();
      if popped.value.Empty? {
        empty := true;
      } else {
        ok := Forward(popped.value);
      }
    }

    // -------------------------------------------------------------- candidates

    method DropCandidate()
      requires Logged() && host.desk.due == []
      requires candidate.Some? && host.seat.heir.Some?
      modifies this`candidate, this`internal, this`rejectedGeneration, this`run, this`host
      ensures Logged()
      ensures candidate.None? && internal == Others(old(internal), old(candidate).value.worker.token)
      ensures rejectedGeneration == if old(candidate).value.purpose.Rollover? then
          Some(old(candidate).value.worker.release.generation) else old(rejectedGeneration)
      ensures host == old(host).(seat := old(host).seat.(heir := None))
      ensures run.acts == old(run.acts) + [Discard]
      ensures Activations(run.acts) == Activations(old(run.acts))
    {
      hide Base, Host.Apply, Run.Accepted, AllSealed, Activations;
      NoteSeat(Discard);
      if candidate.value.purpose.Rollover? {
        rejectedGeneration := Some(candidate.value.worker.release.generation);
      }
      internal := Others(internal, candidate.value.worker.token);
      candidate := None;
    }

    /** Back to the incumbent: the fence is lifted and a held catalog request is given up. */
    method Reopen()
      requires Logged() && host.desk.due == [] && host.seat.heir.None?
      modifies this`phase, this`refreshRequest, this`run, this`host
      ensures Logged()
      ensures View() == AfterResume(old(View()))
      ensures old(run.acts) <= run.acts
    {
      hide Host.Apply, Run.Accepted, AllSealed, Activations;
      NoteSeat(Act.Open);
      ForgetStep(host);
      Note(Forget);
      phase := NoRollover;
      refreshRequest := None;
    }

    /** The incumbent serves on, and gets what was queued meanwhile. */
    method ResumeIncumbent() returns (ok: bool)
      requires Chronicled() && SealAgrees() && Sound(AfterResume(View()), [])
      requires active.Some? && host.desk.due == [] && host.seat.heir.None? && candidate.None?
      modifies this, kernel
      ensures Holds([]) && candidate.None?
      ensures ok || active.None? ==> Quiet(View())
      ensures active.Some? ==> View() == AfterResume(old(View())).(host := host) && KeepsFlight(old(host).k, host.k)
      ensures active.None? ==> phase.Recovering? && nextWorker == old(nextWorker)
      ensures old(run.acts) <= run.acts
      ensures reliable ==> active.Some? && (ok <==> !Starves(AfterResume(old(View()))))
    {
      hide Base, Run.Accepted, AllSealed, CatalogWaits, Activations;
      Reopen();
      ok := FlushQueue();
    }

    /** The candidate is given up. An incumbent stays the active worker, with everything it has in
        flight, and gets the queue that was held back, unless handing it out loses that worker. */
    method RejectCandidate() returns (ok: bool)
      requires HoldsBase()
      modifies this, kernel
      ensures Holds([]) && candidate.None?
      ensures ok || active.None? ==> Quiet(View())
      ensures active.Some? ==> (
        && active == old(active) && phase.NoRollover? && published == old(published)
        && KeepsFlight(old(host).k, host.k))
      ensures old(active).None? ==> ok && View() == AfterRejection(old(View()))
      ensures old(active).Some? && active.None? ==> phase.Recovering?
      ensures nextWorker == old(nextWorker)
      ensures reliable && (old(candidate).Some? || old(phase).Draining?) ==> (
        ok && View() == AfterRejection(old(View())).(host := host))
      ensures NoRevival(old(View()), old(run.acts), View(), run.acts)
      ensures old(candidate).Some? ==> old(run.acts) + [Discard] <= run.acts
      ensures old(run.acts) <= run.acts
    {
      hide Run.Accepted, AllSealed, Base, Sound, Quiet, HostInv, Host.Apply, Host.Permits, CatalogWaits, Activations;
      ghost var v := View();
      Reached();
      RejectionKeeps(v);
      RejectionFeeds(v);
      if candidate.Some? {
        DropCandidate();
      }
      if active.Some? {
        assert AfterResume(View()) == AfterRejection(v);
        ok := ResumeIncumbent();
      } else {
        assert View() == AfterRejection(v);
        ok := true;
      }
    }

    /** The candidate takes the seat; the incumbent's nested routes end with it. */
    method InstallCandidate()
      requires Logged() && host.desk.due == []
      requires candidate.Some? && host.Permits(Activate(candidate.value.worker.token))
      requires Routed(callbacks, ActiveToken())
      modifies this`candidate, this`published, this`recoveryRelease, this`active, this`callbacks, this`phase,
          this`run, this`host
      ensures Logged()
      ensures candidate.None? && active == Some(old(candidate).value.worker)
      ensures published == old(candidate).value.worker.catalog
      ensures recoveryRelease == old(candidate).value.worker.release
      ensures callbacks == map[] && phase.NoRollover?
      ensures host == old(host).(seat := old(host).seat.After(Activate(old(candidate).value.worker.token)))
      ensures run.acts == old(run.acts) + [Activate(old(candidate).value.worker.token)]
    {
      hide AllSealed, Run.Accepted, Activations;
      var worker := candidate.value.worker;
      RetainNone(callbacks, ActiveToken());
      NoteSeat(Activate(worker.token));
      candidate := None;
      published := worker.catalog;
      recoveryRelease := worker.release;
      if active.Some? {
        callbacks := Retained(callbacks, ActiveToken());
      }
      active := Some(worker);
      phase := NoRollover;
    }

    /** Authority moves to the candidate; the held catalog request is answered from its catalog, and
        the queue is handed to it. */
    method ActivateCandidate() returns (ok: bool)
      requires HoldsBase() && MayActivate(View())
      modifies this, kernel
      ensures Holds([])
      ensures old(candidate).None? ==> ok && unchanged(this) && unchanged(kernel)
      ensures old(candidate).Some? ==> candidate.None? && (ok || active.None? ==> Quiet(View()))
      ensures old(candidate).Some? && active.Some? ==> (
        active == Some(old(candidate).value.worker) && phase.NoRollover? && refreshRequest.None?)
      ensures old(candidate).Some? ==> old(run.acts) + [Activate(old(candidate).value.worker.token)] <= run.acts
      ensures old(run.acts) <= run.acts
      ensures old(candidate).Some? && active.Some? && ok ==> kernel.queue == []
      ensures reliable && old(candidate).Some? ==> active.Some? && (ok <==> !Starves(AfterActivation(old(View()))))
    {
      hide Quiet, Host.Permits, Host.Apply, HostInv, AllSealed, Run.Accepted, CatalogWaits, Activations;
      if candidate.None? {
        return true;
      }
      ghost var v := View();
      Reached();
      ActivationKeeps(v);
      InstallCandidate();
      assert View() == AfterActivation(v);
      ok := OpenForBusiness();
    }

    /** A worker that has just taken over answers the held catalog request and gets the queue. */
    method OpenForBusiness() returns (ok: bool)
      requires Holds([]) && active.Some? && candidate.None? && phase.NoRollover?
      requires refreshRequest.Some? ==> published.Some?
      modifies this, kernel
      ensures Holds([]) && candidate.None? && (ok || active.None? ==> Quiet(View()))
      ensures active.Some? ==> active == old(active) && phase.NoRollover? && refreshRequest.None?
      ensures old(run.acts) <= run.acts
      ensures active.Some? && ok ==> kernel.queue == []
      ensures reliable ==> active.Some? && (ok <==> !Starves(old(View())))
    {
      hide Run.Accepted, Flushed, AllSealed, CatalogWaits, Activations;
      RefreshKeeps(View());
      if refreshRequest.Some? {
        ok := AnswerHeld();
        if !ok {
          return;
        }
      }
      ok := FlushQueue();
    }

    method AnswerHeld() returns (ok: bool)
      requires Holds([]) && refreshRequest.Some? && published.Some?
      modifies this`refreshRequest, this`run, this`host
      ensures Chronicled() && SealAgrees() && View() == AfterRefresh(old(View()))
      ensures old(run.acts) <= run.acts
      ensures reliable ==> ok
    {
      hide Run.Accepted, AllSealed, Activations;
      var refresh := refreshRequest.value;
      refreshRequest := None;
      ok := ReplyCatalog(refresh);
    }

    // -------------------------------------------------------------- restoration

    /** The first journal entry is due, and cannot be sent. */
    ghost predicate CannotBegin(v: View) {
      JournalDue(v) && !CanSend(v.serial)
    }

    /** Starts handing the session over once the incumbent owes nothing; a session whose state is not
        in the journal alone cannot be handed over. When the first journal entry is due, the host ends
        exactly if it cannot be sent; in a reliable world it ends for no other reason. */
    method TryBeginRestore() returns (ok: bool)
      requires Holds([]) && Quiet(View())
      requires candidate.Some? ==> !candidate.value.stage.Restoring?
      modifies this, kernel
      ensures HoldsBase()
      ensures ok ==> Holds([]) && Quiet(View())
      ensures NoRevival(old(View()), old(run.acts), View(), run.acts)
      ensures !old(phase).Draining? || old(host).k.HasInFlight() || old(callbacks) != map[] ==>
          ok && unchanged(this) && unchanged(kernel)
      ensures old(phase).Draining? && !old(host).k.HasInFlight() && old(callbacks) == map[] ==>
          old(candidate).Some? ==> (
        if old(host).book.sealed then old(run.acts) + [Discard] <= run.acts
        else if old(host).book.entries == [] then
            old(run.acts) + [Activate(old(candidate).value.worker.token)] <= run.acts
        else old(nextInternal) < COUNTER_MAX ==> old(run.acts) + [Send(old(host).book.entries[0])] <= run.acts)
      ensures old(run.acts) <= run.acts
      ensures JournalDue(old(View())) ==> (ok <==> CanSend(old(nextInternal)))
      ensures JournalDue(old(View())) && ok ==> Waits(old(View()), View(), Restoring, RestoreJournal(0))
      ensures reliable && old(phase).Draining? && Handable(old(View())) ==>
          old(candidate).Some? && old(host).book.entries == [] ==>
          Relieved(old(candidate).value.worker.token, View())
      ensures reliable ==> (ok <==> !CannotBegin(old(View())))
    {
      hide Run.Accepted, AllSealed, Activations;
      var inFlight := kernel.HasInFlightDispatches();
      var nested := ActiveCallbacks();
      if !phase.Draining? || inFlight || nested != 0 {
        return true;
      }
      if journal.pinned || journal.checkpointed {
        ok := RejectCandidate();
        return;
      }
      Reached();
      NoActiveCallbacks(View());
      ReadyIsRestorable(View());
      ok := ContinueRestore(0);
    }

    /** Sends the candidate the journal entry at `index`, or lets it take over after the last. */
    method ContinueRestore(index: nat) returns (ok: bool)
      requires HoldsBase() && Quiet(View()) && Restorable(View(), index)
      modifies this, kernel
      ensures HoldsBase()
      ensures ok ==> Holds([]) && Quiet(View())
      ensures old(candidate).Some? && index < |old(journal.entries)| ==>
        candidate.Some? && candidate.value.stage.Restoring? && host.k == old(host).k && active == old(active)
      ensures old(candidate).Some? && index >= |old(journal.entries)| ==> (
        old(run.acts) + [Activate(old(candidate).value.worker.token)] <= run.acts)
      ensures old(candidate).Some? && index < |old(journal.entries)| && old(nextInternal) < COUNTER_MAX ==> (
        old(run.acts) + [Send(old(journal.entries)[index])] <= run.acts)
      ensures old(run.acts) <= run.acts
      ensures NoRevival(old(View()), old(run.acts), View(), run.acts)
      ensures old(candidate).Some? && index < |old(host).book.entries| ==> (ok <==> CanSend(old(nextInternal)))
      ensures old(candidate).Some? && index < |old(host).book.entries| && ok ==> (
        Waits(old(View()), View(), Restoring, RestoreJournal(index)))
      ensures index >= |old(host).book.entries| ==> reliable ==> (
        ok && (old(candidate).Some? ==> Relieved(old(candidate).value.worker.token, View())))
      ensures old(candidate).None? && index < |old(host).book.entries| ==> ok
    {
      hide Run.Accepted, Host.Permits, AllSealed, Activations;
      if index >= |journal.entries| {
        RestoredMayActivate(View(), index);
        ok := ActivateCandidate();
        return;
      }
      if candidate.None? {
        return true;
      }
      StageKeeps(View(), index);
      candidate := Some(candidate.value.(stage := Restoring, armed := true));
      assert View() == AfterStage(old(View()));
      ok := SendEntry(index);
    }

    method SendEntry(index: nat) returns (ok: bool)
      requires HoldsBase() && Quiet(View()) && Restorable(View(), index) && index < |journal.entries|
      requires candidate.Some? && candidate.value.stage.Restoring?
      modifies this`nextInternal, this`internal, this`run, this`host
      ensures HoldsBase()
      ensures ok ==> Holds([]) && Quiet(View())
      ensures host.k == old(host).k
      ensures old(nextInternal) < COUNTER_MAX ==> old(run.acts) + [Send(old(journal.entries)[index])] <= run.acts
      ensures old(run.acts) <= run.acts
      ensures ok <==> CanSend(old(nextInternal))
      ensures ok ==> Waits(old(View()), View(), Restoring, RestoreJournal(index))
      ensures candidate == old(candidate) && phase == old(phase)
    {
      hide Run.Accepted, AllSealed, Base, Sound, Restorable, Quiet, Activations;
      NextSerial(View(), nextInternal + 1, index);
      RestorableIsEmpty(View(), index);
      var token := candidate.value.worker.token;
      var id := InternalId(token);
      if id.None? {
        return false;
      }
      NoteSend(id.value, index);
      HoldsIsBase();
      ok := SendPrivate(token, nextInternal);
    }

    method NoteSend(id: RequestId, index: nat)
      requires HoldsBase() && Quiet(View()) && Restorable(View(), index) && index < |journal.entries|
      requires candidate.Some? && candidate.value.stage.Restoring?
      modifies this`internal, this`run, this`host
      ensures Holds([]) && Quiet(View()) && old(View()).host.seat.heir.Some?
      ensures View() == AfterSend(old(View()), id, index)
      ensures run.acts == old(run.acts) + [Send(journal.entries[index])]
    {
      hide Run.Accepted, AllSealed, Base, Sound, Host.Apply, Host.Permits, Restorable, Activations;
      ghost var v := View();
      SendKeeps(v, id, index);
      NoteSeat(Send(journal.entries[index]));
      internal := internal[id := InternalRequest(candidate.value.worker.token, RestoreJournal(index))];
      assert View() == AfterSend(v, id, index);
    }

    // -------------------------------------------------------------- preparing a worker

    /** Launches a worker of a release, under a fresh number; verification or launch may fail. */
    method SpawnWorker(release: Release) returns (worker: Option<Worker>)
      requires nextWorker <= COUNTER_MAX
      modifies this`nextWorker
      ensures old(nextWorker) <= nextWorker <= COUNTER_MAX
      ensures worker.Some? ==> old(nextWorker) < nextWorker && worker.value == Worker(nextWorker, release, None)
      ensures reliable && old(nextWorker) < COUNTER_MAX ==> worker.Some? && nextWorker == old(nextWorker) + 1
    {
      var verified, launched: bool := *, *;
      if !(verified || reliable) || nextWorker == COUNTER_MAX {
        return None;
      }
      nextWorker := nextWorker + 1;
      worker := if launched || reliable then Some(Worker(nextWorker, release, None)) else None;
    }

    method TakeNumber(token: nat) returns (id: Option<RequestId>)
      requires Holds([])
      modifies this`nextInternal
      ensures Holds([]) && View() == old(View()).(serial := nextInternal)
      ensures id.Some? == (old(nextInternal) < COUNTER_MAX)
      ensures id.None? ==> nextInternal == old(nextInternal)
      ensures id.Some? ==> nextInternal == old(nextInternal) + 1 && id.value == RequestId.Internal(token, nextInternal)
    {
      hide Run.Accepted, Quiet, AllSealed, Base, Sound, Activations;
      HoldsIsBase();
      NextSerial(View(), nextInternal + 1, 0);
      id := InternalId(token);
    }

    /** A private request goes out under the next number, if there is one. */
    method AskPrivately(token: nat, action: InternalAction) returns (ok: bool)
      requires Holds([]) && internal == map[] && Owns(token)
      requires Errand(InternalRequest(token, action), host.seat, candidate, host.k.phase, published)
      modifies this`nextInternal, this`internal
      ensures Holds([]) && View() == old(View()).(internal := internal, serial := nextInternal)
      ensures ok <==> CanSend(old(nextInternal))
      ensures ok ==> nextInternal == old(nextInternal) + 1
      ensures ok ==> internal == map[RequestId.Internal(token, nextInternal) := InternalRequest(token, action)]
    {
      hide Run.Accepted, Quiet, AllSealed, Base, Sound, Errand, Activations;
      var id := TakeNumber(token);
      if id.None? {
        return false;
      }
      ghost var v := View();
      RequestKeeps(v, id.value, InternalRequest(token, action));
      internal := internal[id.value := InternalRequest(token, action)];
      assert View() == AfterRequest(v, id.value, InternalRequest(token, action));
      ok := SendPrivate(token, nextInternal);
    }

    lemma SeatedActive(v: View)
      requires Base(v, [])
      ensures v.host.seat.active == TokenOf(v.active)
    {
    }

    lemma CandidateHasSeed(v: View)
      requires Base(v, []) && v.candidate.Some?
      ensures v.host.k.phase.AwaitingInitialized? || v.host.k.phase.Live?
    {
    }

    /** The private handshake: the client's own initialize request under a private id. */
    method SeedCandidateInitialize(token: nat) returns (ok: bool)
      requires Holds([]) && internal == map[]
      requires candidate.Some? && candidate.value.worker.token == token && candidate.value.stage.AwaitingInitialize?
      modifies this`nextInternal, this`internal
      ensures Holds([]) && View() == old(View()).(internal := internal, serial := nextInternal)
      ensures ok <==> CanSend(old(nextInternal))
      ensures ok ==> nextInternal == old(nextInternal) + 1 && Engaged(View(), AwaitingInitialize, CandidateInitialize)
    {
      hide Run.Accepted, Quiet, AllSealed, Base, Sound, HostInv, Activations;
      HoldsIsBase();
      CandidateHasSeed(View());
      ReachedSeed();
      var seed := kernel.PrepareReplaySeed();
      if seed.Err? || seed.value.None? {
        return false;
      }
      if reading.parse(seed.value.value.payload).None? {
        return false;
      }
      ok := AskPrivately(token, CandidateInitialize);
    }

    /** The rest of the private handshake: the client's own notification, then a catalog request. */
    method SeedCandidateCatalog() returns (ok: bool)
      requires Holds([]) && internal == map[]
      requires candidate.Some? ==> candidate.value.stage.AwaitingInitialize? && host.k.phase.Live?
      modifies this`nextInternal, this`internal, this`candidate
      ensures Holds([])
      ensures View() == old(View()).(internal := internal, candidate := candidate, serial := nextInternal)
      ensures old(candidate).Some? == candidate.Some?
      ensures NoRevival(old(View()), old(run.acts), View(), run.acts)
      ensures ok && old(candidate).Some? ==> Waits(old(View()), View(), AwaitingCatalog, CandidateCatalog)
      ensures reliable && old(candidate).Some? ==> (ok <==> CanSend(old(nextInternal)))
      ensures old(candidate).None? ==> ok && View() == old(View())
    {
      hide Base, Sound, Run.Accepted, Quiet, AllSealed, Activations;
      if candidate.None? {
        return true;
      }
      ghost var v := View();
      var token := candidate.value.worker.token;
      ReachedSeed();
      var seed := kernel.PrepareReplaySeed();
      if seed.Err? || seed.value.None? || seed.value.value.notification.None? {
        return false;
      }
      var sent := SendWorker(token);
      if !sent {
        return false;
      }
      HandshakeKeeps(v);
      candidate := Some(candidate.value.(stage := AwaitingCatalog));
      assert View() == AfterHandshake(v);
      ok := RequestCandidateCatalog(token);
    }

    method RequestCandidateCatalog(token: nat) returns (ok: bool)
      requires Holds([]) && internal == map[] && candidate.Some? && candidate.value.worker.token == token &&
          candidate.value.stage.AwaitingCatalog?
      modifies this`nextInternal, this`internal
      ensures Holds([]) && View() == old(View()).(internal := internal, serial := nextInternal)
      ensures ok <==> CanSend(old(nextInternal))
      ensures ok ==> nextInternal == old(nextInternal) + 1 && Engaged(View(), AwaitingCatalog, CandidateCatalog)
    {
      hide Base, Sound, Quiet, Run.Accepted, AllSealed, Activations;
      ok := AskPrivately(token, CandidateCatalog);
    }

    /** The first catalog of a session comes from the worker that already serves it. */
    method RequestActiveCatalog() returns (ok: bool)
      requires Holds([]) && internal == map[] && active.Some? && host.k.phase.Live? && published.None?
      modifies this`nextInternal, this`internal
      ensures Holds([]) && View() == old(View()).(internal := internal, serial := nextInternal)
      ensures ok <==> CanSend(old(nextInternal))
      ensures ok ==> nextInternal == old(nextInternal) + 1
      ensures ok ==> internal == map[
          RequestId.Internal(active.value.token, nextInternal) := InternalRequest(active.value.token, ActiveCatalog)]
    {
      hide Base, Sound, Run.Accepted, Quiet, AllSealed, Activations;
      HoldsIsBase();
      SeatedActive(View());
      ok := AskPrivately(active.value.token, ActiveCatalog);
    }

    method Propose(worker: Worker, purpose: Purpose)
      requires Holds([]) && MayPropose(View(), worker, purpose)
      requires purpose.Recovery? ==> worker.release == recoveryRelease
      modifies this`candidate, this`run, this`host
      ensures Holds([]) && View() == AfterProposal(old(View()), worker, purpose) && internal == map[]
      ensures run.acts == old(run.acts) + [Act.Propose(worker.token)]
      ensures Activations(run.acts) == Activations(old(run.acts))
    {
      hide Run.Accepted, AllSealed, Activations;
      ghost var v := View();
      Reached();
      ProposalKeeps(v, worker, purpose);
      NoteSeat(Act.Propose(worker.token));
      candidate := Some(Candidate(worker, purpose, AwaitingInitialize, true));
      assert View() == AfterProposal(v, worker, purpose);
    }

    /** A session that has not got past its own handshake starts over with the new worker; for any
        other the new worker is only a candidate. */
    ghost predicate Recovers(session: SessionPhase, token: nat, before: seq<Act>, after: seq<Act>) {
      before + [if session.Cold? || session.Initializing? then Activate(token) else Act.Propose(token)] <= after
    }

    /** Starts a worker for a session that has lost its own. Its failures are not the supervisor's:
        the caller tries again later. */
    method StartRecovery() returns (ok: bool)
      requires Holds([]) && active.None? && candidate.None? && phase.Recovering?
      modifies this, kernel
      ensures Holds([]) && Quiet(View())
      ensures phase.Recovering? || active.Some?
      ensures Recovers(old(host).k.phase, nextWorker, old(run.acts),
          run.acts) || (!ok && run.acts == old(run.acts) && host == old(host))
      ensures NoRevival(old(View()), old(run.acts), View(), run.acts)
      ensures old(run.acts) <= run.acts
      ensures reliable && CanSend(old(nextInternal)) && old(nextWorker) < COUNTER_MAX ==>
          (old(host).k.phase.AwaitingInitialized? || old(host).k.phase.Live?) ==>
          Waits(old(View()), View(), AwaitingInitialize, CandidateInitialize) &&
          candidate.value.worker.token == nextWorker && candidate.value.purpose.Recovery?
      ensures old(host).k.phase.AwaitingInitialized? || old(host).k.phase.Live? ==>
          candidate.Some? ==> candidate.value.worker.release == old(recoveryRelease)
      ensures reliable && old(nextWorker) < COUNTER_MAX ==>
          (old(host).k.phase.Cold? || old(host).k.phase.Initializing?) ==>
          old(run.acts) + [Activate(nextWorker)] <= run.acts
    {
      hide Run.Accepted, AllSealed, Activations;
      ghost var v := View();
      var worker := SpawnWorker(recoveryRelease);
      MoreWorkers(v, [], nextWorker);
      assert View() == v.(workers := nextWorker);
      if worker.None? {
        return false;
      }
      if kernel.phase.Cold? || kernel.phase.Initializing? {
        ok := Restart(worker.value);
        return;
      }
      ok := PrepareRecovery(worker.value);
    }

    /** A candidate for a session that can be replayed to it; if it cannot even be asked, it is
        dropped again. */
    method PrepareRecovery(worker: Worker) returns (ok: bool)
      requires Holds([]) && MayPropose(View(), worker, Recovery) && worker.release == recoveryRelease
      modifies this`candidate, this`internal, this`nextInternal, this`rejectedGeneration, this`run, this`host
      ensures Holds([]) && Quiet(View()) && (ok ==> candidate.Some? && candidate.value.worker == worker)
      ensures old(run.acts) + [Act.Propose(worker.token)] <= run.acts
      ensures NoRevival(old(View()), old(run.acts), View(), run.acts)
      ensures old(run.acts) <= run.acts
      ensures ok <==> CanSend(old(nextInternal))
      ensures ok ==> (
        && Waits(old(View()), View(), AwaitingInitialize, CandidateInitialize) && candidate.value.worker == worker
        && candidate.value.purpose.Recovery?)
    {
      hide Run.Accepted, HostInv, AllSealed, Base, Sound, Quiet, Host.Permits, Host.Apply, Hopeless, Activations;
      ghost var v := View();
      Propose(worker, Recovery);
      ok := SeedCandidateInitialize(worker.token);
      if ok {
        IdleIsQuiet(View());
      } else {
        Withdraw();
      }
      RecoveryIsStillHopeless(v, View());
    }

    lemma RecoveryIsStillHopeless(v: View, w: View)
      requires v.phase.Recovering? && w.active == v.active && w.published == v.published
      requires w.host.k.phase == v.host.k.phase && w.host.book == v.host.book
      ensures Hopeless(v) ==> Hopeless(w)
    {
    }

    /** Without an active worker nothing can be left behind. */
    lemma IdleIsQuiet(v: View)
      requires Sound(v, []) && v.active.None?
      ensures Quiet(v)
    {
    }

    /** A recovery candidate is dropped again. */
    method Withdraw()
      requires Holds([]) && candidate.Some? && active.None?
      modifies this`candidate, this`internal, this`rejectedGeneration, this`run, this`host
      ensures Holds([]) && Quiet(View()) && View() == AfterRejection(old(View()))
      ensures run.acts == old(run.acts) + [Discard]
      ensures Activations(run.acts) == Activations(old(run.acts))
    {
      hide Run.Accepted, AllSealed, Base, Sound, Quiet, HostInv, Host.Apply, Host.Permits, Activations;
      HoldsIsBase();
      ghost var v := View();
      Reached();
      RejectionKeeps(v);
      DropCandidate();
      assert View() == AfterRejection(v);
    }

    method Restart(worker: Worker) returns (ok: bool)
      requires Holds([]) && active.None? && candidate.None? && (kernel.phase.Cold? || kernel.phase.Initializing?)
      requires worker.catalog.None? && host.seat.born < worker.token <= nextWorker && worker.release == recoveryRelease
      modifies this, kernel
      ensures Holds([]) && Quiet(View()) && nextWorker == old(nextWorker) && (phase.Recovering? || active.Some?)
      ensures old(run.acts) + [Activate(worker.token)] <= run.acts
    {
      hide Run.Accepted, Host.Permits, HostInv, Desk.Serves, AllSealed, Activations;
      ghost var v := View();
      Reached();
      RestartKeeps(v, worker);
      NoteSeat(Activate(worker.token));
      active := Some(worker);
      phase := NoRollover;
      assert View() == AfterRestart(v, worker);
      ok := FlushQueue();
    }

    // -------------------------------------------------------------- readiness

    /** The candidate has shown its catalog. The same public catalog starts the handover at once; a
        changed one is announced, and the client is given time to ask for it. */
    method OnCandidateReady(catalog: Catalog) returns (ok: bool)
      requires Holds([]) && Quiet(View()) && internal == map[]
      requires candidate.Some? && candidate.value.stage.AwaitingCatalog?
      modifies this, kernel
      ensures Chronicled()
      ensures ok ==> Holds([]) && Quiet(View())
      ensures NoRevival(old(View()), old(run.acts), View(), run.acts)
      ensures old(published).Some? && old(published).value.canonical == catalog.canonical ==> (
        old(run.acts) + [Drain] <= run.acts)
      ensures !(old(published).Some? && old(published).value.canonical == catalog.canonical) && ok ==> (
        View() == AfterReady(old(View()), catalog, AwaitingCatalogRefresh))
      ensures old(run.acts) <= run.acts
      ensures reliable && CanSend(old(nextInternal)) ==> (
        Proceeds(old(View()), old(run.acts), CandidateCatalog, false, Some(catalog), ok, View(), run.acts))
      ensures reliable ==> (ok <==> !EndsOver(old(View()), CandidateCatalog, false, Some(catalog)))
    {
      hide Base, Run.Accepted, AllSealed, Activations;
      var same := published.Some? && published.value.canonical == catalog.canonical;
      if same {
        ok := HandOver(catalog);
        return;
      }
      ok := TryWrite();
      if ok {
        BecomeReady(catalog, AwaitingCatalogRefresh);
      }
    }

    /** The same public catalog: dispatch closes, and the journal goes over once nothing is in flight. */
    method HandOver(catalog: Catalog) returns (ok: bool)
      requires Holds([]) && Quiet(View()) && internal == map[]
      requires candidate.Some? && candidate.value.stage.AwaitingCatalog? && SamePublic(published, catalog)
      modifies this, kernel
      ensures Chronicled()
      ensures ok ==> Holds([]) && Quiet(View())
      ensures NoRevival(old(View()), old(run.acts), View(), run.acts)
      ensures old(run.acts) + [Drain] <= run.acts
      ensures Handable(old(View())) && old(host).book.entries == [] ==> Activated(old(run.acts), run.acts)
      ensures JournalDue(old(View()).(phase := Draining)) ==> (ok <==> CanSend(old(nextInternal)))
      ensures JournalDue(old(View()).(phase := Draining)) && ok ==> (
        Waits(old(View()), View(), Restoring, RestoreJournal(0)))
      ensures reliable ==> (ok <==> !CannotBegin(old(View()).(phase := Draining)))
      ensures reliable && Handable(old(View())) && old(host).book.entries == [] ==> (
        Relieved(old(candidate).value.worker.token, View()))
      ensures Owing(old(View())) ==> ok && View() == AfterReady(old(View()), catalog, Draining)
    {
      hide Base, Run.Accepted, AllSealed, Activations;
      BecomeReady(catalog, Draining);
      ghost var acts := run.acts;
      ok := TryBeginRestore();
      if Handable(old(View())) && old(host).book.entries == [] {
        ActivatedBy(acts, old(candidate).value.worker.token, run.acts);
      }
    }

    method BecomeReady(catalog: Catalog, next: RolloverPhase)
      requires Holds([]) && Quiet(View()) && internal == map[]
      requires candidate.Some? && candidate.value.stage.AwaitingCatalog?
      requires next.AwaitingCatalogRefresh? || (next.Draining? && published.Some?)
      modifies this`candidate, this`phase, this`run, this`host
      ensures Holds([]) && Quiet(View()) && View() == AfterReady(old(View()), catalog, next)
      ensures NoRevival(old(View()), old(run.acts), View(), run.acts)
      ensures run.acts == old(run.acts) + [if next.Draining? then Drain else Act.Open]
      ensures Activations(run.acts) == Activations(old(run.acts))
    {
      hide HostInv, Run.Accepted, AllSealed, Base, Sound, Quiet, Host.Permits, Host.Apply, Hopeless, Activations;
      ghost var v := View();
      ReadyKeeps(v, catalog, next);
      NoteSeat(if next.Draining? then Drain else Act.Open);
      var worker := candidate.value.worker.(catalog := Some(catalog));
      candidate := Some(candidate.value.(worker := worker, stage := Ready, armed := !next.Draining?));
      phase := next;
      assert View() == AfterReady(v, catalog, next);
    }

    method BeginDraining() returns (ok: bool)
      requires Holds([]) && Quiet(View())
      requires candidate.Some? && candidate.value.stage.Ready? && phase.AwaitingCatalogRefresh? && published.Some?
      modifies this, kernel
      ensures HoldsBase()
      ensures ok ==> Holds([]) && Quiet(View())
      ensures old(run.acts) + [Drain] <= run.acts
      ensures reliable ==> (ok <==> !CannotBegin(old(View()).(phase := Draining)))
    {
      hide Run.Accepted, AllSealed, Activations;
      ghost var v := View();
      DrainKeeps(v);
      NoteSeat(Drain);
      phase := Draining;
      candidate := Some(candidate.value.(armed := false));
      assert View() == AfterDrain(v);
      ok := TryBeginRestore();
    }

    method StartOver()
      requires Holds([]) && Quiet(View()) && active.None? && candidate.None?
      modifies this`phase, this`run, this`host
      ensures Holds([]) && Quiet(View()) && View() == AfterStartingOver(old(View()))
      ensures old(run.acts) <= run.acts
      ensures Activations(run.acts) == Activations(old(run.acts))
    {
      hide Host.Apply, Run.Accepted, AllSealed, Activations;
      ghost var v := View();
      StartingOverKeeps(v);
      NoteSeat(Act.Open);
      phase := Recovering;
      assert View() == AfterStartingOver(v);
    }

    lemma RecoveringIsIdle(v: View)
      requires Base(v, []) && v.candidate.Some? && v.candidate.value.purpose.Recovery?
      ensures v.active.None?
    {
    }

    /** The worker that was being brought up for recovery is gone: recovery begins again. */
    method LoseRecoveryCandidate()
      requires Holds([]) && Quiet(View()) && candidate.Some? && candidate.value.purpose.Recovery?
      modifies this`candidate, this`internal, this`rejectedGeneration, this`phase, this`run, this`host
      ensures Holds([]) && Quiet(View()) && View() == AfterStartingOver(AfterRejection(old(View())))
      ensures old(run.acts) + [Discard] <= run.acts
      ensures Activations(run.acts) == Activations(old(run.acts))
    {
      hide Run.Accepted, AllSealed, Base, Sound, HostInv, Host.Apply, Host.Permits, Activations;
      HoldsIsBase();
      RecoveringIsIdle(View());
      Withdraw();
      StartOver();
    }

    // -------------------------------------------------------------- private responses

    /** The answer to a private request over which the host ends in a reliable world: a handshake
        that is handed over while a catalog request waits, or a first journal entry that cannot go. */
    ghost predicate EndsOver(v: View, action: InternalAction, hasError: bool, catalog: Option<Catalog>) {
      !hasError &&
        match action
        case CandidateInitialize => v.host.k.phase.AwaitingInitialized? && CatalogWaits(v.host.k)
        case CandidateCatalog =>
          catalog.Some? && SamePublic(v.published, catalog.value) && CannotBegin(v.(phase := Draining))
        case _ => false
    }

    /** The answer to a private request, which has just been taken off the books. */
    method HandleInternalResponse(request: InternalRequest, f: Frame, hasError: bool) returns (ok: bool)
      requires Holds([]) && Quiet(View()) && internal == map[]
      requires Errand(request, host.seat, candidate, host.k.phase, published)
      modifies this, kernel
      ensures Chronicled()
      ensures ok ==> Holds([]) && Quiet(View())
      ensures NoRevival(old(View()), old(run.acts), View(), run.acts)
      ensures old(run.acts) <= run.acts
      ensures reliable && CanSend(old(nextInternal)) ==> (
        Proceeds(old(View()), old(run.acts), request.action, hasError, reading.catalog(f), ok, View(), run.acts))
      ensures reliable ==> (ok <==> !EndsOver(old(View()), request.action, hasError, reading.catalog(f)))
    {
      hide Run.Accepted, Host.Apply, KeepsFlight, AllSealed, Desk.Serves, CatalogWaits, Activations;
      match request.action {
        case ActiveCatalog =>
          var catalog := if hasError then None else reading.catalog(f);
          if catalog.None? {
            ok := HandleWorkerLossById(Some(request.worker), []);
          } else {
            ok := PublishCatalog(catalog.value);
          }
        case CandidateInitialize =>
          ok := OnHandshake(hasError);
        case CandidateCatalog =>
          var catalog := if hasError then None else reading.catalog(f);
          if catalog.None? {
            ok := RejectCandidate();
          } else {
            ok := OnCandidateReady(catalog.value);
          }
        case RestoreJournal(index) =>
          ok := OnRestored(index, hasError);
      }
    }

    method PublishCatalog(catalog: Catalog) returns (ok: bool)
      requires Holds([]) && internal == map[] && active.Some? && host.k.phase.Live? && published.None?
      modifies this, kernel
      ensures Holds([]) && (ok ==> Quiet(View()))
      ensures ok && active.Some? ==> published == Some(catalog) && kernel.queue == []
      ensures old(run.acts) <= run.acts
      ensures old(kernel.queue) == [] ==> (
        ok && View() == AfterCatalog(old(View()), catalog).(host := host) && SameCore(old(host), host))
      ensures reliable ==> ok && View() == AfterCatalog(old(View()), catalog).(host := host)
    {
      hide Run.Accepted, AllSealed, CatalogWaits, Activations;
      ghost var v := View();
      CatalogKeeps(v, catalog);
      active := Some(active.value.(catalog := Some(catalog)));
      published := Some(catalog);
      assert View() == AfterCatalog(v, catalog);
      ok := FlushQueue();
    }

    method OnHandshake(hasError: bool) returns (ok: bool)
      requires Holds([]) && Quiet(View()) && internal == map[]
      requires candidate.Some? && candidate.value.stage.AwaitingInitialize?
      modifies this, kernel
      ensures Holds([]) && (ok ==> Quiet(View()))
      ensures NoRevival(old(View()), old(run.acts), View(), run.acts)
      ensures hasError ==> old(run.acts) + [Discard] <= run.acts
      ensures !hasError && old(host).k.phase.AwaitingInitialized? ==> (
        old(run.acts) + [Activate(old(candidate).value.worker.token)] <= run.acts)
      ensures old(run.acts) <= run.acts
      ensures reliable && CanSend(old(nextInternal)) ==> (
        Proceeds(old(View()), old(run.acts), CandidateInitialize, hasError, None, ok, View(), run.acts))
      ensures reliable ==> (ok <==> !EndsOver(old(View()), CandidateInitialize, hasError, None))
    {
      hide Run.Accepted, Host.Permits, AllSealed, CatalogWaits, Activations;
      if hasError {
        ok := RejectCandidate();
        return;
      }
      if kernel.phase.AwaitingInitialized? {
        Reached();
        HandshakeMayActivate(View());
        ok := ActivateCandidate();
        ActivatedBy(old(run.acts), old(candidate).value.worker.token, run.acts);
        return;
      }
      ok := SeedCandidateCatalog();
      if !ok {
        ok := RejectCandidate();
      }
    }

    /** One journal entry has been acknowledged, or refused. Whatever goes wrong with the next one is
        charged to the candidate. */
    method OnRestored(index: nat, hasError: bool) returns (ok: bool)
      requires Holds([]) && Quiet(View()) && internal == map[]
      requires candidate.Some? && candidate.value.stage.Restoring?
      requires host.seat.heir.Some? && host.seat.heir.value.acked == index && host.seat.heir.value.sent == index + 1
      modifies this, kernel
      ensures Holds([]) && (ok ==> Quiet(View()))
      ensures old(run.acts) + [if hasError then Discard else Ack] <= run.acts
      ensures NoRevival(old(View()), old(run.acts), View(), run.acts)
      ensures reliable && CanSend(old(nextInternal)) ==> (
        Proceeds(old(View()), old(run.acts), RestoreJournal(index), hasError, None, ok, View(), run.acts))
      ensures reliable ==> ok
      ensures !hasError && index + 1 < |old(host).book.entries| && !CanSend(old(nextInternal)) ==> (
        candidate.None? && Discarded(old(run.acts), run.acts))
    {
      hide Run.Accepted, AllSealed, Base, Sound, Quiet, HostInv, Host.Apply, Host.Permits, Hopeless, Activations;
      HoldsIsBase();
      Reached();
      RestoringIsHopeful(View());
      if hasError {
        ok := OnRefused(index);
      } else {
        ok := OnAcknowledged(index);
      }
    }

    method OnRefused(ghost index: nat) returns (ok: bool)
      requires Holds([]) && Quiet(View()) && candidate.Some? && candidate.value.stage.Restoring?
      modifies this, kernel
      ensures Holds([]) && (ok ==> Quiet(View()))
      ensures old(run.acts) + [Discard] <= run.acts
      ensures NoRevival(old(View()), old(run.acts), View(), run.acts)
      ensures reliable ==> (
        Proceeds(old(View()), old(run.acts), RestoreJournal(index), true, None, ok, View(), run.acts))
      ensures reliable ==> ok
    {
      hide Run.Accepted, AllSealed, Quiet, HostInv, Host.Apply, Host.Permits, Hopeless, Activations;
      HoldsIsBase();
      RestoringDrains(View());
      ok := RejectCandidate();
    }

    method OnAcknowledged(index: nat) returns (ok: bool)
      requires Holds([]) && Quiet(View()) && internal == map[]
      requires candidate.Some? && candidate.value.stage.Restoring?
      requires host.seat.heir.Some? && host.seat.heir.value.acked == index && host.seat.heir.value.sent == index + 1
      modifies this, kernel
      ensures Holds([]) && (ok ==> Quiet(View()))
      ensures old(run.acts) + [Ack] <= run.acts
      ensures index + 1 >= |old(host).book.entries| ==> (
        old(run.acts) + [Ack, Activate(old(candidate).value.worker.token)] <= run.acts)
      ensures index + 1 >= |old(host).book.entries| && reliable ==> (
        Relieved(old(candidate).value.worker.token, View()))
      ensures CanSend(old(nextInternal)) && index + 1 < |old(host).book.entries| ==> (
        ok && Waits(old(View()), View(), Restoring, RestoreJournal(index + 1)))
      ensures !CanSend(old(nextInternal)) && index + 1 < |old(host).book.entries| ==> (
        candidate.None? && Discarded(old(run.acts), run.acts))
      ensures reliable ==> ok
    {
      hide Run.Accepted, AllSealed, Base, Sound, HostInv, Host.Apply, Host.Permits, Restorable, Activations;
      Reached();
      ghost var v := View();
      AckKeeps(v, index);
      NoteSeat(Ack);
      assert View() == AfterAck(v);
      ok := RestoreNext(index + 1);
    }

    /** The next journal entry, or the activation after the last one; a failure is the candidate's. */
    method RestoreNext(index: nat) returns (ok: bool)
      requires HoldsBase() && Quiet(View()) && Restorable(View(), index) && candidate.Some?
      modifies this, kernel
      ensures Holds([]) && (ok ==> Quiet(View()))
      ensures old(run.acts) <= run.acts
      ensures index >= |old(host).book.entries| ==> (
        old(run.acts) + [Activate(old(candidate).value.worker.token)] <= run.acts)
      ensures index >= |old(host).book.entries| && reliable ==> (
        Relieved(old(candidate).value.worker.token, View()))
      ensures CanSend(old(nextInternal)) && index < |old(host).book.entries| ==> (
        ok && Waits(old(View()), View(), Restoring, RestoreJournal(index)))
      ensures !CanSend(old(nextInternal)) && index < |old(host).book.entries| ==> (
        candidate.None? && Discarded(old(run.acts), run.acts))
      ensures reliable ==> ok
    {
      hide Base, Run.Accepted, Quiet, Waits, NoRevival, AllSealed, Activations;
      ok := ContinueRestore(index);
      if !ok {
        ghost var acts := run.acts;
        ok := RejectCandidate();
        assert index < |old(host).book.entries| ==> run.acts[|acts|] == Discard;
      }
    }

    // -------------------------------------------------------------- worker gone and tick

    /** The candidate is gone: a successor is given up, and a recovery begins again. */
    method LoseCandidate() returns (ok: bool)
      requires Holds([]) && Quiet(View()) && candidate.Some?
      modifies this, kernel
      ensures Holds([]) && (ok ==> Quiet(View()))
      ensures old(run.acts) + [Discard] <= run.acts
      ensures old(candidate).value.purpose.Recovery? ==>
          ok && View() == AfterStartingOver(AfterRejection(old(View())))
      ensures reliable ==> ok
      ensures NoRevival(old(View()), old(run.acts), View(), run.acts)
      ensures NoProgress(old(View()), old(run.acts), View(), run.acts)
    {
      hide Run.Accepted, AllSealed, Base, Sound, Quiet, HostInv, Host.Apply, Host.Permits, Stalled, Parted, Activations;
      HoldsIsBase();
      ghost var acts := run.acts;
      if candidate.value.purpose.Rollover? {
        ok := RejectCandidate();
      } else {
        LoseRecoveryCandidate();
        ok := true;
      }
      PartedBy(acts, Discard, run.acts);
    }

    method HandleWorkerLoss(token: nat) returns (ok: bool)
      requires Holds([]) && Quiet(View())
      modifies this, kernel
      ensures Holds([]) && (ok ==> Quiet(View()))
      ensures NoRevival(old(View()), old(run.acts), View(), run.acts)
      ensures old(candidate).Some? && old(candidate).value.worker.token == token ==> (
        old(run.acts) + [Discard] <= run.acts)
      ensures !(old(candidate).Some? && old(candidate).value.worker.token == token) ==>
          old(ActiveToken()) == Some(token) ==> old(run.acts) + [Lose] <= run.acts
      ensures !(old(candidate).Some? && old(candidate).value.worker.token == token) ==>
          old(ActiveToken()) != Some(token) ==> ok && unchanged(this) && unchanged(kernel)
      ensures old(run.acts) <= run.acts
      ensures !(old(candidate).Some? && old(candidate).value.worker.token == token) ==>
          old(ActiveToken()) == Some(token) ==> old(View()).host.Permits(Lose) && View() == AfterLoss(old(View()))
      ensures old(candidate).Some? && old(candidate).value.worker.token == token ==>
          old(candidate).value.purpose.Recovery? ==> ok && View() == AfterStartingOver(AfterRejection(old(View())))
      ensures reliable ==> ok
      ensures NoProgress(old(View()), old(run.acts), View(), run.acts)
    {
      hide Run.Accepted, AllSealed, Base, Sound, HostInv, Host.Apply, Host.Permits, Stalled, Parted, Quiet, Activations;
      HoldsIsBase();
      ghost var acts := run.acts;
      if candidate.Some? && candidate.value.worker.token == token {
        ok := LoseCandidate();
        return;
      }
      var serving := ActiveToken() == Some(token);
      ok := HandleWorkerLossById(Some(token), []);
      if serving {
        PartedBy(acts, Lose, run.acts);
      }
    }

    /** The time that the client was given to ask for the announced catalog is over. */
    predicate Expires(v: View, expired: bool) {
      && v.candidate.Some? && v.candidate.value.armed && expired
      && v.candidate.value.purpose.Rollover? && v.candidate.value.stage.Ready? && v.phase.AwaitingCatalogRefresh?
    }

    /** A candidate whose time is over is given up; a recovery begins again. */
    method GiveUpLate() returns (ok: bool)
      requires Holds([]) && Quiet(View()) && candidate.Some?
      modifies this, kernel
      ensures Holds([]) && (ok ==> Quiet(View())) && candidate.None?
      ensures old(run.acts) + [Discard] <= run.acts
      ensures NoRevival(old(View()), old(run.acts), View(), run.acts)
      ensures NoProgress(old(View()), old(run.acts), View(), run.acts)
      ensures old(candidate).value.purpose.Recovery? && ok ==> phase.Recovering?
      ensures reliable ==> ok
    {
      hide Run.Accepted, AllSealed, Quiet, Stalled, Parted, Activations;
      HoldsIsBase();
      ghost var acts := run.acts;
      var purpose := candidate.value.purpose;
      ok := RejectCandidate();
      if ok && purpose.Recovery? {
        StartOver();
      }
      PartedBy(acts, Discard, run.acts);
    }

    lemma TickFacts(v: View, expired: bool)
      requires Sound(v, [])
      ensures Expires(v, expired) ==> v.published.Some?
      ensures v.phase.Recovering? ==> v.active.None?
      ensures !v.phase.Draining? || (v.candidate.Some? && v.candidate.value.armed) ==> !Stalled(v)
    {
    }

    /** A new worker is wanted if the session has none, or if the channel names a new release. */
    method SeekWorker(retryDue: bool, observed: Option<Release>) returns (ok: bool)
      requires Holds([]) && Quiet(View())
      modifies this, kernel
      ensures Holds([]) && (ok ==> Quiet(View()))
      ensures NoRevival(old(View()), old(run.acts), View(), run.acts)
      ensures old(phase).Recovering? ==> phase.Recovering? || active.Some?
      ensures old(phase).Recovering? && old(candidate).None? && retryDue ==> (
        ok && (run.acts == old(run.acts) || Recovers(old(host).k.phase, nextWorker, old(run.acts), run.acts)))
      ensures old(run.acts) <= run.acts
      ensures old(phase).Recovering? && old(candidate).None? && retryDue ==> (
        Restarts(old(View()), old(run.acts), View(), run.acts))
      ensures old(phase).NoRollover? && old(candidate).None? && observed.Some? ==> (
        Succeeds(old(View()), observed.value, ok, View()))
      ensures old(phase).NoRollover? && old(candidate).None? && run.acts != old(run.acts) ==> (
        && observed.Some? && old(active).Some?
        && IsNews(observed.value, old(active).value.release, old(rejectedGeneration)))
      ensures reliable ==> ok
      ensures NoProgress(old(View()), old(run.acts), View(), run.acts)
    {
      hide Run.Accepted, AllSealed, Base, Sound, Quiet, Parted, Stalled, Waits, Host.Permits, Activations;
      HoldsIsBase();
      TickFacts(View(), false);
      if phase.Recovering? && candidate.None? && retryDue {
        var started := StartRecovery();
        return true;
      }
      if !phase.NoRollover? || candidate.Some? || !kernel.phase.Live? || published.None? || observed.None? ||
         active.None? {
        return true;
      }
      ok := ConsiderRelease(observed.value);
    }

    /** In a reliable world recovery starts a worker: as the candidate of a session that can be replayed
        to it, or in the place of the one that was lost. */
    ghost predicate Restarts(v: View, before: seq<Act>, w: View, after: seq<Act>) {
      reliable && v.workers < COUNTER_MAX ==> (
        if v.host.k.phase.Cold? || v.host.k.phase.Initializing? then before + [Activate(w.workers)] <= after
        else CanSend(v.serial) ==> (
          && Waits(v, w, AwaitingInitialize, CandidateInitialize)
          && w.candidate.value.worker.token == w.workers && w.candidate.value.purpose.Recovery?))
    }

    /** In a reliable world a live session with a catalog prepares a successor for news. */
    ghost predicate Succeeds(v: View, release: Release, ok: bool, w: View) {
      reliable && CanSend(v.serial) && v.workers < COUNTER_MAX && v.host.k.phase.Live? && v.published.Some? ==>
        v.active.Some? && IsNews(release, v.active.value.release, v.rejected) ==> (
          && ok && Waits(v, w, AwaitingInitialize, CandidateInitialize)
          && w.candidate.value.worker.token == w.workers)
    }

    /** The clock ticks. `expired` and `retryDue` say whether the candidate's deadline and the recovery
        backoff have passed, `observed` is what the release channel shows. */
    method OnTick(expired: bool, retryDue: bool, observed: Option<Release>) returns (ok: bool)
      requires Holds([]) && Quiet(View())
      modifies this, kernel
      ensures HoldsBase()
      ensures ok ==> Holds([]) && Quiet(View())
      ensures NoRevival(old(View()), old(run.acts), View(), run.acts)
      ensures old(candidate).Some? && old(candidate).value.armed && expired ==>
        old(run.acts) + [if Expires(old(View()), expired) then Drain else Discard] <= run.acts
      ensures old(candidate).Some? && old(candidate).value.armed && expired ==>
          old(candidate).value.purpose.Recovery? && ok ==> phase.Recovering? || active.Some?
      ensures old(phase).Recovering? && old(candidate).None? && retryDue ==> (
        ok && (run.acts == old(run.acts) || Recovers(old(host).k.phase, nextWorker, old(run.acts), run.acts)))
      ensures old(run.acts) <= run.acts
      ensures old(phase).Recovering? && old(candidate).None? && retryDue ==> (
        Restarts(old(View()), old(run.acts), View(), run.acts))
      ensures old(phase).NoRollover? && old(candidate).None? && observed.Some? ==> (
        Succeeds(old(View()), observed.value, ok, View()))
      ensures old(phase).NoRollover? && old(candidate).None? && run.acts != old(run.acts) ==> (
        && observed.Some? && old(active).Some?
        && IsNews(observed.value, old(active).value.release, old(rejectedGeneration)))
      ensures reliable ==> (ok <==> !(Expires(old(View()), expired) && CannotBegin(old(View()).(phase := Draining))))
      ensures NoProgress(old(View()), old(run.acts), View(), run.acts)
    {
      hide Run.Accepted, AllSealed, Quiet, Parted, Stalled, CannotBegin, Restarts, Succeeds, Recovers, Activations;
      HoldsIsBase();
      TickFacts(View(), expired);
      if candidate.Some? && candidate.value.armed && expired {
        if candidate.value.purpose.Rollover? && candidate.value.stage.Ready? && phase.AwaitingCatalogRefresh? {
          ok := BeginDraining();
          return;
        }
        ok := GiveUpLate();
        if !ok {
          return;
        }
      }
      ok := SeekWorker(retryDue, observed);
    }

    /** A successor is prepared for a new, compatible release that has not been rejected before. */
    method ConsiderRelease(release: Release) returns (ok: bool)
      requires Holds([]) && Quiet(View())
      requires active.Some? && candidate.None? && phase.NoRollover? && host.k.phase.Live? && published.Some?
      modifies this, kernel
      ensures Holds([]) && (ok ==> Quiet(View()))
      ensures (release.generation == old(active).value.release.generation
               || old(rejectedGeneration) == Some(release.generation)) ==>
          ok && unchanged(this) && unchanged(kernel)
      ensures run.acts != old(run.acts) ==>
          IsNews(release, old(active).value.release, old(rejectedGeneration))
      ensures run.acts == old(run.acts) ==>
          candidate.None?
          && (release.generation == old(active).value.release.generation
              || rejectedGeneration == Some(release.generation))
      ensures run.acts == old(run.acts) || old(run.acts) + [Act.Propose(nextWorker)] <= run.acts
      ensures old(run.acts) <= run.acts
      ensures reliable ==> ok
      ensures reliable && CanSend(old(nextInternal)) && old(nextWorker) < COUNTER_MAX ==>
          IsNews(release, old(active).value.release, old(rejectedGeneration)) ==>
          Waits(old(View()), View(), AwaitingInitialize, CandidateInitialize) &&
          candidate.value.worker.token == nextWorker
    {
      hide Run.Accepted, Host.Permits, Flushed, AllSealed, Activations;
      ghost var v := View();
      ok := true;
      if release.generation == active.value.release.generation || rejectedGeneration == Some(release.generation) {
        return;
      }
      if !CanFollow(release.state, active.value.release.state) {
        rejectedGeneration := Some(release.generation);
        return;
      }
      var worker := SpawnWorker(release);
      MoreWorkers(v, [], nextWorker);
      assert View() == v.(workers := nextWorker);
      if worker.None? {
        rejectedGeneration := Some(release.generation);
        return;
      }
      ok := PrepareSuccessor(worker.value);
    }

    method PrepareSuccessor(worker: Worker) returns (ok: bool)
      requires Holds([]) && Quiet(View()) && MayPropose(View(), worker, Rollover)
      modifies this, kernel
      ensures Holds([]) && (ok ==> Quiet(View())) && nextWorker == old(nextWorker)
      ensures old(run.acts) + [Act.Propose(worker.token)] <= run.acts
      ensures reliable ==> ok
      ensures CanSend(old(nextInternal)) ==> (
        && ok && Waits(old(View()), View(), AwaitingInitialize, CandidateInitialize)
        && candidate.value.worker == worker)
    {
      hide Base, Run.Accepted, Flushed, Hopeless, KeepsFlight, AllSealed, Activations;
      ok := true;
      Propose(worker, Rollover);
      var seeded := SeedCandidateInitialize(worker.token);
      if !seeded {
        ok := RejectCandidate();
      }
    }

    // -------------------------------------------------------------- frames from workers

    /** The journal key of a request under its tool's contract, if it can be resolved. */
    function ResolvedKey(tool: Name, key: JournalKey, f: Frame): Option<Name> {
      match key
      case Constant(text) => Some(reading.scoped(tool, text))
      case Pointer(path) => if reading.scalar(f, path).Some? then
          Some(reading.scoped(tool, reading.scalar(f, path).value)) else None
    }

    /** The state contract that the published catalog gives to the tool a frame names, if any. */
    function StateIn(published: Option<Catalog>, f: Frame): Option<(Name, StateContract)> {
      var tool := reading.tool(f);
      if tool.None? || published.None? || tool.value !in published.value.contracts then None
      else Some((tool.value, published.value.contracts[tool.value].state))
    }

    method NoteBook(ghost a: Act)
      requires Logged() && host.Permits(a) && Books(a) && run.Warrants(a)
      modifies this`run, this`host
      ensures Logged()
      ensures host == old(host).(book := old(host).book.After(a))
      ensures run.acts == old(run.acts) + [a]
      ensures Activations(run.acts) == Activations(old(run.acts))
    {
      hide Base, Run.Accepted, Host.Apply, Desk.Serves, AllSealed, Activations;
      BookStep(host, a);
      Note(a);
    }

    /** What a successful request does to the journal under the contract of the tool it names. */
    function Bookkeeping(published: Option<Catalog>, entries: seq<Entry>, f: Frame): seq<Act> {
      var found := StateIn(published, f);
      if found.None? || found.value.1.Stateless? then []
      else
        var key := if found.value.1.Journaled? then ResolvedKey(found.value.0, found.value.1.key, f) else None;
        if key.Some? then [Record(Entry(key.value, f), FitsIn(entries, key.value, f))] else [Seal]
    }

    /** Books a successful session transition under its contract; a transition that cannot be keyed,
        or does not fit, seals the journal. */
    method RecordSessionTransition(f: Frame, ghost id: RequestId, ghost word: Word)
      requires Chronicled() && SealAgrees() && Sound(View(), [ToClient(id, word)]) && host.seat.Unstarted()
      requires run.Warrant() == Some(f)
      modifies journal, this`run, this`host
      ensures Chronicled() && SealAgrees() && Sound(View(), [ToClient(id, word)])
      ensures View() == old(View()).(host := old(host).(book := host.book))
      ensures run.acts == old(run.acts) + Bookkeeping(published, old(host).book.entries, f)
      ensures Activations(run.acts) == Activations(old(run.acts))
      ensures host.book == Rebooked(old(host).book, Bookkeeping(published, old(host).book.entries, f))
    {
      hide AllSealed, Run.Accepted, Run.Warrant, Base, Sound, Activations;
      ghost var v := View();
      AnswerIsDue(v, id, word);
      var found := StateIn(published, f);
      if found.None? || found.value.1.Stateless? {
        return;
      }
      var key := if found.value.1.Journaled? then ResolvedKey(found.value.0, found.value.1.key, f) else None;
      if key.Some? {
        RecordEntry(key.value, f, id, word);
      } else {
        SealJournal(found.value.1.Checkpointed?);
      }
      BookKeeps(v, [ToClient(id, word)], host.book);
      assert View() == v.(host := v.host.(book := host.book));
    }

    /** From now on the journal is no longer the whole of the session's state. */
    method SealJournal(checkpointed: bool)
      requires Chronicled() && SealAgrees() && host.seat.Unstarted() && host.desk.due != []
      requires host.desk.due[0].ToClient? && run.Warrant().Some?
      modifies journal`pinned, journal`checkpointed, this`run, this`host
      ensures Chronicled() && SealAgrees()
      ensures host == old(host).(book := old(host).book.(sealed := true))
      ensures run.acts == old(run.acts) + [Seal]
      ensures Activations(run.acts) == Activations(old(run.acts))
    {
      hide Run.Accepted, Host.Apply, AllSealed, Activations;
      NoteBook(Seal);
      if checkpointed {
        journal.checkpointed := true;
      } else {
        journal.pinned := true;
      }
    }

    method RecordEntry(key: Name, f: Frame, ghost id: RequestId, ghost word: Word)
      requires Chronicled() && SealAgrees() && host.seat.Unstarted() && host.desk.due == [ToClient(id, word)]
      requires run.Warrant() == Some(f)
      modifies journal, this`run, this`host
      ensures Chronicled() && SealAgrees()
      ensures host == old(host).(book := host.book)
      ensures host.book == old(host).book.After(Record(Entry(key, f), FitsIn(old(host).book.entries, key, f)))
      ensures run.acts == old(run.acts) + [Record(Entry(key, f), FitsIn(old(host).book.entries, key, f))]
      ensures Activations(run.acts) == Activations(old(run.acts))
    {
      hide Run.Accepted, Proceeds, AllSealed, Activations;
      var kept := journal.Record(key, f);
      NoteBook(Record(Entry(key, f), kept));
      if !kept {
        journal.pinned := true;
      }
    }

    /** One worker's answer to an invocation: only the active worker's counts. */
    method CompleteResponse(f: Frame) returns (r: Result<PendingRequest>)
      requires Holds([]) && Quiet(View()) && active.Some? && f.envelope.Response?
      modifies this`run, this`host, kernel
      ensures r == old(host).k.Complete(f).result
      ensures Chronicled() && SealAgrees() && Quiet(View()) && View() == old(View()).(host := host)
      ensures r.Ok? ==> Sound(View(), [ToClient(f.envelope.id, Said(f.payload))]) && host.seat.Unstarted()
      ensures r.Err? ==> Sound(View(), [])
      ensures run.acts == old(run.acts) + [Answer(f)]
      ensures host.k == old(host).k.Complete(f).kernel && host.book == old(host).book
      ensures r.Ok? && !f.envelope.hasError ==> run.Warrant() == Some(r.value.frame)
    {
      hide Host.Apply, HostInv, Run.Accepted, AllSealed, Activations;
      ghost var v := View();
      Reached();
      assert v.host.Permits(Answer(f));
      AnswerShape(v.host.k, f);
      AnswerIsQuiet(v, f, []);
      KernelStepKeeps(v, Answer(f), []);
      r := kernel.CompleteResponse(f);
      Note(Answer(f));
      assert View() == Stepped(v, Answer(f));
    }

    /** A worker's answer reaches the client after the transition behind it, if it succeeded, is booked. */
    function Settlement(published: Option<Catalog>, entries: seq<Entry>, request: Frame, f: Frame): seq<Act>
      requires f.envelope.Response?
    {
      Bookings(published, entries, request, f) + [Relay(f.envelope.id, Said(f.payload))]
    }

    /** The transition behind an answer, if it succeeded. */
    function Bookings(published: Option<Catalog>, entries: seq<Entry>, request: Frame, f: Frame): seq<Act>
      requires f.envelope.Response?
    {
      if f.envelope.hasError then [] else Bookkeeping(published, entries, request)
    }

    /** The view once an answer has been booked. */
    ghost function AfterAnswer(v: View, f: Frame): View
      requires f.envelope.Response? && v.host.k.Complete(f).result.Ok?
    {
      var bookings := Bookings(v.published, v.host.book.entries, v.host.k.Complete(f).result.value.frame, f);
      Booked(v.(host := v.host.(k := v.host.k.Complete(f).kernel)), bookings)
    }

    /** What the active worker's answer comes to: an answer to nothing that is in flight is a loss. */
    function Outcome(v: View, f: Frame): seq<Act>
      requires f.envelope.Response?
    {
      match v.host.k.Complete(f).result
      case Err(_) => [Answer(f), Lose]
      case Ok(request) => [Answer(f)] + Settlement(v.published, v.host.book.entries, request.frame, f)
    }

    /** An answer that does not start a handover. */
    predicate Settles(v: View, f: Frame)
      requires f.envelope.Response?
    {
      v.host.k.Complete(f).result.Ok? && (!v.phase.Draining? || v.callbacks != map[])
    }

    /** The answered invocation is off the books, its transition is booked, and nothing else has changed. */
    ghost predicate Concluded(v: View, f: Frame, w: View)
      requires f.envelope.Response? && v.host.k.Complete(f).result.Ok?
    {
      && w == v.(host := w.host) && SameCore(AfterAnswer(v, f).host, w.host)
    }

    /** The published catalog gives this state contract to the tool that a request names. */
    predicate Governs(published: Option<Catalog>, request: Frame, tool: Name, state: StateContract) {
      && reading.tool(request) == Some(tool)
      && published.Some? && tool in published.value.contracts && published.value.contracts[tool].state == state
    }

    /** The request is recorded under this key of its tool, if there is room. */
    function Recorded(entries: seq<Entry>, tool: Name, key: Name, request: Frame): Act {
      Record(Entry(reading.scoped(tool, key), request), FitsIn(entries, reading.scoped(tool, key), request))
    }

    /** The answer, what it brings, and then the word to the client. */
    predicate Brings(f: Frame, booked: seq<Act>, before: seq<Act>, after: seq<Act>)
      requires f.envelope.Response?
    {
      before + ([Answer(f)] + (booked + [Relay(f.envelope.id, Said(f.payload))])) <= after
    }

    /** What an answer brings before the client is told. An answer with an error, or to a request that no
        stateful contract governs, brings nothing. A stateful request that succeeded is recorded under
        the constant that its contract names, or under what the contract's pointer finds in it; where
        the pointer finds nothing, or there is no key at all, the journal is sealed. */
    ghost predicate SettledAsDeclared(v: View, request: Frame, f: Frame, before: seq<Act>, after: seq<Act>)
      requires f.envelope.Response?
    {
      && (f.envelope.hasError ==> Brings(f, [], before, after))
      && ((forall tool, state :: !Governs(v.published, request, tool, state)) ==> Brings(f, [], before, after))
      && (!f.envelope.hasError ==> forall tool, state :: Governs(v.published, request, tool, state) ==>
           Brings(f, Declared(v.host.book.entries, request, tool, state), before, after))
    }

    function Declared(entries: seq<Entry>, request: Frame, tool: Name, state: StateContract): seq<Act> {
      match state
      case Stateless => []
      case Checkpointed => [Seal]
      case GenerationPinned => [Seal]
      case Journaled(Constant(text)) => [Recorded(entries, tool, text, request)]
      case Journaled(Pointer(path)) => (
        match reading.scalar(request, path)
        case None => [Seal]
        case Some(text) => [Recorded(entries, tool, text, request)])
    }

    lemma BookkeepingIsDeclared(v: View, request: Frame)
      ensures (forall tool, state :: !Governs(v.published, request, tool, state)) ==>
          Bookkeeping(v.published, v.host.book.entries, request) == []
      ensures forall tool, state :: Governs(v.published, request, tool, state) ==>
        Bookkeeping(v.published, v.host.book.entries, request) ==
            Declared(v.host.book.entries, request, tool, state)
    {
      if StateIn(v.published, request).Some? {
        var (tool, state) := StateIn(v.published, request).value;
        assert Governs(v.published, request, tool, state);
      }
    }

    lemma SettlementIsDeclared(v: View, f: Frame, before: seq<Act>, after: seq<Act>)
      requires f.envelope.Response? && v.host.k.Complete(f).result.Ok? && before + Outcome(v, f) <= after
      ensures SettledAsDeclared(v, v.host.k.Complete(f).result.value.frame, f, before, after)
    {
      hide State.Complete, Bookkeeping, Declared, Governs;
      BookkeepingIsDeclared(v, v.host.k.Complete(f).result.value.frame);
    }

    method RelayAnswer(f: Frame, request: PendingRequest) returns (ok: bool)
      requires Chronicled() && SealAgrees() && Quiet(View()) && f.envelope.Response?
      requires Sound(View(), [ToClient(f.envelope.id, Said(f.payload))]) && host.seat.Unstarted()
      requires !f.envelope.hasError ==> run.Warrant() == Some(request.frame)
      modifies this, kernel, journal
      ensures Chronicled() && (ok ==> Holds([]) && Quiet(View()))
      ensures old(run.acts) + Settlement(old(published), old(host).book.entries, request.frame, f) <= run.acts
      ensures reliable && (!old(phase).Draining? || old(callbacks) != map[]) ==>
          ok && View() == old(View()).(host := host) && host.k == old(host).k &&
          host.book == Rebooked(old(host).book, Bookings(old(published), old(host).book.entries, request.frame, f))
      ensures reliable ==> (ok <==> !CannotBegin(
        Booked(old(View()), Bookings(old(published), old(host).book.entries, request.frame, f))))
    {
      hide Host.Permits, Host.Apply, Bookkeeping, AllSealed, Run.Accepted, Base, Sound, Quiet, Waits, Relieved, Booked,
        Activations;
      ghost var v := View();
      ok := TellAnswer(f, request);
      ghost var w := View();
      ghost var acts := run.acts;
      if ok {
        BookedAlike(v, w, Bookings(v.published, v.host.book.entries, request.frame, f));
        ok := TryBeginRestore();
      }
    }

    /** The transition is booked, and the answer goes to the client. */
    method TellAnswer(f: Frame, request: PendingRequest) returns (ok: bool)
      requires Chronicled() && SealAgrees() && Quiet(View()) && f.envelope.Response?
      requires Sound(View(), [ToClient(f.envelope.id, Said(f.payload))]) && host.seat.Unstarted()
      requires !f.envelope.hasError ==> run.Warrant() == Some(request.frame)
      modifies journal, this`run, this`host
      ensures Holds([]) && Quiet(View())
      ensures View() == Met(Booked(old(View()), Bookings(published, old(host).book.entries, request.frame, f)))
      ensures run.acts == old(run.acts) + Settlement(published, old(host).book.entries, request.frame, f)
      ensures candidate.Some? ==> !candidate.value.stage.Restoring?
      ensures reliable ==> ok
    {
      hide Host.Permits, Host.Apply, Bookkeeping, AllSealed, Run.Accepted, Activations;
      if !f.envelope.hasError {
        RecordSessionTransition(request.frame, f.envelope.id, Said(f.payload));
      }
      MetKeeps(View(), [ToClient(f.envelope.id, Said(f.payload))]);
      ghost var v := View();
      ok := WriteReply(f.envelope.id, Said(f.payload));
      assert View() == Met(v);
    }

    /** Whether the handover can begin does not depend on what was due. */
    lemma BookedAlike(v: View, w: View, bookings: seq<Act>)
      requires w == Met(Booked(v, bookings))
      ensures CannotBegin(w) <==> CannotBegin(Booked(v, bookings))
      ensures w.host.k == v.host.k && w.host.book == Rebooked(v.host.book, bookings) && w == v.(host := w.host)
    {
    }

    /** The host ends over a private answer that comes from another worker than was asked, too. */
    ghost predicate EndsOverPrivate(v: View, token: nat, f: Frame)
      requires f.envelope.Response? && f.envelope.id in v.internal
    {
      var r := v.internal[f.envelope.id];
      r.worker != token || EndsOver(v, r.action, f.envelope.hasError, reading.catalog(f))
    }

    /** The host ends over an answer after which the first journal entry is due, and cannot be sent. */
    ghost predicate EndsOverAnswer(v: View, token: nat, f: Frame)
      requires f.envelope.Response?
    {
      TokenOf(v.active) == Some(token) && v.host.k.Complete(f).result.Ok? && CannotBegin(AfterAnswer(v, f))
    }

    /** What the host ends over does not depend on the private requests that are out. */
    lemma EndsOverAlike(v: View)
      ensures forall action, hasError, catalog ::
          EndsOver(v.(internal := map[]), action, hasError, catalog) <==> EndsOver(v, action, hasError, catalog)
      ensures Hopeless(v.(internal := map[])) <==> Hopeless(v)
      ensures Quiet(v.(internal := map[])) <==> Quiet(v)
    {
    }

    /** A private request is no longer out. */
    method TakeOff(id: RequestId) returns (request: InternalRequest)
      requires Holds([]) && id in internal
      modifies this`internal
      ensures Holds([]) && internal == map[] && View() == old(View()).(internal := map[])
      ensures request == old(internal)[id] && Errand(request, host.seat, candidate, host.k.phase, published)
    {
      hide Base, Sound, Errand, Run.Accepted, AllSealed, Quiet, Activations;
      AnswerLeavesNone(View(), id);
      request := internal[id];
      internal := internal - {id};
      assert View() == old(View()).(internal := map[]);
    }

    /** The answer to a private request, from the worker that was asked. */
    method OnPrivateAnswer(token: nat, f: Frame) returns (ok: bool)
      requires Holds([]) && Quiet(View()) && f.envelope.Response? && f.envelope.id in internal
      modifies this, kernel
      ensures Chronicled()
      ensures ok ==> Holds([]) && Quiet(View())
      ensures NoRevival(old(View()), old(run.acts), View(), run.acts)
      ensures old(run.acts) <= run.acts
      ensures reliable && CanSend(old(nextInternal)) && old(internal)[f.envelope.id].worker == token ==> (
        Proceeds(old(View()), old(run.acts), old(internal)[f.envelope.id].action, f.envelope.hasError,
            reading.catalog(f), ok, View(), run.acts))
      ensures reliable ==> (ok <==> !EndsOverPrivate(old(View()), token, f))
      ensures NoProgress(old(View()), old(run.acts), View(), run.acts)
    {
      hide Base, Sound, Proceeds, Errand, Run.Accepted, AllSealed, Quiet, EndsOver, Hopeless, Stalled, Parted,
        Activations;
      HoldsIsBase();
      ghost var v := View();
      if Stalled(v) {
        StalledHasNoAnswers(v, f);
      }
      EndsOverAlike(v);
      var request := TakeOff(f.envelope.id);
      if request.worker != token {
        return false;
      }
      ok := HandleInternalResponse(request, f, f.envelope.hasError);
      if reliable && CanSend(v.serial) {
        ProceedsFrom(v, old(run.acts), request.action, f.envelope.hasError, reading.catalog(f), ok, View(), run.acts);
      }
    }

    /** An answer of the active worker to an invocation. */
    method OnPublicAnswer(token: nat, f: Frame) returns (ok: bool)
      requires Holds([]) && Quiet(View()) && f.envelope.Response? && ActiveToken() == Some(token)
      modifies this, kernel, journal
      ensures Chronicled()
      ensures ok ==> Holds([]) && Quiet(View())
      ensures old(run.acts) + Outcome(old(View()), f) <= run.acts
      ensures old(host).k.Complete(f).result.Ok? ==> (
        SettledAsDeclared(old(View()), old(host).k.Complete(f).result.value.frame, f, old(run.acts), run.acts))
      ensures reliable && Settles(old(View()), f) ==> (
        ok && Concluded(old(View()), f, View()))
      ensures reliable ==> (ok <==> !EndsOverAnswer(old(View()), token, f))
      ensures NoProgress(old(View()), old(run.acts), View(), run.acts)
    {
      hide Run.Accepted, AllSealed, Base, Sound, Quiet, Stalled, Parted, State.Complete, Booked, CannotBegin,
        AfterAnswer, Bookings, Concluded, SettledAsDeclared, Run.Warrant, Activations;
      HoldsIsBase();
      ghost var v := View();
      if Stalled(v) {
        StalledHasNoAnswers(v, f);
      }
      var completed := CompleteResponse(f);
      match completed {
        case Err(_) =>
          ok := LoseConfused(token);
          LostOver(old(run.acts), f, run.acts);
        case Ok(request) =>
          ok := Conclude(f, request, v, old(run.acts));
      }
    }

    /** What the supervisor makes of an answer that completes an invocation of view v. */
    method Conclude(f: Frame, request: PendingRequest, ghost v: View, ghost acts: seq<Act>) returns (ok: bool)
      requires Chronicled() && SealAgrees() && Quiet(View()) && f.envelope.Response?
      requires Sound(View(), [ToClient(f.envelope.id, Said(f.payload))]) && host.seat.Unstarted()
      requires !f.envelope.hasError ==> run.Warrant() == Some(request.frame)
      requires v.host.k.Complete(f).result == Ok(request) && View() == v.(host := host)
      requires host.k == v.host.k.Complete(f).kernel && host.book == v.host.book && run.acts == acts + [Answer(f)]
      modifies this, kernel, journal
      ensures Chronicled() && (ok ==> Holds([]) && Quiet(View()))
      ensures acts + Outcome(v, f) <= run.acts && SettledAsDeclared(v, request.frame, f, acts, run.acts)
      ensures reliable && Settles(v, f) ==> ok && Concluded(v, f, View())
      ensures reliable ==> (ok <==> !CannotBegin(AfterAnswer(v, f)))
    {
      hide Run.Accepted, AllSealed, Base, Sound, Quiet, State.Complete, Booked, CannotBegin, AfterAnswer, Bookings,
        Concluded, SettledAsDeclared, Run.Warrant, Settlement, Activations;
      ghost var w := View();
      ok := RelayAnswer(f, request);
      AnsweredAlike(v, w, f, View());
      SettlementIsDeclared(v, f, acts, run.acts);
    }

    /** The active worker has answered something that it was not asked. */
    method LoseConfused(token: nat) returns (ok: bool)
      requires Holds([]) && ActiveToken() == Some(token)
      modifies this, kernel
      ensures Holds([]) && Quiet(View()) && old(run.acts) + [Lose] <= run.acts
      ensures reliable ==> ok
    {
      hide Run.Accepted, AllSealed, Base, Sound, Quiet, Activations;
      HoldsIsBase();
      ok := HandleWorkerLossById(Some(token), []);
    }

    lemma LostOver(before: seq<Act>, f: Frame, after: seq<Act>)
      requires before + [Answer(f)] + [Lose] <= after
      ensures before + [Answer(f), Lose] <= after && Parted(before, after)
    {
      assert before + [Answer(f)] + [Lose] == before + [Answer(f), Lose];
      PartedBy(before + [Answer(f)], Lose, after);
      PartedSince(before, before + [Answer(f)], after);
    }

    /** Whether the handover can begin, and what else has changed, does not depend on what was due. */
    lemma AnsweredAlike(v: View, w: View, f: Frame, z: View)
      requires f.envelope.Response? && v.host.k.Complete(f).result.Ok? && w == v.(host := w.host)
      requires w.host.k == v.host.k.Complete(f).kernel && w.host.book == v.host.book
      ensures var bookings := Bookings(v.published, v.host.book.entries, v.host.k.Complete(f).result.value.frame, f);
        && (CannotBegin(AfterAnswer(v, f)) <==> CannotBegin(Booked(w, bookings)))
        && (z == w.(host := z.host) && z.host.k == w.host.k && z.host.book == Rebooked(w.host.book, bookings) ==>
              Concluded(v, f, z))
    {
    }

    method OnWorkerResponse(token: nat, f: Frame) returns (ok: bool)
      requires Holds([]) && Quiet(View()) && f.envelope.Response?
      modifies this, kernel, journal
      ensures Chronicled()
      ensures ok ==> Holds([]) && Quiet(View())
      ensures NoRevival(old(View()), old(run.acts), View(), run.acts)
      ensures f.envelope.id !in old(internal) && old(ActiveToken()) == Some(token) ==> (
        old(run.acts) + Outcome(old(View()), f) <= run.acts)
      ensures f.envelope.id !in old(internal) && old(ActiveToken()) != Some(token) ==> (
        ok && unchanged(this) && unchanged(kernel) && unchanged(journal))
      ensures old(run.acts) <= run.acts
      ensures reliable && f.envelope.id in old(internal) ==> (ok <==> !EndsOverPrivate(old(View()), token, f))
      ensures reliable && f.envelope.id !in old(internal) ==> (ok <==> !EndsOverAnswer(old(View()), token, f))
      ensures reliable && CanSend(old(nextInternal)) && f.envelope.id in old(internal) ==>
          old(internal)[f.envelope.id].worker == token ==> (
        Proceeds(old(View()), old(run.acts), old(internal)[f.envelope.id].action, f.envelope.hasError,
            reading.catalog(f), ok, View(), run.acts))
      ensures reliable && f.envelope.id !in old(internal) && old(ActiveToken()) == Some(token) ==>
          Settles(old(View()), f) ==> ok && Concluded(old(View()), f, View())
      ensures NoProgress(old(View()), old(run.acts), View(), run.acts)
    {
      hide Base, Sound, Quiet, Proceeds, Concluded, Outcome, Run.Accepted, AllSealed, State.Complete, EndsOver,
        Activations;
      if f.envelope.id in internal {
        ok := OnPrivateAnswer(token, f);
      } else if ActiveToken() != Some(token) {
        ok := true;
      } else {
        ok := OnPublicAnswer(token, f);
      }
    }

    /** A worker asks the client something: the active worker's request is passed on under a public id
        of the host's own, a candidate that asks is out, and others are ignored. */
    method OnWorkerRequest(token: nat, f: Frame) returns (ok: bool)
      requires Holds([]) && Quiet(View()) && f.envelope.Request?
      modifies this, kernel
      ensures Holds([]) && (ok ==> Quiet(View()))
      ensures old(ActiveToken()) == Some(token) && ok ==>
        exists id :: id in callbacks && callbacks[id] == CallbackRoute(token, f.envelope.id) &&
            callbacks == old(callbacks)[id := callbacks[id]]
      ensures NoRevival(old(View()), old(run.acts), View(), run.acts)
      ensures old(ActiveToken()) != Some(token) && old(candidate).Some? ==>
          old(candidate).value.worker.token == token ==> old(run.acts) + [Discard] <= run.acts
      ensures old(ActiveToken()) != Some(token) ==>
          !(old(candidate).Some? && old(candidate).value.worker.token == token) ==>
          ok && unchanged(this) && unchanged(kernel)
      ensures old(run.acts) <= run.acts
      ensures reliable && old(ActiveToken()) == Some(token) && old(nextCallback) < COUNTER_MAX ==> (
        ok && View() == AfterNest(old(View()), RequestId.Callback(nextCallback), f.envelope.id))
      ensures reliable ==> (ok <==> !(old(ActiveToken()) == Some(token) && old(nextCallback) == COUNTER_MAX))
      ensures NoProgress(old(View()), old(run.acts), View(), run.acts)
    {
      hide Run.Accepted, AllSealed, Quiet, Parted, Activations;
      HoldsIsBase();
      if ActiveToken() == Some(token) {
        ok := Nested(token, f);
      } else if candidate.Some? && candidate.value.worker.token == token {
        ghost var acts := run.acts;
        ok := RejectCandidate();
        PartedBy(acts, Discard, run.acts);
      } else {
        ok := true;
      }
    }

    /** The active worker's question gets a public id of the host's own. */
    method Nested(token: nat, f: Frame) returns (ok: bool)
      requires Holds([]) && Quiet(View()) && f.envelope.Request? && ActiveToken() == Some(token)
      modifies this`nextCallback, this`callbacks, this`run, this`host
      ensures Holds([]) && Quiet(View()) && old(run.acts) <= run.acts
      ensures old(nextCallback) == COUNTER_MAX ==> !ok && View() == old(View())
      ensures old(nextCallback) < COUNTER_MAX ==> (
        View() == AfterNest(old(View()), RequestId.Callback(nextCallback), f.envelope.id))
      ensures reliable && old(nextCallback) < COUNTER_MAX ==> ok
    {
      hide Run.Accepted, AllSealed, Base, Sound, Host.Apply, Host.Permits, Activations;
      if nextCallback == COUNTER_MAX {
        return false;
      }
      ghost var v := View();
      var id := RequestId.Callback(nextCallback + 1);
      NestKeeps(v, id, f.envelope.id);
      NoteSeat(Nest(id));
      nextCallback := nextCallback + 1;
      callbacks := callbacks[id := CallbackRoute(token, f.envelope.id)];
      assert View() == AfterNest(v, id, f.envelope.id);
      ok := TryWrite();
    }

    /** Only the active worker's notifications reach the client. */
    method OnWorkerNotification(token: nat, payload: Payload) returns (ok: bool)
      requires Holds([]) && Quiet(View())
      modifies this`run, this`host
      ensures Holds([]) && Quiet(View())
      ensures NoRevival(old(View()), old(run.acts), View(), run.acts)
      ensures run.acts == old(run.acts) + if ActiveToken() == Some(token) then [Tell(token, payload)] else []
      ensures View() == old(View())
      ensures reliable ==> ok
      ensures NoProgress(old(View()), old(run.acts), View(), run.acts)
    {
      hide Run.Accepted, AllSealed, Host.Apply, Activations;
      ok := true;
      if ActiveToken() == Some(token) {
        NoteSeat(Tell(token, payload));
        ok := TryWrite();
      }
    }

    /** In a reliable world: what a worker's answer, to a private request or to an invocation, leads to. */
    ghost predicate Answers(v: View, token: nat, f: Frame, ok: bool, acts: seq<Act>, w: View, acts': seq<Act>) {
      reliable && f.envelope.Response? ==> (
        if f.envelope.id in v.internal then
          (CanSend(v.serial) && v.internal[f.envelope.id].worker == token ==> (
             Proceeds(v, acts, v.internal[f.envelope.id].action, f.envelope.hasError, reading.catalog(f), ok, w,
                 acts')))
        else
          (TokenOf(v.active) == Some(token) && Settles(v, f) ==>
              ok && Concluded(v, f, w)))
    }

    /** A worker says something unreadable: a candidate is out, the active worker is lost. */
    method OnUnreadable(token: nat) returns (ok: bool)
      requires Holds([]) && Quiet(View())
      modifies this, kernel
      ensures Holds([]) && (ok ==> Quiet(View()))
      ensures NoRevival(old(View()), old(run.acts), View(), run.acts)
      ensures NoProgress(old(View()), old(run.acts), View(), run.acts)
      ensures old(candidate).Some? && old(candidate).value.worker.token == token ==> (
        old(run.acts) + [Discard] <= run.acts)
      ensures !(old(candidate).Some? && old(candidate).value.worker.token == token) ==>
          old(ActiveToken()) == Some(token) ==> old(run.acts) + [Lose] <= run.acts
      ensures old(run.acts) <= run.acts
      ensures old(candidate).Some? && old(candidate).value.worker.token == token ==>
          old(active).None? ==> ok && View() == AfterRejection(old(View()))
      ensures reliable ==> ok
    {
      hide Run.Accepted, AllSealed, Base, Sound, Stalled, Parted, Activations;
      HoldsIsBase();
      ghost var acts := run.acts;
      if candidate.Some? && candidate.value.worker.token == token {
        ok := RejectCandidate();
        PartedBy(acts, Discard, run.acts);
        return;
      }
      var serving := ActiveToken() == Some(token);
      ok := HandleWorkerLossById(Some(token), []);
      if serving {
        PartedBy(acts, Lose, run.acts);
      }
    }

    /** A frame from a worker over which the host ends, in a reliable world. */
    ghost predicate FatalFromWorker(v: View, token: nat, payload: Payload) {
      reading.parse(payload).Some? &&
        var f := Frame(payload, reading.parse(payload).value);
        match f.envelope
        case Response(id, _) => if id in v.internal then EndsOverPrivate(v, token, f) else EndsOverAnswer(v, token, f)
        case Request(_, _) => TokenOf(v.active) == Some(token) && v.asked == COUNTER_MAX
        case Notification(_) => false
    }

    /** A frame from a worker. */
    method HandleWorkerPayload(token: nat, payload: Payload) returns (ok: bool)
      requires Holds([]) && Quiet(View())
      modifies this, kernel, journal
      ensures Chronicled()
      ensures ok ==> Holds([]) && Quiet(View())
      ensures NoRevival(old(View()), old(run.acts), View(), run.acts)
      ensures reading.parse(payload).Some? && reading.parse(payload).value.Response? ==>
          reading.parse(payload).value.id !in old(internal) && old(ActiveToken()) == Some(token) ==>
        old(run.acts) + Outcome(old(View()), Frame(payload, reading.parse(payload).value)) <= run.acts
      ensures reading.parse(payload).Some? && reading.parse(payload).value.Notification? ==>
          old(ActiveToken()) == Some(token) ==>
        run.acts == old(run.acts) + [Tell(token, payload)]
      ensures reading.parse(payload).None? && old(candidate).Some? && old(candidate).value.worker.token == token ==> (
        old(run.acts) + [Discard] <= run.acts)
      ensures reading.parse(payload).None? && !(old(candidate).Some? && old(candidate).value.worker.token == token) ==>
          old(ActiveToken()) == Some(token) ==> old(run.acts) + [Lose] <= run.acts
      ensures old(run.acts) <= run.acts
      ensures reading.parse(payload).Some? ==> (
        Answers(old(View()), token, Frame(payload, reading.parse(payload).value), ok, old(run.acts), View(), run.acts))
      ensures reading.parse(payload).None? && old(candidate).Some? && old(candidate).value.worker.token == token ==>
          old(active).None? ==> ok && View() == AfterRejection(old(View()))
      ensures reading.parse(payload).Some? && reading.parse(payload).value.Request? && reliable ==>
          old(ActiveToken()) == Some(token) && old(nextCallback) < COUNTER_MAX ==> (
        ok && View() == AfterNest(old(View()), RequestId.Callback(nextCallback), reading.parse(payload).value.id))
      ensures reliable ==> (ok <==> !FatalFromWorker(old(View()), token, payload))
      ensures NoProgress(old(View()), old(run.acts), View(), run.acts)
    {
      hide Run.Accepted, AllSealed, Base, Sound, Outcome, EndsOverPrivate, EndsOverAnswer, Stalled, Parted, Activations;
      HoldsIsBase();
      var envelope := reading.parse(payload);
      if envelope.None? {
        ok := OnUnreadable(token);
        return;
      }
      var f := Frame(payload, envelope.value);
      match f.envelope {
        case Response(_, _) => ok := OnWorkerResponse(token, f);
        case Request(_, _) => ok := OnWorkerRequest(token, f);
        case Notification(_) =>
          ok := OnWorkerNotification(token, payload);
      }
    }

    // -------------------------------------------------------------- frames from the client

    method Observe(f: Frame) returns (r: Result<()>)
      requires Holds([]) && Quiet(View())
      requires Sealed(f, reading.parse)
      modifies this`run, this`host, kernel
      ensures r == old(host).k.Observe(f).result
      ensures Chronicled() && SealAgrees() && Quiet(View()) && View() == old(View()).(host := host)
      ensures Sound(View(), Arrived(old(host).k, f))
      ensures f.envelope.Notification? && IsInitializedNotification(f.envelope.note) && r.Ok? ==>
        old(host).k.phase.AwaitingInitialized? && host.k.phase.Live?
      ensures NoRevival(old(View()), old(run.acts), View(), run.acts)
      ensures run.acts == old(run.acts) + [Act.Observe(f)]
      ensures Activations(run.acts) == Activations(old(run.acts))
      ensures host.k == old(host).k.Observe(f).kernel && host.book == old(host).book
      ensures Stalled(old(View())) ==> Stalled(View())
    {
      hide Host.Apply, AllSealed, Run.Accepted, Activations;
      ghost var v := View();
      ArrivalShape(v.host.k, f);
      KernelStepKeeps(v, Act.Observe(f), []);
      r := kernel.ObserveClientFrame(f);
      Note(Act.Observe(f));
      assert View() == Stepped(v, Act.Observe(f));
    }

    /** Queues a client frame for a worker to come, or refuses it. */
    method QueueOrReject(f: Frame) returns (ok: bool)
      requires Chronicled() && SealAgrees() && Quiet(View()) && !f.envelope.Response?
      requires Sound(View(), if f.envelope.Request? then [Place(f)] else [])
      requires !Control.Open(host.seat.active, phase, published)
      requires Sealed(f, reading.parse)
      modifies this`run, this`host, kernel
      ensures reliable ==> ok
      ensures Holds([]) && Quiet(View()) && View() == old(View()).(host := host)
      ensures host.k == KernelAfter(old(host).k, Queue(f)) && host.book == old(host).book
      ensures NoRevival(old(View()), old(run.acts), View(), run.acts)
      ensures old(run.acts) + [Queue(f)] <= run.acts
      ensures Activations(run.acts) == Activations(old(run.acts))
      ensures NoProgress(old(View()), old(run.acts), View(), run.acts)
    {
      hide Run.Accepted, AllSealed, Base, Sound, Quiet, Hopeless, Host.Apply, Host.Permits, Activations;
      ghost var v := View();
      ghost var w := QueueKeepsView(v, f);
      var queued := kernel.QueueClientFrame(f, QUEUE_CAPACITY);
      Note(Queue(f));
      assert View() == w;
      ok := true;
      if queued.Err? {
        ok := RejectClientFrame(f, queued.rejection);
        MetStaysQuiet(w);
        if Hopeless(w) {
          MetStaysHopeless(w);
        }
      }
    }

    /** The nested request is closed, and nothing else has changed. */
    ghost predicate Returned(v: View, id: RequestId, w: View) {
      w == v.(host := w.host, callbacks := v.callbacks - {id}) && SameCore(v.host, w.host)
    }

    /** The client's answer to a nested request goes back to the worker that asked. */
    method RouteCallbackResponse(f: Frame) returns (ok: bool)
      requires Holds([]) && Quiet(View()) && f.envelope.Response?
      modifies this, kernel
      ensures Holds([]) && (ok ==> Quiet(View()))
      ensures f.envelope.id !in old(callbacks) ==> ok && unchanged(this)
      ensures f.envelope.id in old(callbacks) && active.Some? ==> callbacks == old(callbacks) - {f.envelope.id}
      ensures NoRevival(old(View()), old(run.acts), View(), run.acts)
      ensures f.envelope.id in old(callbacks) ==> (
        Carried(old(run.acts) + [Return(f.envelope.id)],
            reading.rewritten(f, old(callbacks)[f.envelope.id].original), run.acts))
      ensures reliable && f.envelope.id in old(callbacks) ==> Returned(old(View()), f.envelope.id, View())
      ensures old(run.acts) <= run.acts
      ensures reliable ==> ok
      ensures NoProgress(old(View()), old(run.acts), View(), run.acts)
    {
      hide Run.Accepted, AllSealed, Base, Sound, Quiet, Hopeless, Stalled, Parted, Activations;
      var id := f.envelope.id;
      if id !in callbacks {
        return true;
      }
      var route := callbacks[id];
      CloseRoute(id);
      ghost var acts := run.acts;
      ok := PassOn(route.worker, reading.rewritten(f, route.original));
      PartedSince(old(run.acts), acts, run.acts);
    }

    /** A nested request has been answered. */
    method CloseRoute(id: RequestId)
      requires Holds([]) && Quiet(View()) && id in callbacks
      modifies this`callbacks, this`run, this`host
      ensures Holds([]) && Quiet(View()) && ActiveToken() == Some(old(callbacks)[id].worker)
      ensures View() == AfterReturn(old(View()), id)
      ensures run.acts == old(run.acts) + [Return(id)]
      ensures !Hopeless(old(View()))
      ensures Stalled(old(View())) ==> Stalled(View())
    {
      hide Run.Accepted, AllSealed, Base, Sound, Quiet, Host.Permits, Host.Apply, Activations;
      ghost var v := View();
      ReturnKeeps(v, id);
      NoteSeat(Return(id));
      callbacks := callbacks - {id};
      assert View() == AfterReturn(v, id);
    }

    /** A frame for the worker that owns it; if it cannot be delivered, that worker is lost. */
    method PassOn(token: nat, payload: Payload) returns (ok: bool)
      requires Holds([]) && Quiet(View()) && ActiveToken() == Some(token)
      modifies this, kernel
      ensures Holds([]) && Quiet(View())
      ensures active.Some? ==> View() == old(View())
      ensures active.None? ==> old(run.acts) + [Lose] <= run.acts
      ensures Carried(old(run.acts), payload, run.acts)
      ensures reliable ==> ok && View() == old(View())
      ensures NoProgress(old(View()), old(run.acts), View(), run.acts)
    {
      hide Quiet, Host.Permits, Host.Apply, Run.Accepted, AllSealed, Stalled, Parted, Activations;
      ghost var v := View();
      ghost var acts := run.acts;
      var sent := SendActive(payload);
      assert View() == v;
      ok := true;
      if !sent {
        ok := HandleWorkerLossById(Some(token), []);
        PartedBy(acts, Lose, run.acts);
      }
    }

    /** A cancellation follows the invocation it names, to the worker that has it. */
    method RouteCancellation(f: Frame) returns (ok: bool)
      requires Holds([]) && Quiet(View())
      modifies this, kernel
      ensures Holds([]) && (ok ==> Quiet(View()))
      ensures active.Some? ==> View() == old(View())
      ensures NoRevival(old(View()), old(run.acts), View(), run.acts)
      ensures if reading.target(f).Some? && reading.target(f).value in old(host).k.pending && old(active).Some? then
                Carried(old(run.acts), f.payload, run.acts)
              else ok && unchanged(this) && unchanged(kernel)
      ensures old(run.acts) <= run.acts
      ensures reliable ==> ok && View() == old(View())
      ensures NoProgress(old(View()), old(run.acts), View(), run.acts)
    {
      hide Base, Run.Accepted, Quiet, AllSealed, Activations;
      var target := reading.target(f);
      ok := true;
      if target.Some? && target.value in kernel.pending && active.Some? {
        ok := PassOn(active.value.token, f.payload);
      }
    }

    /** The active worker has been asked for the session's first catalog. */
    ghost predicate Handshaken(v: View, w: View)
      requires v.active.Some?
    {
      var token := v.active.value.token;
      w == v.(host := w.host, serial := v.serial + 1, internal :=
          map[RequestId.Internal(token, v.serial + 1) := InternalRequest(token, ActiveCatalog)])
    }

    /** The session goes live: the serving worker is told, and asked for its catalog. */
    method OnInitialized(f: Frame) returns (ok: bool)
      requires Holds([]) && Quiet(View()) && host.k.phase.Live?
      requires active.Some? ==> internal == map[] && published.None?
      modifies this, kernel
      ensures Holds([]) && (ok ==> Quiet(View()))
      ensures NoRevival(old(View()), old(run.acts), View(), run.acts)
      ensures old(active).Some? ==> Carried(old(run.acts), f.payload, run.acts)
      ensures old(run.acts) <= run.acts
      ensures reliable && CanSend(old(nextInternal)) && old(active).Some? ==> (
        ok && Handshaken(old(View()), View()) && SameCore(old(host), host))
      ensures reliable ==> ok
      ensures NoProgress(old(View()), old(run.acts), View(), run.acts)
    {
      hide Base, Run.Accepted, Host.Permits, Host.Apply, Flushed, AllSealed, Activations;
      if Stalled(View()) {
        StalledHasCatalog(View());
      }
      var token := ActiveToken();
      if active.None? {
        ok := HandleWorkerLossById(token, []);
        return;
      }
      ok := PassOn(active.value.token, f.payload);
      if active.None? {
        return;
      }
      var requested := RequestActiveCatalog();
      ok := true;
      if !requested {
        ok := HandleWorkerLossById(token, []);
      }
    }

    /** The host ends over a catalog request that starts a handover whose first entry cannot be sent. */
    ghost predicate EndsOverRefresh(v: View, f: Frame) {
      && AsksCatalog(f) && v.published.Some? && v.phase.AwaitingCatalogRefresh?
      && CannotBegin(v.(phase := Draining))
    }

    /** A catalog request while a public catalog stands. During the announcement of a changed catalog
        it is held for the successor and closes dispatch; during a handover it waits. */
    method OnCatalogRequest(f: Frame) returns (ok: bool)
      requires Chronicled() && SealAgrees() && Quiet(View()) && Sound(View(), [Place(f)])
      requires AsksCatalog(f) && published.Some?
      requires Sealed(f, reading.parse)
      modifies this, kernel
      ensures Chronicled()
      ensures ok ==> Holds([]) && Quiet(View())
      ensures old(run.acts) + [Placement(old(View()), reading, f)] <= run.acts
      ensures Parks(old(View()), f) ==> Parked(old(View()), f, View())
      ensures NoRevival(old(View()), old(run.acts), View(), run.acts)
      ensures reliable ==> (ok <==> !EndsOverRefresh(old(View()), f))
      ensures NoProgress(old(View()), old(run.acts), View(), run.acts)
    {
      hide Run.Accepted, State.Begin, AllSealed, Activations;
      if phase.AwaitingCatalogRefresh? {
        HoldRefresh(f);
        ok := TryBeginRestore();
      } else if GatingNewWork() {
        ok := QueueOrReject(f);
      } else {
        MetKeeps(View(), [Place(f)]);
        ghost var v := View();
        ok := ReplyCatalog(f);
        assert View() == Met(v);
      }
    }

    ghost method NoteHold(f: Frame)
      requires Logged() && host.Permits(Hold(f)) && host.Apply(Hold(f)) == host.(desk := Desk([], HeldId(Some(f))))
      requires host.(desk := Desk([], HeldId(Some(f)))).Permits(Drain)
      modifies this`run, this`host
      ensures Logged() && host == old(host).(desk := Desk([], HeldId(Some(f))), seat := old(host).seat.After(Drain))
      ensures run.acts == old(run.acts) + [Hold(f), Drain]
      ensures Activations(run.acts) == Activations(old(run.acts))
    {
      hide Run.Accepted, AllSealed, Host.Apply, Host.Permits, Activations;
      Note(Hold(f));
      NoteSeat(Drain);
    }

    method HoldRefresh(f: Frame)
      requires Chronicled() && SealAgrees() && Quiet(View()) && Sound(View(), [Place(f)])
      requires AsksCatalog(f) && published.Some? && phase.AwaitingCatalogRefresh?
      modifies this`refreshRequest, this`phase, this`candidate, this`run, this`host
      ensures Holds([]) && Quiet(View()) && View() == AfterHold(old(View()), f)
      ensures candidate.Some? ==> !candidate.value.stage.Restoring?
      ensures old(run.acts) + [Hold(f)] <= run.acts
      ensures Activations(run.acts) == Activations(old(run.acts))
    {
      hide Run.Accepted, AllSealed, Base, Sound, Quiet, Host.Apply, Host.Permits, Seat.After, Activations;
      ghost var v := View();
      HoldKeeps(v, f);
      NoteHold(f);
      refreshRequest := Some(f);
      phase := Draining;
      if candidate.Some? {
        candidate := Some(candidate.value.(armed := false));
      }
      assert View() == AfterHold(v, f);
    }

    /** The frame is observed first; an accepted request then goes where it belongs. */
    ghost predicate Welcomes(v: View, f: Frame, before: seq<Act>, after: seq<Act>) {
      && before + [Act.Observe(f)] <= after
      && (f.envelope.Request? && v.host.k.Observe(f).result.Ok? ==>
          before + [Act.Observe(f), Placement(v, reading, f)] <= after)
    }

    /** In a reliable world: a request that may be dispatched is, one that has to wait is queued or
        refused, and the end of the handshake is passed on. */
    ghost predicate Accepts(v: View, f: Frame, ok: bool, w: View) {
      && (Dispatchable(v, f) ==> ok && Dispatched(v, f, w))
      && (reliable && f.envelope.Response? && f.envelope.id in v.callbacks ==> ok && Returned(v, f.envelope.id, w))
      && (f.envelope.Request? && v.host.k.Observe(f).result.Ok? && Parks(v, f) ==>
          Parked(v.(host := v.host.(k := v.host.k.Observe(f).kernel)), f, w))
      && (Initializes(v, f) && CanSend(v.serial) ==>
          ok && Handshaken(v, w) && w.host.k == v.host.k.Observe(f).kernel && w.host.book == v.host.book)
    }

    ghost predicate Dispatchable(v: View, f: Frame) {
      && reliable && f.envelope.Request? && v.host.k.Observe(f).result.Ok? && Placement(v, reading, f).Admit?
      && v.host.k.Observe(f).kernel.Begin(f, Classify(reading, v.published, f), PENDING_CAPACITY).result.Ok?
    }

    ghost predicate Dispatched(v: View, f: Frame, w: View)
      requires f.envelope.Request?
    {
      && w == v.(host := w.host) && w.host.book == v.host.book
      && w.host.k == v.host.k.Observe(f).kernel.Begin(f, Classify(reading, v.published, f), PENDING_CAPACITY).kernel
    }

    ghost predicate Initializes(v: View, f: Frame) {
      reliable && f.envelope.Notification? && IsInitializedNotification(f.envelope.note) &&
          v.host.k.Observe(f).result.Ok? && v.active.Some?
    }

    /** A frame from the client over which the host ends, in a reliable world. */
    ghost predicate FatalFromClient(v: View, payload: Payload) {
      reading.parse(payload).Some? && EndsOverRefresh(v, Frame(payload, reading.parse(payload).value))
    }

    /** A frame from the client. */
    method HandleClientPayload(payload: Payload) returns (ok: bool)
      requires Holds([]) && Quiet(View())
      modifies this, kernel
      ensures Chronicled()
      ensures ok ==> Holds([]) && Quiet(View())
      ensures NoRevival(old(View()), old(run.acts), View(), run.acts)
      ensures old(run.acts) <= run.acts
      ensures reading.parse(payload).Some? ==> (
        Welcomes(old(View()), Frame(payload, reading.parse(payload).value), old(run.acts), run.acts))
      ensures reading.parse(payload).Some? ==> (
        Accepts(old(View()), Frame(payload, reading.parse(payload).value), ok, View()))
      ensures reliable ==> (ok <==> !FatalFromClient(old(View()), payload))
      ensures NoProgress(old(View()), old(run.acts), View(), run.acts)
    {
      hide Base, Run.Accepted, State.Begin, AllSealed, Activations;
      var envelope := reading.parse(payload);
      if envelope.None? {
        ok := TryWrite();
        return;
      }
      ok := HandleClientFrame(Frame(payload, envelope.value));
    }

    method HandleClientFrame(f: Frame) returns (ok: bool)
      requires Holds([]) && Quiet(View())
      requires Sealed(f, reading.parse)
      modifies this, kernel
      ensures Chronicled()
      ensures ok ==> Holds([]) && Quiet(View())
      ensures NoRevival(old(View()), old(run.acts), View(), run.acts)
      ensures old(run.acts) <= run.acts && Welcomes(old(View()), f, old(run.acts), run.acts)
      ensures Accepts(old(View()), f, ok, View())
      ensures reliable ==> (ok <==> !EndsOverRefresh(old(View()), f))
      ensures NoProgress(old(View()), old(run.acts), View(), run.acts)
    {
      hide Run.Accepted, AllSealed, Base, Sound, Placement, Hopeless, Quiet, HostInv, Flushed, Stalled, Parted,
        EndsOverRefresh, Accepts, Routes, State.Observe, Activations;
      if active.Some? && kernel.phase.AwaitingInitialized? {
        HandshakeIsAlone(View());
      }
      ghost var v := View();
      var observed := Observe(f);
      ghost var w := View();
      ghost var acts := run.acts;
      if observed.Err? {
        ok := RefuseFrame(f, observed.rejection);
        RefusedFrame(v, f, ok, View());
      } else {
        ok := RouteClientFrame(f);
        RoutedFrame(v, w, f, ok, View());
      }
      PartedSince(old(run.acts), acts, run.acts);
    }

    /** A frame that is not accepted is refused, and nothing else happens. */
    method RefuseFrame(f: Frame, reason: HostRejection) returns (ok: bool)
      requires Chronicled() && SealAgrees() && Quiet(View()) && Sound(View(), Refusal(f, reason))
      modifies this`run, this`host
      ensures Holds([]) && Quiet(View()) && old(run.acts) <= run.acts
      ensures NoRevival(old(View()), old(run.acts), View(), run.acts)
      ensures Stalled(old(View())) ==> Stalled(View()) && active == old(active) && candidate == old(candidate)
      ensures reliable ==> ok
    {
      hide Run.Accepted, AllSealed, Base, Sound, Hopeless, Quiet, HostInv, Activations;
      if Hopeless(View()) {
        MetStaysHopeless(View());
      }
      MetStaysQuiet(View());
      ok := RejectClientFrame(f, reason);
    }

    /** Nothing is promised of a frame that is refused. */
    lemma RefusedFrame(v: View, f: Frame, ok: bool, w: View)
      requires v.host.k.Observe(f).result.Err?
      ensures Accepts(v, f, ok, w) && !EndsOverRefresh(v, f)
    {
    }

    /** What becomes of an accepted frame does not depend on its observation. */
    lemma RoutedFrame(v: View, w: View, f: Frame, ok: bool, z: View)
      requires w == v.(host := w.host) && w.host.k == v.host.k.Observe(f).kernel && w.host.book == v.host.book
      requires v.host.k.Observe(f).result.Ok?
      ensures EndsOverRefresh(w, f) <==> EndsOverRefresh(v, f)
      ensures f.envelope.Request? ==> Placement(w, reading, f) == Placement(v, reading, f)
      ensures Routes(w, f, ok, z) ==> Accepts(v, f, ok, z)
    {
    }

    /** In a reliable world: what becomes of an observed frame. */
    ghost predicate Routes(v: View, f: Frame, ok: bool, w: View) {
      match f.envelope
      case Request(_, _) =>
        && (Begins(v, f) ==> ok && Begun(v, f, w))
        && (Parks(v, f) ==> Parked(v, f, w))
      case Response(id, _) => reliable && id in v.callbacks ==> ok && Returned(v, id, w)
      case Notification(note) =>
        IsInitializedNotification(note) && reliable && CanSend(v.serial) && v.active.Some? ==>
          ok && Handshaken(v, w) && SameCore(v.host, w.host)
    }

    /** An observed frame goes where its kind says. */
    method RouteClientFrame(f: Frame) returns (ok: bool)
      requires Chronicled() && SealAgrees() && Quiet(View())
      requires Sound(View(), if f.envelope.Request? then [Place(f)] else [])
      requires f.envelope.Notification? && IsInitializedNotification(f.envelope.note) ==> (
        host.k.phase.Live? && (active.Some? ==> internal == map[] && published.None?))
      requires Sealed(f, reading.parse)
      modifies this, kernel
      ensures Chronicled()
      ensures ok ==> Holds([]) && Quiet(View())
      ensures NoRevival(old(View()), old(run.acts), View(), run.acts)
      ensures old(run.acts) <= run.acts
      ensures f.envelope.Request? ==> old(run.acts) + [Placement(old(View()), reading, f)] <= run.acts
      ensures Routes(old(View()), f, ok, View())
      ensures reliable ==> (ok <==> !EndsOverRefresh(old(View()), f))
      ensures NoProgress(old(View()), old(run.acts), View(), run.acts)
    {
      hide Run.Accepted, AllSealed, Base, Sound, Hopeless, Quiet, Activations;
      match f.envelope {
        case Response(_, _) => ok := RouteCallbackResponse(f);
        case Notification(_) => ok := OnClientNotification(f);
        case Request(_, _) => ok := OnClientRequest(f);
      }
    }

    /** An observed request may be dispatched, in a reliable world. */
    ghost predicate Begins(v: View, f: Frame)
      requires f.envelope.Request?
    {
      reliable && Placement(v, reading, f).Admit? &&
          v.host.k.Begin(f, Classify(reading, v.published, f), PENDING_CAPACITY).result.Ok?
    }

    ghost predicate Begun(v: View, f: Frame, w: View)
      requires f.envelope.Request?
    {
      && w == v.(host := w.host) && w.host.book == v.host.book
      && w.host.k == v.host.k.Begin(f, Classify(reading, v.published, f), PENDING_CAPACITY).kernel
    }

    /** An observed request has to wait, in a reliable world. */
    ghost predicate Parks(v: View, f: Frame)
      requires f.envelope.Request?
    {
      reliable && Placement(v, reading, f).Queue?
    }

    ghost predicate Parked(v: View, f: Frame, w: View) {
      w == v.(host := w.host) && w.host.book == v.host.book && w.host.k == KernelAfter(v.host.k, Queue(f))
    }

    method OnClientNotification(f: Frame) returns (ok: bool)
      requires Holds([]) && Quiet(View()) && f.envelope.Notification?
      requires IsInitializedNotification(f.envelope.note) ==> (
        host.k.phase.Live? && (active.Some? ==> internal == map[] && published.None?))
      requires Sealed(f, reading.parse)
      modifies this, kernel
      ensures Holds([]) && (ok ==> Quiet(View()))
      ensures NoRevival(old(View()), old(run.acts), View(), run.acts)
      ensures old(run.acts) <= run.acts
      ensures !IsInitializedNotification(f.envelope.note) && !f.envelope.note.NotificationsCancelled? ==>
          if old(phase).Draining? || old(phase).Recovering? || old(active).None? then
            old(run.acts) + [Queue(f)] <= run.acts
          else Carried(old(run.acts), f.payload, run.acts)
      ensures reliable ==> ok
      ensures reliable && CanSend(old(nextInternal)) && IsInitializedNotification(f.envelope.note) ==>
          old(active).Some? ==> ok && Handshaken(old(View()), View()) && SameCore(old(host), host)
      ensures NoProgress(old(View()), old(run.acts), View(), run.acts)
    {
      hide Run.Accepted, AllSealed, Activations;
      if IsInitializedNotification(f.envelope.note) {
        ok := OnInitialized(f);
      } else if f.envelope.note.NotificationsCancelled? {
        ok := RouteCancellation(f);
      } else if GatingNewWork() || active.None? {
        ok := QueueOrReject(f);
      } else {
        ok := PassOn(active.value.token, f.payload);
      }
    }

    method OnClientRequest(f: Frame) returns (ok: bool)
      requires Chronicled() && SealAgrees() && Quiet(View()) && Sound(View(), [Place(f)]) && f.envelope.Request?
      requires Sealed(f, reading.parse)
      modifies this, kernel
      ensures Chronicled()
      ensures ok ==> Holds([]) && Quiet(View())
      ensures NoRevival(old(View()), old(run.acts), View(), run.acts)
      ensures old(run.acts) + [Placement(old(View()), reading, f)] <= run.acts
      ensures Begins(old(View()), f) ==> ok && Begun(old(View()), f, View())
      ensures Parks(old(View()), f) ==> Parked(old(View()), f, View())
      ensures reliable ==> (ok <==> !EndsOverRefresh(old(View()), f))
      ensures NoProgress(old(View()), old(run.acts), View(), run.acts)
    {
      hide Run.Accepted, AllSealed, State.Begin, Activations;
      if AsksCatalog(f) && published.Some? {
        ok := OnCatalogRequest(f);
      } else if !f.envelope.rpc.Initialize? && published.None? {
        ok := QueueOrReject(f);
      } else if GatingNewWork() || active.None? {
        ok := QueueOrReject(f);
      } else {
        ok := DispatchRequest(f);
      }
    }

    // -------------------------------------------------------------- the event loop

    method Shutdown()
      modifies this`active, this`candidate
      ensures active.None? && candidate.None?
    {
      active, candidate := None, None;
    }

    /** The events over which the host ends, in a reliable world. */
    ghost predicate Fatal(v: View, event: Event) {
      match event
      case FromClient(payload) => FatalFromClient(v, payload)
      case ClientEnd => true
      case FromWorker(token, payload) => FatalFromWorker(v, token, payload)
      case WorkerGone(_) => false
      case Tick(expired, _, _) => Expires(v, expired) && CannotBegin(v.(phase := Draining))
    }

    /** One event. In a reliable world the host ends exactly over the fatal ones. */
    method HandleEvent(event: Event) returns (ok: bool)
      requires Holds([]) && Quiet(View())
      modifies this, kernel, journal
      ensures Chronicled()
      ensures ok ==> Holds([]) && Quiet(View())
      ensures NoRevival(old(View()), old(run.acts), View(), run.acts)
      ensures old(run.acts) <= run.acts
      ensures reliable ==> (ok <==> !Fatal(old(View()), event))
      ensures NoProgress(old(View()), old(run.acts), View(), run.acts)
    {
      hide Base, Run.Accepted, Host.Permits, Host.Apply, Bookkeeping, Proceeds, CannotBegin;
      match event {
        case FromClient(payload) => ok := HandleClientPayload(payload);
        case FromWorker(token, payload) => ok := HandleWorkerPayload(token, payload);
        case WorkerGone(token) => ok := HandleWorkerLoss(token);
        case Tick(expired, retryDue, observed) => ok := OnTick(expired, retryDue, observed);
        case ClientEnd => ok := false;
      }
    }

    /** Any number of events, in any order, until the client ends or a handler fails: the run that
        they perform is accepted, and between them the supervisor's state is sound and quiet. A
        hopeless session never gets a worker again, and a stalled handover is stalled until one of its
        two workers is gone. In a reliable world the events served before the
        last one were not fatal where they came, and the last one was, unless all were served. */
    method Serve(events: seq<Event>) returns (served: nat, ghost views: seq<View>)
      requires Holds([]) && Quiet(View())
      modifies this, kernel, journal
      ensures Chronicled()
      ensures old(run.acts) <= run.acts
      ensures Hopeless(old(View())) ==> active.None? && Activations(run.acts) == Activations(old(run.acts))
      ensures served == |events| ==> NoProgress(old(View()), old(run.acts), View(), run.acts)
      ensures served <= |events| && |views| == served + 1 && views[0] == old(View())
      ensures reliable ==> forall i :: 0 <= i < served ==> !Fatal(views[i], events[i])
      ensures reliable && served < |events| ==> Fatal(views[served], events[served])
      ensures served == |events| ==> Holds([]) && Quiet(View()) && View() == views[served]
    {
      hide Base, Run.Accepted, Quiet, AllSealed, Fatal, Activations;
      views := [View()];
      served := 0;
      while served < |events|
        invariant Holds([]) && Quiet(View()) && old(run.acts) <= run.acts
        invariant NoRevival(old(View()), old(run.acts), View(), run.acts)
        invariant NoProgress(old(View()), old(run.acts), View(), run.acts)
        invariant served <= |events| && |views| == served + 1 && views[0] == old(View()) && views[served] == View()
        invariant reliable ==> forall i :: 0 <= i < served ==> !Fatal(views[i], events[i])
      {
        if events[served].ClientEnd? {
          EndIsFatal(View());
          Shutdown();
          return;
        }
        ghost var acts := run.acts;
        var ok := HandleEvent(events[served]);
        if !ok {
          return;
        }
        PartedSince(old(run.acts), acts, run.acts);
        views := views + [View()];
        served := served + 1;
      }
    }

    lemma EndIsFatal(v: View)
      ensures Fatal(v, ClientEnd)
    {
    }
  }
}
