/** Laws of every run that the abstract host accepts: who answers for an invocation, when authority
    may move, what a successor has been given by then, and that no obligation is skipped. */
module HostLaws {
  import opened Wire
  import opened Replay
  import opened Kernel
  import opened KernelInvariant
  import opened KernelSteps
  import opened Journal
  import opened Authority
  import R = KernelRuns

  // ---------------------------------------------------------------- completion and authority

  /** The worker that an invocation was last dispatched to, before step j. */
  function LastDispatcher(r: Run, j: nat, s: nat): Option<nat>
    requires j <= |r.acts| && j < |r.states|
    decreases j
  {
    if j == 0 then None
    else if Crosses(r, j - 1, s) then r.states[j - 1].seat.active
    else LastDispatcher(r, j - 1, s)
  }

  function OwnerOf(owner: map<nat, nat>, s: nat): Option<nat> {
    if s in owner then Some(owner[s]) else None
  }

  lemma {:induction false} OwnerStep(h: Host, a: Act, s: nat)
    requires h.Permits(a)
    ensures OwnerOf(h.Apply(a).owner, s) == if Crossed(h.k, a) == Some(s) then h.seat.active else OwnerOf(h.owner, s)
  {
    ActiveIsKept(h, a);
  }

  lemma {:induction false} OwnerIsLastDispatcher(r: Run, j: nat, s: nat)
    requires r.Accepted() && j <= |r.acts|
    ensures OwnerOf(r.states[j].owner, s) == LastDispatcher(r, j, s)
    decreases j
  {
    if j > 0 {
      OwnerIsLastDispatcher(r, j - 1, s);
      assert r.Step(j - 1);
      OwnerStep(r.states[j - 1], r.acts[j - 1], s);
    }
  }

  lemma {:induction false} AnswerComesFromOwner(h: Host, a: Act, s: nat)
    requires Pinned(h.k.pending, h.seat.active, h.owner) && h.Allows(a) && Answered(h.k, a) == Some(s)
    ensures h.seat.active.Some? && OwnerOf(h.owner, s) == h.seat.active
  {
    assert a.frame.envelope.id in h.k.pending;
  }

  /** An invocation is completed by the worker that holds its last attempt, across any losses,
      recoveries and rollovers. */
  lemma {:induction false} CompletedByItsDispatcher(r: Run, j: nat, s: nat)
    requires r.Accepted() && j < |r.acts| && Answers(r, j, s)
    ensures r.states[j].seat.active.Some? && LastDispatcher(r, j, s) == r.states[j].seat.active
  {
    assert r.Step(j);
    GenerationPinning(r, j);
    AnswerComesFromOwner(r.states[j], r.acts[j], s);
    OwnerIsLastDispatcher(r, j, s);
  }

  /** No invocation is split across an activation: between its dispatch and its answer, with no
      loss of its worker, authority does not move. */
  lemma {:induction false} NoActivationInFlight(r: Run, i: nat, j: nat, s: nat)
    requires r.Accepted() && i < j < |r.acts| && Crosses(r, i, s)
    requires forall x: nat :: i < x < j ==> Spares(r, x, s)
    ensures !r.acts[j].Activate?
  {
    NoRolloverSmothering(r, i, j, s);
    assert r.Step(j);
  }

  lemma {:induction false} AuthorityStep(h: Host, a: Act, w: nat)
    requires h.Allows(a) && h.seat.After(a).active == Some(w)
    ensures a == Activate(w) || (h.seat.active == Some(w) && !a.Activate? && !a.Lose?)
  {
  }

  /** Public authority comes from an activation and lasts until the next one or a loss. */
  lemma {:induction false} AuthorityIsGranted(r: Run, k: nat, w: nat) returns (x: nat)
    requires r.Accepted() && k <= |r.acts| && r.states[k].seat.active == Some(w)
    ensures x < k && r.acts[x] == Activate(w)
    ensures forall y: nat :: x < y < k ==> !r.acts[y].Activate? && !r.acts[y].Lose?
    decreases k
  {
    assert k > 0 && r.Step(k - 1);
    AuthorityStep(r.states[k - 1], r.acts[k - 1], w);
    if r.acts[k - 1] == Activate(w) {
      x := k - 1;
    } else {
      x := AuthorityIsGranted(r, k - 1, w);
    }
  }

  lemma {:induction false} BirthsIncrease(h: Host, a: Act)
    requires h.Permits(a)
    ensures h.seat.born <= h.Apply(a).seat.born
    ensures a.Activate? ==> a.token <= h.Apply(a).seat.born && h.Apply(a).seat.heir.None?
    ensures h.Apply(a).seat.heir.Some? ==> (
      || (h.seat.heir.Some? && h.Apply(a).seat.heir.value.token == h.seat.heir.value.token)
      || h.Apply(a).seat.heir.value.token > h.seat.born)
  {
  }

  lemma {:induction false} ActivatedTokensAreSpent(r: Run, i: nat, k: nat)
    requires r.Accepted() && i < k <= |r.acts| && r.acts[i].Activate?
    ensures r.acts[i].token <= r.states[k].seat.born
    ensures r.states[k].seat.heir.Some? ==> r.states[k].seat.heir.value.token != r.acts[i].token
    decreases k
  {
    assert r.Step(k - 1);
    BirthsIncrease(r.states[k - 1], r.acts[k - 1]);
    if k > i + 1 {
      ActivatedTokensAreSpent(r, i, k - 1);
    }
  }

  /** No worker is given authority twice. */
  lemma {:induction false} UniqueAuthority(r: Run, i: nat, j: nat)
    requires r.Accepted() && i < j < |r.acts| && r.acts[i].Activate? && r.acts[j].Activate?
    ensures r.acts[i].token != r.acts[j].token
  {
    ActivatedTokensAreSpent(r, i, j);
    assert r.Step(j);
  }

  /** A candidate is not answerable for anything: it is never the active worker, nothing crosses
      while the session is being handed to it, and what the host passes on comes from another. */
  lemma {:induction false} CandidateIsOpaque(r: Run, j: nat)
    requires r.Accepted() && j < |r.acts| && r.states[j].seat.heir.Some?
    ensures r.states[j].seat.active != Some(r.states[j].seat.heir.value.token)
    ensures r.states[j].seat.heir.value.sent > 0 ==> Crossed(r.states[j].k, r.acts[j]).None?
    ensures r.acts[j].Tell? ==> r.acts[j].token != r.states[j].seat.heir.value.token
  {
    GenerationPinning(r, j);
    assert r.Step(j);
    ActiveIsKept(r.states[j], r.acts[j]);
    if r.states[j].seat.heir.value.sent > 0 {
      assert Handover(r.states[j].k, r.states[j].seat, r.states[j].book.sealed);
    }
  }

  // ---------------------------------------------------------------- restoration before activation

  /** The journaled transitions of a run, in order. */
  function Transitions(acts: seq<Act>): seq<Entry> {
    if acts == [] then []
    else
      var last := acts[|acts| - 1];
      Transitions(acts[..|acts| - 1]) + if last.Record? then [last.entry] else []
  }

  /** What the newest candidate was sent, in order. */
  function Delivered(acts: seq<Act>): seq<Entry> {
    if acts == [] then []
    else
      var last := acts[|acts| - 1];
      if last.Propose? then []
      else if last.Send? then Delivered(acts[..|acts| - 1]) + [last.entry]
      else Delivered(acts[..|acts| - 1])
  }

  /** How many of those it has acknowledged. */
  function Acknowledged(acts: seq<Act>): nat {
    if acts == [] then 0
    else
      var last := acts[|acts| - 1];
      if last.Propose? then 0
      else if last.Ack? then Acknowledged(acts[..|acts| - 1]) + 1
      else Acknowledged(acts[..|acts| - 1])
  }

  predicate HoldsPrefix(heir: Option<Heir>, entries: seq<Entry>, acts: seq<Act>) {
    heir.Some? ==>
      && heir.value.sent <= |entries|
      && Delivered(acts) == entries[..heir.value.sent]
      && Acknowledged(acts) == heir.value.acked
  }

  lemma {:induction false} HistoryIsTransitions(r: Run, j: nat)
    requires r.Accepted() && j <= |r.acts|
    ensures r.states[j].book.history == Transitions(r.acts[..j])
  {
    if j > 0 {
      HistoryIsTransitions(r, j - 1);
      assert r.Step(j - 1);
      assert r.acts[..j][..j - 1] == r.acts[..j - 1];
    }
  }

  lemma {:induction false} DeliveryStep(acts: seq<Act>, a: Act)
    ensures Delivered(acts + [a]) == if a.Propose? then [] else Delivered(acts) + if a.Send? then [a.entry] else []
    ensures Acknowledged(acts + [a]) == if a.Propose? then 0 else Acknowledged(acts) + if a.Ack? then 1 else 0
  {
    assert (acts + [a])[..|acts|] == acts;
  }

  lemma {:induction false} PrefixStep(h: Host, acts: seq<Act>, a: Act)
    requires HoldsPrefix(h.seat.heir, h.book.entries, acts) && h.Allows(a)
    ensures HoldsPrefix(h.seat.After(a).heir, h.book.After(a).entries, acts + [a])
  {
    DeliveryStep(acts, a);
    match a
    case Propose(_) =>
    case Send(e) =>
    case Record(e, kept) =>
    case _ =>
  }

  /** The heir has received exactly a prefix of the journal, and the journal stands still meanwhile. */
  lemma {:induction false} HeirHoldsPrefix(r: Run, j: nat)
    requires r.Accepted() && j <= |r.acts|
    ensures HoldsPrefix(r.states[j].seat.heir, r.states[j].book.entries, r.acts[..j])
  {
    if j > 0 {
      HeirHoldsPrefix(r, j - 1);
      assert r.Step(j - 1);
      PrefixStep(r.states[j - 1], r.acts[..j - 1], r.acts[j - 1]);
      assert r.acts[..j] == r.acts[..j - 1] + [r.acts[j - 1]];
    }
  }

  /** What a worker was given of the session by the time it is activated. */
  function Inheritance(r: Run, j: nat): seq<Entry>
    requires j <= |r.acts| && j < |r.states|
  {
    if r.states[j].seat.heir.Some? then Delivered(r.acts[..j]) else []
  }

  lemma {:induction false} ActivationIsComplete(h: Host, t: nat)
    requires Faithful(h.book) && h.Allows(Activate(t))
    ensures h.book.entries == Compact(h.book.history)
    ensures h.seat.heir.Some? ==> h.seat.heir.value.sent == |h.book.entries| == h.seat.heir.value.acked
    ensures h.seat.heir.None? ==> h.book.entries == []
    ensures h.book.entries == [] ==> h.seat.nested == {}
  {
  }

  lemma {:induction false} InheritanceIsJournal(r: Run, j: nat)
    requires r.Accepted() && j < |r.acts| && r.acts[j].Activate?
    ensures Inheritance(r, j) == Compact(Transitions(r.acts[..j]))
    ensures r.states[j].seat.heir.Some? ==> Acknowledged(r.acts[..j]) == |Inheritance(r, j)|
    ensures Inheritance(r, j) == [] ==> r.states[j].seat.nested == {}
  {
    assert r.Step(j);
    GenerationPinning(r, j);
    ActivationIsComplete(r.states[j], r.acts[j].token);
    HeirHoldsPrefix(r, j);
    HistoryIsTransitions(r, j);
  }

  /** Before it becomes active, a worker has received and acknowledged the last transition under
      each key of the whole session, in order, each once; so replaying what it was given leaves the
      same keyed state as the session itself. */
  lemma {:induction false} RestoredBeforeActivation(r: Run, j: nat)
    requires r.Accepted() && j < |r.acts| && r.acts[j].Activate?
    ensures Inheritance(r, j) == LastOccurrences(Transitions(r.acts[..j]))
    ensures DistinctKeys(Inheritance(r, j))
    ensures r.states[j].seat.heir.Some? ==> Acknowledged(r.acts[..j]) == |Inheritance(r, j)|
    ensures KeyedState(Inheritance(r, j)) == KeyedState(Transitions(r.acts[..j]))
  {
    InheritanceIsJournal(r, j);
    CompactionIsExact(Transitions(r.acts[..j]));
    CompactionPreservesState(Transitions(r.acts[..j]));
  }

  // ---------------------------------------------------------------- nested requests at activation

  /** Nested requests opened and not returned by steps i up to k. */
  function OpenedSince(acts: seq<Act>, i: nat, k: nat): set<RequestId>
    requires i <= k <= |acts|
    decreases k
  {
    if k == i then {}
    else
      match acts[k - 1]
      case Nest(id) => OpenedSince(acts, i, k - 1) + {id}
      case Return(id) => OpenedSince(acts, i, k - 1) - {id}
      case _ => OpenedSince(acts, i, k - 1)
  }

  predicate Steady(a: Act) {
    !a.Lose? && !a.Activate?
  }

  /** Restoration starts only when the incumbent has no nested request open, so what an activation
      drops is exactly what was opened, and not returned, while the journal was being sent. */
  lemma {:induction false} OnlyLateNestedRequestsAreDropped(r: Run, i: nat, k: nat)
    requires r.Accepted() && i < k <= |r.acts| && r.acts[i].Send? && r.states[i].seat.Unstarted()
    requires forall x: nat :: i < x < k ==> Steady(r.acts[x])
    ensures r.states[k].seat.nested == OpenedSince(r.acts, i, k)
    decreases k
  {
    hide KernelAfter, Desk.After, Book.After, Incurs;
    assert r.Step(k - 1);
    if k > i + 1 {
      assert Steady(r.acts[k - 1]);
      OnlyLateNestedRequestsAreDropped(r, i, k - 1);
    }
  }

  /** With nothing journaled, an activation drops no nested request. */
  lemma {:induction false} EmptyJournalDropsNothing(r: Run, j: nat)
    requires r.Accepted() && j < |r.acts| && r.acts[j].Activate? && Transitions(r.acts[..j]) == []
    ensures r.states[j].seat.nested == {}
  {
    InheritanceIsJournal(r, j);
  }

  /** What a run has been through is determined by its steps. */
  lemma {:induction false} StepsDetermine(r: Run, q: Run, j: nat)
    requires r.Accepted() && q.Accepted() && j <= |r.acts| && j <= |q.acts| && r.acts[..j] == q.acts[..j]
    ensures r.states[j] == q.states[j]
  {
    if j > 0 {
      assert r.acts[..j][..j - 1] == r.acts[..j - 1] && q.acts[..j][..j - 1] == q.acts[..j - 1];
      StepsDetermine(r, q, j - 1);
      assert r.Step(j - 1) && q.Step(j - 1) && r.acts[..j][j - 1] == q.acts[..j][j - 1];
    }
  }

  /** A nested request that is open when the last acknowledgement comes is dropped by the activation. */
  lemma {:induction false} OpenAtActivation(r: Run, q: Run, id: RequestId, token: nat) returns (j: nat)
    requires r.Accepted() && q.Accepted() && r.acts + [Ack, Activate(token)] <= q.acts && id in r.Last().seat.nested
    ensures j < |q.acts| && q.acts[j] == Activate(token) && q.states[j].seat.active == r.Last().seat.active
    ensures id in q.states[j].seat.nested && q.states[j + 1].seat.nested == {}
  {
    var n := |r.acts|;
    assert q.acts[..n] == r.acts && r.acts[..n] == r.acts;
    StepsDetermine(r, q, n);
    assert q.acts[n] == Ack && q.acts[n + 1] == Activate(token);
    assert q.Step(n) && q.Step(n + 1);
    j := n + 1;
  }

  // ---------------------------------------------------------------- obligations

  predicate AllReplies(due: seq<Due>) {
    forall d :: d in due ==> d.ToClient?
  }

  /** More than one thing is due only after a worker loss, and then only replies. */
  predicate Orderly(due: seq<Due>) {
    |due| <= 1 || AllReplies(due)
  }

  lemma {:induction false} RepliesAreReplies(rejected: seq<RejectedReplay>)
    ensures AllReplies(Replies(rejected))
  {
    if rejected != [] {
      RepliesAreReplies(rejected[1..]);
    }
  }

  lemma {:induction false} AtMostOneIncurred(k: State, a: Act)
    requires !a.Lose?
    ensures |Incurs(k, a)| <= 1
    ensures a.Record? || a.Seal? || a.Abandon? || a.Relay? ==> Incurs(k, a) == []
  {
  }

  lemma {:induction false} DeskTurns(desk: Desk, a: Act, incurred: seq<Due>)
    requires Orderly(desk.due) && desk.Serves(a) && (a.Hold? ==> a.frame.envelope.Request?)
    requires a.Lose? ==> AllReplies(incurred)
    requires !a.Lose? ==> |incurred| <= 1
    requires a.Record? || a.Seal? || a.Abandon? || a.Relay? ==> incurred == []
    ensures Orderly(desk.After(a, incurred).due)
    ensures incurred != [] && !a.Lose? ==> desk.After(a, incurred).due == incurred
  {
    assert [] + incurred == incurred;
    if desk.due != [] {
      assert desk.due[0] in desk.due;
      if desk.due[0].ToClient? {
        assert desk.due[1..] + [] == desk.due[1..] && desk.due + [] == desk.due;
        assert forall d :: d in desk.due[1..] ==> d in desk.due;
      } else {
        assert desk.due[1..] == [];
      }
    }
  }

  lemma {:induction false} DeskStep(desk: Desk, k: State, a: Act)
    requires Orderly(desk.due) && desk.Serves(a) && (a.Lose? ==> DistinctSequences(k.pending))
    requires (a.Hold? ==> a.frame.envelope.Request?)
    ensures Orderly(desk.After(a, Incurs(k, a)).due)
    ensures Incurs(k, a) != [] && !a.Lose? ==> desk.After(a, Incurs(k, a)).due == Incurs(k, a)
  {
    if a.Lose? {
      RepliesAreReplies(k.Requeue(RECOVERY).1.rejected);
    } else {
      AtMostOneIncurred(k, a);
    }
    DeskTurns(desk, a, Incurs(k, a));
  }

  lemma {:induction false} DeskIsOrderly(r: Run, j: nat)
    requires r.Accepted() && j <= |r.acts|
    ensures Orderly(r.states[j].desk.due)
  {
    if j > 0 {
      DeskIsOrderly(r, j - 1);
      assert r.Step(j - 1);
      DeskStep(r.states[j - 1].desk, r.states[j - 1].k, r.acts[j - 1]);
    }
  }

  /** A step that incurs one obligation leaves exactly that one. */
  lemma {:induction false} IncurredIsDue(r: Run, i: nat)
    requires r.Accepted() && i < |r.acts| && !r.acts[i].Lose? && Incurs(r.states[i].k, r.acts[i]) != []
    ensures r.states[i + 1].desk.due == Incurs(r.states[i].k, r.acts[i])
  {
    DeskIsOrderly(r, i);
    assert r.Step(i);
    DeskStep(r.states[i].desk, r.states[i].k, r.acts[i]);
  }

  /** The payload belongs to the pending invocation with this sequence number. */
  ghost predicate Bears(k: State, s: nat, payload: Payload) {
    exists id :: id in k.pending && k.pending[id].sequence == s && k.pending[id].frame.payload == payload
  }

  lemma {:induction false} CrossingIncurs(k: State, a: Act, s: nat) returns (payload: Payload)
    requires Inv(k) && Crossed(k, a) == Some(s)
    ensures !a.Lose? && Incurs(k, a) == [ToWorker(payload)] && Bears(KernelAfter(k, a), s, payload)
  {
    match a
    case Admit(f, c) =>
      payload := f.payload;
      assert f.envelope.id in KernelAfter(k, a).pending;
    case Pop =>
      var ids, backlog :| Split(k, ids, backlog);
      PopShape(k, ids, backlog);
      HeadOfQueue(k, ids, backlog);
      assert k.queue[0] == k.pending[ids[0]].frame;
      payload := k.queue[0].payload;
      assert ids[0] in KernelAfter(k, a).pending;
  }

  /** Every dispatch is followed at once by the delivery, to the worker that is active, of exactly
      the bytes of the invocation that crossed, or by the loss of that worker. */
  lemma {:induction false} DispatchIsDelivered(r: Run, i: nat, s: nat)
    requires r.Accepted() && i + 1 < |r.acts| && Crosses(r, i, s)
    ensures r.states[i + 1].seat.active.Some? && (r.acts[i + 1].Deliver? || r.acts[i + 1].Lose?)
    ensures r.acts[i + 1].Deliver? ==> Bears(r.states[i + 1].k, s, r.acts[i + 1].payload)
  {
    GenerationPinning(r, i);
    assert r.Step(i) && r.Step(i + 1);
    var payload := CrossingIncurs(r.states[i].k, r.acts[i], s);
    IncurredIsDue(r, i);
  }

  /** A request that the host has accepted, or taken from its queue, is placed at once: queued,
      dispatched, or (a catalog request) answered or held for the successor. */
  predicate Takes(k: State, a: Act, f: Frame) {
    f.envelope.Request? && ((a == Observe(f) && k.Observe(f).result.Ok?) || (a.Pop? &&
        k.Pop().result == Ok(ClientFrame(f))))
  }

  lemma {:induction false} AcceptedRequestIsPlaced(r: Run, i: nat, f: Frame)
    requires r.Accepted() && i + 1 < |r.acts| && Takes(r.states[i].k, r.acts[i], f)
    ensures || r.acts[i + 1] == Queue(f)
            || (r.acts[i + 1].Admit? && r.acts[i + 1].frame == f)
            || (AsksCatalog(f)
                && (FromCatalog(r.acts[i + 1], f.envelope.id) || r.acts[i + 1] == Hold(f) || r.acts[i + 1].Abandon?))
  {
    assert r.Step(i + 1);
    IncurredIsDue(r, i);
  }

  /** The host refuses a client request, for this reason. */
  predicate Refuses(k: State, a: Act, reason: HostRejection) {
    || (a.Admit? && k.Begin(a.frame, a.contract, PENDING_CAPACITY).result == Err(reason))
    || (a.Queue? && k.Enqueue(a.frame, QUEUE_CAPACITY).result == Err(reason))
    || (a.Observe? && k.Observe(a.frame).result == Err(reason))
  }

  /** A worker's answer, or the host's refusal of a request: what the client is to be told. */
  predicate Concludes(k: State, a: Act, id: RequestId, word: Word) {
    || (a.Answer? && k.Complete(a.frame).result.Ok? && a.frame.envelope.Response? && a.frame.envelope.id == id
        && word == Said(a.frame.payload))
    || (word.Refused? && Refuses(k, a, word.reason) && a.frame.envelope.Request? && a.frame.envelope.id == id)
  }

  lemma {:induction false} BookingWaits(h: Host, a: Act, id: RequestId, word: Word)
    requires h.Permits(a) && h.desk.due == [ToClient(id, word)]
    ensures a == Relay(id, word) || Books(a) || a.Abandon?
    ensures Books(a) ==> h.Apply(a).desk.due == [ToClient(id, word)]
  {
  }

  lemma {:induction false} BookingAt(r: Run, j: nat, id: RequestId, word: Word)
    requires r.Accepted() && j < |r.acts| && r.states[j].desk.due == [ToClient(id, word)]
    ensures r.acts[j] == Relay(id, word) || Books(r.acts[j]) || r.acts[j].Abandon?
    ensures Books(r.acts[j]) ==> r.states[j + 1].desk.due == [ToClient(id, word)]
  {
    assert r.Step(j);
    BookingWaits(r.states[j], r.acts[j], id, word);
  }

  lemma {:induction false} ConclusionIncurs(k: State, a: Act, id: RequestId, word: Word)
    requires Concludes(k, a, id, word)
    ensures !a.Lose? && Incurs(k, a) == [ToClient(id, word)]
  {
  }

  /** An answered request gets exactly the worker's answer, and a refused one its refusal and the
      reason, before the host does anything but book the session transition. */
  lemma {:induction false} OutcomeIsRelayed(r: Run, i: nat, j: nat, id: RequestId, word: Word)
    requires r.Accepted() && i < j < |r.acts| && Concludes(r.states[i].k, r.acts[i], id, word)
    requires forall x: nat :: i < x < j ==> Books(r.acts[x])
    ensures r.states[j].desk.due == [ToClient(id, word)]
    ensures r.acts[j] == Relay(id, word) || Books(r.acts[j]) || r.acts[j].Abandon?
    decreases j
  {
    if j == i + 1 {
      ConclusionIncurs(r.states[i].k, r.acts[i], id, word);
      IncurredIsDue(r, i);
    } else {
      OutcomeIsRelayed(r, i, j - 1, id, word);
      assert Books(r.acts[j - 1]);
      BookingAt(r, j - 1, id, word);
    }
    BookingAt(r, j, id, word);
  }

  lemma {:induction false} RepliesAre(rejected: seq<RejectedReplay>)
    ensures forall i :: 0 <= i < |rejected| ==>
        Replies(rejected)[i] == ToClient(rejected[i].id, Refused(rejected[i].reason))
  {
    if rejected != [] {
      RepliesAre(rejected[1..]);
    }
  }

  /** The invocations that the loss of the serving worker ends. */
  ghost function Ended(k: State): seq<RejectedReplay> {
    if DistinctSequences(k.pending) then k.Requeue(RECOVERY).1.rejected else []
  }

  /** What a loss makes the host owe is owed next, and nothing besides. */
  lemma {:induction false} LossIncurs(r: Run, i: nat)
    requires r.Accepted() && i < |r.acts| && r.acts[i].Lose?
    ensures r.states[i + 1].desk.due == Replies(Ended(r.states[i].k))
  {
    hide State.Requeue;
    DeskIsOrderly(r, i);
    assert r.Step(i);
    var due := r.states[i].desk.due;
    assert due == [] || due[1..] == [];
  }

  /** One reply more, and the others are still owed. */
  lemma {:induction false} ReplyStep(h: Host, a: Act, id: RequestId, reason: HostRejection)
    requires h.Permits(a) && h.desk.due != [] && h.desk.due[0] == ToClient(id, Refused(reason)) && !Books(a)
    ensures a == Relay(id, Refused(reason)) || a.Abandon?
    ensures !a.Abandon? ==> h.Apply(a).desk.due == h.desk.due[1..]
  {
    assert h.desk.due[1..] + [] == h.desk.due[1..];
  }

  lemma {:induction false} NothingIsBooked(r: Run, j: nat)
    requires r.Accepted() && j < |r.acts| && (j > 0 ==> !r.acts[j - 1].Answer?)
    ensures !Books(r.acts[j])
  {
    if Books(r.acts[j]) {
      var request := BookingFollowsSuccess(r, j);
    }
  }

  /** After the loss of a worker, and before anything else, the client is told of each invocation that
      will not be repeated, oldest first, with the reason. */
  lemma {:induction false} LossIsRelayed(r: Run, i: nat, n: nat)
    requires r.Accepted() && i + 1 + n < |r.acts| && r.acts[i].Lose? && n < |Ended(r.states[i].k)|
    requires forall x: nat :: i < x < i + 1 + n ==> !r.acts[x].Abandon?
    ensures var told := Ended(r.states[i].k);
      && r.states[i + 1 + n].desk.due == Replies(told)[n..]
      && (r.acts[i + 1 + n] == Relay(told[n].id, Refused(told[n].reason)) || r.acts[i + 1 + n].Abandon?)
    decreases n
  {
    hide Ended, Host.Permits, Host.Apply;
    var told := Ended(r.states[i].k);
    var j := i + 1 + n;
    RepliesAre(told);
    assert r.Step(j);
    if n == 0 {
      LossIncurs(r, i);
    } else {
      LossIsRelayed(r, i, n - 1);
      assert r.Step(j - 1) && r.acts[j - 1].Relay?;
      ReplyStep(r.states[j - 1], r.acts[j - 1], told[n - 1].id, told[n - 1].reason);
      assert Replies(told)[n - 1..][1..] == Replies(told)[n..];
    }
    NothingIsBooked(r, j);
    ReplyStep(r.states[j], r.acts[j], told[n].id, told[n].reason);
  }

  /** A client notification that had to wait is delivered as it is, once it is its turn. */
  lemma {:induction false} WaitingNotificationIsDelivered(r: Run, i: nat, f: Frame)
    requires r.Accepted() && i + 1 < |r.acts| && f.envelope.Notification?
    requires r.acts[i].Pop? && r.states[i].k.Pop().result == Ok(ClientFrame(f))
    ensures r.acts[i + 1] == Deliver(f.payload) || r.acts[i + 1].Lose?
  {
    hide State.Pop;
    IncurredIsDue(r, i);
    assert r.Step(i + 1);
  }

  // ---------------------------------------------------------------- only successes are booked

  /** Step x passes on a worker's answer without an error, to this request. */
  ghost predicate Succeeds(r: Run, x: nat, request: Frame)
    requires x < |r.acts| && x < |r.states|
  {
    && r.acts[x].Answer? && r.acts[x].frame.envelope.Response? && !r.acts[x].frame.envelope.hasError
    && r.acts[x].frame.envelope.id in r.states[x].k.pending
    && r.states[x].k.pending[r.acts[x].frame.envelope.id].frame == request
  }

  lemma {:induction false} FulfilledIsPending(k: State, a: Act)
    requires Inv(k) && Fulfilled(k, a).Some?
    ensures a.Answer? && a.frame.envelope.Response? && !a.frame.envelope.hasError && a.frame.envelope.id in k.pending
    ensures Fulfilled(k, a) == Some(k.pending[a.frame.envelope.id].frame)
    ensures Incurs(k, a) == [ToClient(a.frame.envelope.id, Said(a.frame.payload))]
  {
    AnswerIsExact(k, a.frame);
  }

  /** The journal is written or sealed only directly after a worker has answered a request without an
      error, for that request, and before the client is told. */
  lemma {:induction false} BookingFollowsSuccess(r: Run, i: nat) returns (request: Frame)
    requires r.Accepted() && i < |r.acts| && Books(r.acts[i])
    ensures i > 0 && Succeeds(r, i - 1, request) && (r.acts[i].Record? ==> r.acts[i].entry.frame == request)
    ensures r.states[i].desk.due == [ToClient(r.acts[i - 1].frame.envelope.id, Said(r.acts[i - 1].frame.payload))]
  {
    hide Fulfilled, Incurs, State.Complete;
    assert r.Warranted(i);
    assert r.acts[..i] != [] && r.acts[..i][i - 1] == r.acts[i - 1] && r.states[..i + 1][i - 1] == r.states[i - 1];
    GenerationPinning(r, i - 1);
    FulfilledIsPending(r.states[i - 1].k, r.acts[i - 1]);
    IncurredIsDue(r, i - 1);
    request := Fulfilled(r.states[i - 1].k, r.acts[i - 1]).value;
  }

  /** An answer with an error leaves the journal as it is: nothing is booked until another answer comes. */
  lemma {:induction false} FailureBooksNothing(r: Run, i: nat, j: nat)
    requires r.Accepted() && i < j < |r.acts| && r.acts[i].Answer?
    requires r.acts[i].frame.envelope.Response? ==> r.acts[i].frame.envelope.hasError
    requires forall x: nat :: i < x < j ==> !r.acts[x].Answer?
    ensures !Books(r.acts[j])
  {
    if Books(r.acts[j]) {
      var request := BookingFollowsSuccess(r, j);
    }
  }

  /** Each success is booked at most once. */
  lemma {:induction false} BookedOnce(r: Run, i: nat)
    requires r.Accepted() && i + 1 < |r.acts| && Books(r.acts[i])
    ensures !Books(r.acts[i + 1])
  {
    if Books(r.acts[i + 1]) {
      var request := BookingFollowsSuccess(r, i + 1);
    }
  }

  lemma {:induction false} EntriesStep(book: Book, a: Act, e: Entry)
    requires e in book.After(a).entries
    ensures e in book.entries || a == Record(e, true)
  {
    if a.Record? {
      DropKeeps(book.entries, a.entry.key);
    }
  }

  /** So whatever a successor is sent to replay is a request that some worker has completed without error. */
  lemma {:induction false} EntriesAreSuccesses(r: Run, j: nat, e: Entry) returns (x: nat)
    requires r.Accepted() && j <= |r.acts| && e in r.states[j].book.entries
    ensures x + 1 < j && r.acts[x + 1] == Record(e, true) && Succeeds(r, x, e.frame)
    decreases j
  {
    hide Succeeds, Book.After;
    assert j > 0 && r.Step(j - 1);
    EntriesStep(r.states[j - 1].book, r.acts[j - 1], e);
    if e in r.states[j - 1].book.entries {
      x := EntriesAreSuccesses(r, j - 1, e);
    } else {
      var request := BookingFollowsSuccess(r, j - 1);
      x := j - 2;
    }
  }
}
