/** What recovery decides after a worker loss, stated without the loop: who survives, how long the
    queue may become, and that deciding twice changes nothing. */
module Requeue {
  import opened Wire
  import opened Replay
  import opened Kernel
  import opened KernelInvariant

  /** An invocation that a loss does not end, room permitting: one that may be repeated as long as
      attempts are left, or one whose outcome the client can find out. */
  predicate Repeatable(r: PendingRequest, max: u8) {
    r.contract.ProbeRequired? || (r.contract.Convergent? && r.attempts < max)
  }

  /** Such invocations with a smaller sequence number. */
  function OlderRepeatables(k: State, id: RequestId, max: u8): set<RequestId>
    requires id in k.pending
  {
    set x | x in k.pending && Repeatable(k.pending[x], max) && k.pending[x].sequence < k.pending[id].sequence
  }

  lemma {:induction false} RecoverableIsRepeatable(r: PendingRequest, max: u8)
    requires ValidSchedule(r)
    ensures Recoverable(r, max) <==> Repeatable(r, max)
    ensures Recoverable(r, max) ==> Scheduled(r, max) == r.(knowledge := OutcomeUnknown,
        scheduled := Some(if r.contract.ProbeRequired? then HoldForProbe else RequestDisposition.Replay))
  {
  }

  /** In an ascending list, the entries before a position are exactly the older ones. */
  lemma {:induction false} RankIsIndex(ids: seq<RequestId>, pending: PendingMap, i: nat)
    requires Ascending(ids, pending) && i < |ids|
    ensures |set x | x in ids && pending[x].sequence < pending[ids[i]].sequence| == i
  {
    var a, b := ids[..i], ids[i..];
    assert ids == a + b && b[0] == ids[i] && ids[i] in b;
    assert forall x :: x in ids <==> x in a || x in b;
    assert AllIn(a, pending) && AllIn(b, pending);
    AscendingAppends(a, b, pending);
    assert forall x :: x in b ==> x == b[0] || x in b[1..];
    assert (set x | x in ids && pending[x].sequence < pending[ids[i]].sequence) == set x | x in a by {
      forall x | x in a ensures pending[x].sequence < pending[ids[i]].sequence {
        assert Older(x, b, pending);
      }
    }
    DistinctIds(a, pending);
  }

  lemma {:induction false} KeptByIndex(all: seq<RequestId>, pending: PendingMap, room: nat, i: nat)
    requires Ascending(all, pending) && i < |all| && room < |all|
    ensures all[i] in all[..room] <==> i < room
  {
    assert all == all[..room] + all[room..];
    assert i >= room ==> all[room..][i - room] == all[i];
    assert i < room ==> all[..room][i] == all[i];
    assert forall x :: x in all[..room] || x in all[room..] ==> x in all;
    AscendingAppends(all[..room], all[room..], pending);
    forall x | x in all[..room] ensures i >= room ==> x != all[i] {
      assert Older(x, all[room..], pending);
    }
  }

  lemma {:induction false} AllRepeatable(k: State, max: u8)
    requires Identified(k)
    ensures forall id :: id in k.pending ==> (Recoverable(k.pending[id], max) <==> Repeatable(k.pending[id], max))
  {
    forall id | id in k.pending ensures Recoverable(k.pending[id], max) <==> Repeatable(k.pending[id], max) {
      assert Sane(id, k.pending[id], k.next);
      RecoverableIsRepeatable(k.pending[id], max);
    }
  }

  /** What becomes of a survivor: it waits to be repeated, or for the client's word, and is otherwise as it was. */
  lemma {:induction false} SurvivorsWait(k: State, budget: ReplayBudget, id: RequestId)
    requires Inv(k) && id in k.Requeue(budget).0.pending
    ensures id in k.pending
    ensures k.Requeue(budget).0.pending[id] == k.pending[id].(knowledge := OutcomeUnknown,
        scheduled := Some(if k.pending[id].contract.ProbeRequired? then HoldForProbe else RequestDisposition.Replay))
  {
    var kept := RequeueParts(k, budget);
    assert Sane(id, k.pending[id], k.next);
    RecoverableIsRepeatable(k.pending[id], budget.maxAttempts);
  }

  /** Exactly the oldest repeatable invocations that fit beside the client backlog survive. */
  lemma {:induction false} SurvivalByRank(k: State, budget: ReplayBudget, id: RequestId)
    requires Inv(k) && id in k.pending
    ensures id in k.Requeue(budget).0.pending <==>
      (Repeatable(k.pending[id], budget.maxAttempts) &&
       |OlderRepeatables(k, id, budget.maxAttempts)| < Room(budget.queueCapacity, |Without(k.queue, k.pending.Keys)|))
  {
    hide Recoverables, Ordered, Split, Sane, Identified, Recoverable, Repeatable;
    AllRepeatable(k, budget.maxAttempts);
    var max := budget.maxAttempts;
    var kept := RequeueParts(k, budget);
    var all := Recoverables(Ordered(k.pending), k.pending, max);
    RecoverablesAscend(Ordered(k.pending), k.pending, max);
    if Recoverable(k.pending[id], max) {
      assert id in all;
      var i :| 0 <= i < |all| && all[i] == id;
      RankIsIndex(all, k.pending, i);
      assert OlderRepeatables(k, id, max) == set x | x in all && k.pending[x].sequence < k.pending[all[i]].sequence;
      var room := Room(budget.queueCapacity, |Without(k.queue, k.pending.Keys)|);
      if room < |all| {
        KeptByIndex(all, k.pending, room, i);
      }
    }
  }

  /** The rejected invocations are the others, each with the reason that contract, budget or room gives. */
  lemma {:induction false} RejectionsAreTheRest(ids: seq<RequestId>, pending: PendingMap, max: u8, kept: seq<RequestId>)
    requires AllIn(ids, pending)
    ensures forall r :: r in Rejections(ids, pending, max, kept) ==>
      r.id in ids && r.id !in kept && r == Rejection(r.id, pending[r.id], max)
    ensures forall id :: id in ids && id !in kept ==>
        Rejection(id, pending[id], max) in Rejections(ids, pending, max, kept)
  {
    if ids != [] {
      assert AllIn(ids[1..], pending);
      RejectionsAreTheRest(ids[1..], pending, max, kept);
      assert forall x :: x in ids <==> x == ids[0] || x in ids[1..];
    }
  }

  lemma {:induction false} ReasonIsJustified(r: PendingRequest, max: u8)
    requires ValidSchedule(r)
    ensures Reason(r, max) == AmbiguousOutcome <==> r.contract.NeverReplay?
    ensures Reason(r, max) == ReplayBudgetExhausted <==> r.contract.Convergent? && r.attempts >= max
    ensures Reason(r, max) == QueueOverflow <==> Recoverable(r, max)
  {
  }

  lemma {:induction false} RejectionIsJustified(k: State, budget: ReplayBudget, r: RejectedReplay)
    requires Inv(k) && r in k.Requeue(budget).1.rejected
    ensures r.id in k.pending && r.id !in k.Requeue(budget).0.pending
    ensures r.reason == AmbiguousOutcome <==> k.pending[r.id].contract.NeverReplay?
    ensures r.reason == ReplayBudgetExhausted <==>
        k.pending[r.id].contract.Convergent? && k.pending[r.id].attempts >= budget.maxAttempts
    ensures r.reason == QueueOverflow <==> Repeatable(k.pending[r.id], budget.maxAttempts)
    ensures r.request == k.pending[r.id].(knowledge := OutcomeUnknown, scheduled := None)
    ensures r.nextAttempt ==
        if r.request.attempts < budget.maxAttempts then Some(r.request.attempts + 1) else None
  {
    hide Ordered, State.Requeue, Split, Recoverable;
    var kept := RequeueParts(k, budget);
    RejectionsAreTheRest(Ordered(k.pending), k.pending, budget.maxAttempts, kept);
    assert Sane(r.id, k.pending[r.id], k.next);
    ReasonIsJustified(k.pending[r.id], budget.maxAttempts);
    RecoverableIsRepeatable(k.pending[r.id], budget.maxAttempts);
  }

  predicate InOrderOfAge(rejected: seq<RejectedReplay>) {
    forall i, j :: 0 <= i < j < |rejected| ==> rejected[i].request.sequence < rejected[j].request.sequence
  }

  lemma {:induction false} RejectionsAscend(ids: seq<RequestId>, pending: PendingMap, max: u8, kept: seq<RequestId>)
    requires Ascending(ids, pending)
    ensures InOrderOfAge(Rejections(ids, pending, max, kept))
  {
    if ids != [] {
      RejectionsAscend(ids[1..], pending, max, kept);
      RejectionsAreTheRest(ids[1..], pending, max, kept);
      var rest := Rejections(ids[1..], pending, max, kept);
      forall i | 0 <= i < |rest| ensures rest[i].request.sequence > pending[ids[0]].sequence {
        assert rest[i] in rest && rest[i].id in ids[1..];
      }
    }
  }

  lemma {:induction false} HeldAre(ids: seq<RequestId>, pending: PendingMap, max: u8)
    requires AllIn(ids, pending)
    ensures forall id :: id in Held(ids, pending, max) <==> id in ids && Verdict(pending[id], max).HoldForProbe?
  {
    if ids != [] {
      assert AllIn(ids[1..], pending);
      HeldAre(ids[1..], pending, max);
    }
  }

  /** What a loss reports: each invocation that it ends, oldest first, and as held exactly those that now
      wait for the client's word. */
  lemma {:induction false} LossIsReported(k: State, budget: ReplayBudget)
    requires Inv(k)
    ensures InOrderOfAge(k.Requeue(budget).1.rejected)
    ensures forall id :: id in k.Requeue(budget).1.held <==>
        id in k.Requeue(budget).0.pending && k.pending[id].contract.ProbeRequired?
    ensures forall id :: id in k.pending && id !in k.Requeue(budget).0.pending <==>
        exists r :: r in k.Requeue(budget).1.rejected && r.id == id
  {
    hide Split, Ordered, State.Requeue, Sane;
    var kept := RequeueParts(k, budget);
    RejectionsAscend(Ordered(k.pending), k.pending, budget.maxAttempts, kept);
    HeldAre(kept, k.pending, budget.maxAttempts);
    RejectionsAreTheRest(Ordered(k.pending), k.pending, budget.maxAttempts, kept);
    assert forall id :: id in k.pending && id !in kept ==>
        Rejection(id, k.pending[id], budget.maxAttempts).id == id;
    forall id | id in kept
      ensures Verdict(k.pending[id], budget.maxAttempts).HoldForProbe? <==> k.pending[id].contract.ProbeRequired?
    {
      HeldIsProbed(k, id, budget.maxAttempts);
    }
  }

  lemma {:induction false} HeldIsProbed(k: State, id: RequestId, max: u8)
    requires Identified(k) && id in k.pending
    ensures Verdict(k.pending[id], max).HoldForProbe? <==> k.pending[id].contract.ProbeRequired?
  {
    assert Sane(id, k.pending[id], k.next);
  }

  /** No client frame is lost or reordered, and replays never push the queue past its capacity. */
  lemma {:induction false} QueueAfterLoss(k: State, budget: ReplayBudget)
    requires Inv(k)
    ensures var backlog := Without(k.queue, k.pending.Keys);
      var queue := k.Requeue(budget).0.queue;
      && |queue| == |k.Requeue(budget).0.pending| + |backlog|
      && queue[|queue| - |backlog|..] == backlog
      && |queue| <= (if budget.queueCapacity > |backlog| then budget.queueCapacity else |backlog|)
  {
    var kept := RequeueParts(k, budget);
    DistinctIds(kept, k.pending);
    assert k.Requeue(budget).0.pending.Keys == set id | id in kept;
  }

  lemma {:induction false} AllRecoverable(ids: seq<RequestId>, pending: PendingMap, max: u8)
    requires AllIn(ids, pending) && forall id :: id in ids ==> Recoverable(pending[id], max)
    ensures Recoverables(ids, pending, max) == ids
    ensures forall kept: seq<RequestId> :: (forall id :: id in ids ==> id in kept) ==>
        Rejections(ids, pending, max, kept) == []
  {
    if ids != [] {
      assert AllIn(ids[1..], pending);
      AllRecoverable(ids[1..], pending, max);
      assert forall x :: x in ids <==> x == ids[0] || x in ids[1..];
    }
  }

  lemma {:induction false} SchedulingTwice(r: PendingRequest, max: u8)
    requires Recoverable(r, max)
    ensures Recoverable(Scheduled(r, max), max) && Scheduled(Scheduled(r, max), max) == Scheduled(r, max)
  {
  }

  /** Recovery of a kernel in which everything pending is already scheduled, in lane order. */
  lemma {:induction false} RequeueOfScheduled(k: State, budget: ReplayBudget, lane: seq<RequestId>, backlog: seq<Frame>)
    requires Inv(k) && Split(k, lane, backlog)
    requires forall id :: id in k.pending ==> id in lane
    requires forall id :: id in lane ==>
        Recoverable(k.pending[id], budget.maxAttempts) && Scheduled(k.pending[id], budget.maxAttempts) == k.pending[id]
    requires |lane| <= Room(budget.queueCapacity, |backlog|)
    ensures k.Requeue(budget).0 == k && k.Requeue(budget).1.rejected == []
  {
    BacklogIsTail(k, lane, backlog);
    InOrderIsUnique(Ordered(k.pending), lane, k.pending);
    AllRecoverable(lane, k.pending, budget.maxAttempts);
    assert k.Requeue(budget).0.pending == k.pending;
  }

  /** A second loss report with the same budget, before anything was dispatched, changes nothing. */
  lemma {:induction false} RequeueIsIdempotent(k: State, budget: ReplayBudget)
    requires Inv(k)
    ensures Inv(k.Requeue(budget).0)
    ensures k.Requeue(budget).0.Requeue(budget).0 == k.Requeue(budget).0
    ensures k.Requeue(budget).0.Requeue(budget).1.rejected == []
  {
    hide Ordered, State.Requeue, Identified, SessionAgrees;
    RequeueKeeps(k, budget);
    var ids, backlog :| Split(k, ids, backlog);
    var kept := RequeueSplit(k, budget, ids, backlog);
    var k' := k.Requeue(budget).0;
    forall id | id in kept
      ensures Recoverable(k'.pending[id], budget.maxAttempts)
      ensures Scheduled(k'.pending[id], budget.maxAttempts) == k'.pending[id]
    {
      SchedulingTwice(k.pending[id], budget.maxAttempts);
    }
    RequeueOfScheduled(k', budget, kept, backlog);
  }
}
