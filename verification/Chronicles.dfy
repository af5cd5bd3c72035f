/** What an operational ledger has accepted, as a history, and the laws that all histories obey. */
module Chronicles {
  import opened Wire

  datatype Fault = Fault(generation: u64, detail: Name)

  /** A record that the ledger accepted. */
  datatype Event =
    | Requested(name: Name)
    | Succeeded(name: Name, latency: u64)
    | Erred(name: Name, latency: u64, detail: Name)
    | ResponseErred(name: Name, latency: u64, detail: Name)
    | RecoveryErred(name: Name, detail: Name)
    | Faulted(attributed: Option<Name>, fault: Fault)
    | Replayed(name: Name)
    | Replaced(generation: u64)

  datatype Kind = Requests | Successes | Errors | ResponseErrors | RecoveryErrors | RecoveryFaults | Retries

  // ---------------------------------------------------------------- histories

  predicate Is(e: Event, k: Kind) {
    match k
    case Requests => e.Requested?
    case Successes => e.Succeeded?
    case Errors => e.Erred? || e.ResponseErred? || e.RecoveryErred?
    case ResponseErrors => e.ResponseErred?
    case RecoveryErrors => e.RecoveryErred?
    case RecoveryFaults => e.Faulted?
    case Retries => e.Replayed?
  }

  function Named(e: Event): Option<Name> {
    match e
    case Faulted(attributed, _) => attributed
    case Replaced(_) => None
    case _ => Some(e.name)
  }

  function Count(h: seq<Event>, k: Kind, m: Name): nat {
    if h == [] then 0
    else Count(h[..|h| - 1], k, m) + if Is(h[|h| - 1], k) && Named(h[|h| - 1]) == Some(m) then 1 else 0
  }

  function Total(h: seq<Event>, k: Kind): nat {
    if h == [] then 0 else Total(h[..|h| - 1], k) + if Is(h[|h| - 1], k) then 1 else 0
  }

  predicate IsSample(e: Event, m: Name) {
    (e.Succeeded? || e.Erred? || e.ResponseErred?) && e.name == m
  }

  /** The latencies reported for a method, in order. */
  function Latencies(h: seq<Event>, m: Name): seq<u64> {
    if h == [] then []
    else Latencies(h[..|h| - 1], m) + if IsSample(h[|h| - 1], m) then [h[|h| - 1].latency] else []
  }

  function Sum(samples: seq<u64>): nat {
    if samples == [] then 0 else Sum(samples[..|samples| - 1]) + samples[|samples| - 1]
  }

  function Greatest(samples: seq<u64>): u64 {
    if samples == [] then 0
    else
      var rest := Greatest(samples[..|samples| - 1]);
      if rest < samples[|samples| - 1] then samples[|samples| - 1] else rest
  }

  function Latest(samples: seq<u64>): Option<u64> {
    if samples == [] then None else Some(samples[|samples| - 1])
  }

  function ErrorDetail(e: Event): Option<Name> {
    match e
    case Erred(_, _, detail) => Some(detail)
    case ResponseErred(_, _, detail) => Some(detail)
    case RecoveryErred(_, detail) => Some(detail)
    case Faulted(_, fault) => Some(fault.detail)
    case _ => None
  }

  function LastError(h: seq<Event>, m: Name): Option<Name> {
    if h == [] then None
    else if Named(h[|h| - 1]) == Some(m) && ErrorDetail(h[|h| - 1]).Some? then ErrorDetail(h[|h| - 1])
    else LastError(h[..|h| - 1], m)
  }

  /** The faults since the last success. */
  function Streak(h: seq<Event>): nat {
    if h == [] || h[|h| - 1].Succeeded? then 0
    else Streak(h[..|h| - 1]) + if h[|h| - 1].Faulted? then 1 else 0
  }

  function Restarts(h: seq<Event>): nat {
    if h == [] then 0 else Restarts(h[..|h| - 1]) + if h[|h| - 1].Replaced? then 1 else 0
  }

  function Serving(first: u64, h: seq<Event>): u64 {
    if h == [] then first
    else if h[|h| - 1].Replaced? then h[|h| - 1].generation
    else Serving(first, h[..|h| - 1])
  }

  function LastFault(h: seq<Event>): Option<Fault> {
    if h == [] then None
    else if h[|h| - 1].Faulted? then Some(h[|h| - 1].fault)
    else LastFault(h[..|h| - 1])
  }

  function Unattributed(h: seq<Event>): nat {
    if h == [] then 0
    else Unattributed(h[..|h| - 1]) + if h[|h| - 1].Faulted? && h[|h| - 1].attributed.None? then 1 else 0
  }

  predicate InFlight(h: seq<Event>, m: Name) {
    Count(h, Requests, m) > Count(h, Successes, m) + Count(h, Errors, m)
  }

  /** What a ledger accepts next: replacements advance, faults are charged to the serving worker, and
      everything else about a method but a request is about one of its invocations in flight. */
  predicate Admissible(first: u64, h: seq<Event>, e: Event) {
    match e
    case Requested(_) => true
    case Replaced(generation) => generation > Serving(first, h)
    case Faulted(attributed, fault) => fault.generation == Serving(first, h) &&
        (attributed.Some? ==> InFlight(h, attributed.value))
    case _ => InFlight(h, e.name)
  }

  predicate Chronicle(first: u64, h: seq<Event>) {
    h != [] ==> Chronicle(first, h[..|h| - 1]) && Admissible(first, h[..|h| - 1], h[|h| - 1])
  }

  // ---------------------------------------------------------------- one record more

  lemma {:induction false} CountStep(h: seq<Event>, e: Event, k: Kind, m: Name)
    ensures Count(h + [e], k, m) == Count(h, k, m) + if Is(e, k) && Named(e) == Some(m) then 1 else 0
  {
    assert (h + [e])[..|h|] == h;
  }

  lemma {:induction false} TotalStep(h: seq<Event>, e: Event, k: Kind)
    ensures Total(h + [e], k) == Total(h, k) + if Is(e, k) then 1 else 0
  {
    assert (h + [e])[..|h|] == h;
  }

  lemma {:induction false} SessionStep(first: u64, h: seq<Event>, e: Event)
    ensures Streak(h + [e]) == if e.Succeeded? then 0 else Streak(h) + if e.Faulted? then 1 else 0
    ensures Restarts(h + [e]) == Restarts(h) + if e.Replaced? then 1 else 0
    ensures Serving(first, h + [e]) == if e.Replaced? then e.generation else Serving(first, h)
    ensures LastFault(h + [e]) == if e.Faulted? then Some(e.fault) else LastFault(h)
    ensures Unattributed(h + [e]) == Unattributed(h) + if e.Faulted? && e.attributed.None? then 1 else 0
    ensures Chronicle(first, h + [e]) == (Chronicle(first, h) && Admissible(first, h, e))
  {
    assert (h + [e])[..|h|] == h;
  }

  lemma {:induction false} LatencyStep(h: seq<Event>, e: Event, m: Name)
    ensures Latencies(h + [e], m) == if IsSample(e, m) then Latencies(h, m) + [e.latency] else Latencies(h, m)
    ensures LastError(h + [e], m) == if Named(e) == Some(m) && ErrorDetail(e).Some? then
        ErrorDetail(e) else LastError(h, m)
  {
    assert (h + [e])[..|h|] == h;
  }

  lemma {:induction false} SampleStep(samples: seq<u64>, latency: u64)
    ensures Sum(samples + [latency]) == Sum(samples) + latency
    ensures Greatest(samples + [latency]) == if Greatest(samples) < latency then latency else Greatest(samples)
    ensures Latest(samples + [latency]) == Some(latency)
  {
    assert (samples + [latency])[..|samples|] == samples;
  }

  // ---------------------------------------------------------------- laws of one method

  /** Every terminal outcome but a recovery error reports a latency. */
  lemma {:induction false} SamplesAreTerminal(h: seq<Event>, m: Name)
    ensures |Latencies(h, m)| + Count(h, RecoveryErrors, m) == Count(h, Successes, m) + Count(h, Errors, m)
    ensures Count(h, ResponseErrors, m) + Count(h, RecoveryErrors, m) <= Count(h, Errors, m)
  {
    if h != [] {
      SamplesAreTerminal(h[..|h| - 1], m);
    }
  }

  lemma {:induction false} Scaled(n: nat, a: nat, b: nat)
    requires a <= b
    ensures n * a <= n * b && (n + 1) * b == n * b + b
  {
  }

  lemma {:induction false} SumIsBounded(samples: seq<u64>)
    ensures Sum(samples) <= |samples| * Greatest(samples)
  {
    if samples != [] {
      var front := samples[..|samples| - 1];
      SumIsBounded(front);
      Scaled(|front|, Greatest(front), Greatest(samples));
    }
  }

  lemma {:induction false} GreatestIsMaximal(samples: seq<u64>)
    ensures forall x :: x in samples ==> x <= Greatest(samples)
    ensures samples != [] ==> Greatest(samples) in samples
  {
    if samples != [] {
      var front, last := samples[..|samples| - 1], samples[|samples| - 1];
      GreatestIsMaximal(front);
      forall x | x in samples ensures x <= Greatest(samples) {
        var i :| 0 <= i < |samples| && samples[i] == x;
        assert i < |front| ==> front[i] == x && x in front;
      }
      if front != [] {
        var i :| 0 <= i < |front| && front[i] == Greatest(front);
        assert samples[i] == Greatest(front);
      }
    }
  }

  /** No method has more outcomes than requests. */
  lemma {:induction false} OutcomesFollowRequests(first: u64, h: seq<Event>, m: Name)
    requires Chronicle(first, h)
    ensures Count(h, Successes, m) + Count(h, Errors, m) <= Count(h, Requests, m)
  {
    if h != [] {
      OutcomesFollowRequests(first, h[..|h| - 1], m);
    }
  }

  /** Generations strictly increase, and each fault is charged to the worker that was serving. */
  lemma {:induction false} GenerationsAdvance(first: u64, h: seq<Event>, i: nat, j: nat)
    requires Chronicle(first, h) && i <= j <= |h|
    ensures Chronicle(first, h[..i])
    ensures Serving(first, h[..i]) <= Serving(first, h[..j])
    ensures i < j && h[j - 1].Replaced? ==> Serving(first, h[..i]) < h[j - 1].generation
    ensures i < j && h[j - 1].Faulted? ==> h[j - 1].fault.generation == Serving(first, h[..j])
    decreases |h|
  {
    if i < |h| {
      var front := h[..|h| - 1];
      if j < |h| {
        GenerationsAdvance(first, front, i, j);
        assert front[..i] == h[..i] && front[..j] == h[..j];
      } else {
        GenerationsAdvance(first, front, i, |front|);
        assert front[..i] == h[..i] && front[..|front|] == front && h[..j] == h;
      }
    } else {
      assert h[..i] == h;
    }
  }

  // ---------------------------------------------------------------- laws of the session

  predicate Distinct(names: seq<Name>) {
    forall i, j :: 0 <= i < j < |names| ==> names[i] != names[j]
  }

  function SumOver(names: seq<Name>, h: seq<Event>, k: Kind): nat {
    if names == [] then 0 else Count(h, k, names[0]) + SumOver(names[1..], h, k)
  }

  /** Every method that a history names is listed. */
  predicate Lists(names: seq<Name>, h: seq<Event>) {
    forall e :: e in h && Named(e).Some? ==> Named(e).value in names
  }

  lemma {:induction false} SumOverNone(names: seq<Name>, k: Kind)
    ensures SumOver(names, [], k) == 0
  {
    if names != [] {
      SumOverNone(names[1..], k);
    }
  }

  lemma {:induction false} SumOverStep(names: seq<Name>, h: seq<Event>, e: Event, k: Kind)
    requires Distinct(names)
    ensures SumOver(names, h + [e], k) == SumOver(names, h, k)
         + if Is(e, k) && Named(e).Some? && Named(e).value in names then 1 else 0
  {
    if names != [] {
      SumOverStep(names[1..], h, e, k);
      CountStep(h, e, k, names[0]);
      assert forall x :: x in names <==> x == names[0] || x in names[1..];
    }
  }

  /** Session totals are the sums over the methods; only faults can be charged to no method. */
  lemma {:induction false} TotalsAreSums(names: seq<Name>, h: seq<Event>, k: Kind)
    requires Distinct(names) && Lists(names, h)
    ensures Total(h, k) == SumOver(names, h, k) + if k == RecoveryFaults then Unattributed(h) else 0
  {
    if h == [] {
      SumOverNone(names, k);
    } else {
      var front, e := h[..|h| - 1], h[|h| - 1];
      assert h == front + [e] && e in h && forall x :: x in front ==> x in h;
      TotalsAreSums(names, front, k);
      SumOverStep(names, front, e, k);
    }
  }

  lemma {:induction false} OutcomesOver(first: u64, names: seq<Name>, h: seq<Event>)
    requires Chronicle(first, h)
    ensures SumOver(names, h, Successes) + SumOver(names, h, Errors) <= SumOver(names, h, Requests)
    ensures (exists m :: m in names && InFlight(h, m))
        ==> SumOver(names, h, Successes) + SumOver(names, h, Errors) < SumOver(names, h, Requests)
  {
    if names != [] {
      OutcomesFollowRequests(first, h, names[0]);
      OutcomesOver(first, names[1..], h);
      assert forall m :: m in names <==> m == names[0] || m in names[1..];
    }
  }

  lemma {:induction false} Listing(h: seq<Event>) returns (names: seq<Name>)
    ensures Distinct(names) && Lists(names, h)
  {
    names := [];
    if h != [] {
      names := Listing(h[..|h| - 1]);
      var n := Named(h[|h| - 1]);
      if n.Some? && n.value !in names {
        names := names + [n.value];
      }
      assert h == h[..|h| - 1] + [h[|h| - 1]];
    }
  }

  lemma {:induction false} UnnamedIsUncounted(h: seq<Event>, k: Kind, m: Name)
    requires forall e :: e in h ==> Named(e) != Some(m)
    ensures Count(h, k, m) == 0
  {
    if h != [] {
      assert h[|h| - 1] in h && forall e :: e in h[..|h| - 1] ==> e in h;
      UnnamedIsUncounted(h[..|h| - 1], k, m);
    }
  }

  lemma {:induction false} CountsAreWithinTotals(h: seq<Event>, k: Kind, m: Name)
    ensures Count(h, k, m) <= Total(h, k)
  {
    if h != [] {
      CountsAreWithinTotals(h[..|h| - 1], k, m);
    }
  }

  /** While something is in flight, the session has fewer outcomes than requests. */
  lemma {:induction false} InFlightLeavesRoom(first: u64, h: seq<Event>, m: Name)
    requires Chronicle(first, h) && InFlight(h, m)
    ensures Total(h, Successes) + Total(h, Errors) < Total(h, Requests)
  {
    var names := Listing(h);
    if m !in names {
      UnnamedIsUncounted(h, Requests, m);
    }
    OutcomesOver(first, names, h);
    TotalsAreSums(names, h, Successes);
    TotalsAreSums(names, h, Errors);
    TotalsAreSums(names, h, Requests);
  }

  lemma {:induction false} SpecialErrorsAreErrors(h: seq<Event>)
    ensures Total(h, ResponseErrors) + Total(h, RecoveryErrors) <= Total(h, Errors)
  {
    if h != [] {
      SpecialErrorsAreErrors(h[..|h| - 1]);
    }
  }
}
