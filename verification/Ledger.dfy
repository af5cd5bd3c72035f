/** The operational ledger: the counters of a public session, kept over all of its workers. */
module Ledger {
  import opened Wire
  import opened Chronicles

  type u32 = n: nat | n < 0x1_0000_0000

  datatype MethodLedger = MethodLedger(
    requestCount: u64, inFlight: u64, successCount: u64, errorCount: u64, responseErrorCount: u64,
    recoveryErrorCount: u64, recoveryFaultCount: u64, retryCount: u64, sampleCount: u64,
    totalLatency: u64, lastLatency: Option<u64>, maxLatency: u64, lastError: Option<Name>)

  datatype Totals = Totals(
    requestCount: u64, successCount: u64, errorCount: u64, responseErrorCount: u64,
    recoveryErrorCount: u64, recoveryFaultCount: u64, retryCount: u64)

  datatype MetricError = CounterExhausted | NoInFlightInvocation | GenerationDidNotAdvance | FaultGenerationMismatch

  datatype Outcome = Recorded | Refused(error: MetricError)

  const UNUSED: MethodLedger := MethodLedger(0, 0, 0, 0, 0, 0, 0, 0, 0, 0, None, 0, None)

  function CheckedAdd(value: u64, more: u64): (r: Option<u64>)
    ensures r.None? <==> value + more >= 0x1_0000_0000_0000_0000
    ensures r.Some? ==> r.value == value + more
  {
    if value + more < 0x1_0000_0000_0000_0000 then Some(value + more) else None
  }

  function CheckedIncrement(value: u64): (r: Option<u64>)
    ensures r.None? <==> value == 0xFFFF_FFFF_FFFF_FFFF
    ensures r.Some? ==> r.value == value + 1
  {
    CheckedAdd(value, 1)
  }

  function Entry(methods: map<Name, MethodLedger>, m: Name): MethodLedger {
    if m in methods then methods[m] else UNUSED
  }

  // ---------------------------------------------------------------- counters against a history

  ghost predicate Tallies(l: MethodLedger, h: seq<Event>, m: Name) {
    && l.requestCount == Count(h, Requests, m)
    && l.successCount == Count(h, Successes, m)
    && l.errorCount == Count(h, Errors, m)
    && l.responseErrorCount == Count(h, ResponseErrors, m)
    && l.recoveryErrorCount == Count(h, RecoveryErrors, m)
    && l.recoveryFaultCount == Count(h, RecoveryFaults, m)
    && l.retryCount == Count(h, Retries, m)
    && l.requestCount == l.successCount + l.errorCount + l.inFlight
    && l.sampleCount == |Latencies(h, m)| && l.totalLatency == Sum(Latencies(h, m))
    && l.lastLatency == Latest(Latencies(h, m)) && l.maxLatency == Greatest(Latencies(h, m))
    && l.lastError == LastError(h, m)
  }

  ghost predicate MethodsTally(methods: map<Name, MethodLedger>, h: seq<Event>) {
    forall m :: Tallies(Entry(methods, m), h, m)
  }

  ghost predicate TotalsTally(t: Totals, h: seq<Event>) {
    && t.requestCount == Total(h, Requests)
    && t.successCount == Total(h, Successes)
    && t.errorCount == Total(h, Errors)
    && t.responseErrorCount == Total(h, ResponseErrors)
    && t.recoveryErrorCount == Total(h, RecoveryErrors)
    && t.recoveryFaultCount == Total(h, RecoveryFaults)
    && t.retryCount == Total(h, Retries)
  }

  lemma {:induction false} CountsStep(h: seq<Event>, e: Event, m: Name)
    ensures forall k :: Count(h + [e], k, m) == Count(h, k, m) + if Is(e, k) && Named(e) == Some(m) then 1 else 0
  {
    forall k ensures Count(h + [e], k, m) == Count(h, k, m) + if Is(e, k) && Named(e) == Some(m) then 1 else 0 {
      CountStep(h, e, k, m);
    }
  }

  lemma {:induction false} OtherStep(l: MethodLedger, h: seq<Event>, e: Event, m: Name)
    requires Tallies(l, h, m) && Named(e) != Some(m)
    ensures Tallies(l, h + [e], m)
  {
    CountsStep(h, e, m);
    LatencyStep(h, e, m);
  }

  lemma {:induction false} MethodStep(methods: map<Name, MethodLedger>, h: seq<Event>, e: Event, m: Name,
      l: MethodLedger)
    requires MethodsTally(methods, h) && Named(e) == Some(m) && Tallies(l, h + [e], m)
    ensures MethodsTally(methods[m := l], h + [e])
  {
    var after, more := methods[m := l], h + [e];
    forall n ensures Tallies(Entry(after, n), more, n) {
      if n != m {
        assert Tallies(Entry(methods, n), h, n);
        OtherStep(Entry(methods, n), h, e, n);
      }
    }
  }

  lemma {:induction false} NoMethodStep(methods: map<Name, MethodLedger>, h: seq<Event>, e: Event)
    requires MethodsTally(methods, h) && Named(e).None?
    ensures MethodsTally(methods, h + [e])
  {
    var more := h + [e];
    forall n ensures Tallies(Entry(methods, n), more, n) {
      assert Tallies(Entry(methods, n), h, n);
      OtherStep(Entry(methods, n), h, e, n);
    }
  }

  predicate Counted(l: MethodLedger, e: Event, next: MethodLedger) {
    && next.requestCount == l.requestCount + (if Is(e, Requests) then 1 else 0)
    && next.successCount == l.successCount + (if Is(e, Successes) then 1 else 0)
    && next.errorCount == l.errorCount + (if Is(e, Errors) then 1 else 0)
    && next.responseErrorCount == l.responseErrorCount + (if Is(e, ResponseErrors) then 1 else 0)
    && next.recoveryErrorCount == l.recoveryErrorCount + (if Is(e, RecoveryErrors) then 1 else 0)
    && next.recoveryFaultCount == l.recoveryFaultCount + (if Is(e, RecoveryFaults) then 1 else 0)
    && next.retryCount == l.retryCount + (if Is(e, Retries) then 1 else 0)
    && next.requestCount == next.successCount + next.errorCount + next.inFlight
    && next.lastError == (if ErrorDetail(e).Some? then ErrorDetail(e) else l.lastError)
  }

  predicate Sampled(l: MethodLedger, e: Event, m: Name, next: MethodLedger) {
    if IsSample(e, m) then
      && next.sampleCount == l.sampleCount + 1 && next.totalLatency == l.totalLatency + e.latency
      && next.lastLatency == Some(e.latency)
      && next.maxLatency == (if l.maxLatency < e.latency then e.latency else l.maxLatency)
    else
      && next.sampleCount == l.sampleCount && next.totalLatency == l.totalLatency
      && next.lastLatency == l.lastLatency && next.maxLatency == l.maxLatency
  }

  lemma {:induction false} TallyStep(l: MethodLedger, h: seq<Event>, e: Event, m: Name, next: MethodLedger)
    requires Tallies(l, h, m) && Named(e) == Some(m) && Counted(l, e, next) && Sampled(l, e, m, next)
    ensures Tallies(next, h + [e], m)
  {
    CountsStep(h, e, m);
    LatencyStep(h, e, m);
    if IsSample(e, m) {
      SampleStep(Latencies(h, m), e.latency);
    }
  }

  predicate Totalled(t: Totals, e: Event, next: Totals) {
    && next.requestCount == t.requestCount + (if Is(e, Requests) then 1 else 0)
    && next.successCount == t.successCount + (if Is(e, Successes) then 1 else 0)
    && next.errorCount == t.errorCount + (if Is(e, Errors) then 1 else 0)
    && next.responseErrorCount == t.responseErrorCount + (if Is(e, ResponseErrors) then 1 else 0)
    && next.recoveryErrorCount == t.recoveryErrorCount + (if Is(e, RecoveryErrors) then 1 else 0)
    && next.recoveryFaultCount == t.recoveryFaultCount + (if Is(e, RecoveryFaults) then 1 else 0)
    && next.retryCount == t.retryCount + (if Is(e, Retries) then 1 else 0)
  }

  lemma {:induction false} TotalsStep(t: Totals, h: seq<Event>, e: Event, next: Totals)
    requires TotalsTally(t, h) && Totalled(t, e, next)
    ensures TotalsTally(next, h + [e])
  {
    TotalStep(h, e, Requests);
    TotalStep(h, e, Successes);
    TotalStep(h, e, Errors);
    TotalStep(h, e, ResponseErrors);
    TotalStep(h, e, RecoveryErrors);
    TotalStep(h, e, RecoveryFaults);
    TotalStep(h, e, Retries);
  }

  // ---------------------------------------------------------------- what the tally implies

  /** A method with something in flight cannot exhaust a counter of outcomes, its own or the session's. */
  lemma {:induction false} LiveLeavesRoom(first: u64, l: MethodLedger, t: Totals, h: seq<Event>, m: Name)
    requires Tallies(l, h, m) && TotalsTally(t, h) && Chronicle(first, h) && l.inFlight > 0
    ensures l.sampleCount < l.requestCount && l.successCount < l.requestCount && l.errorCount < l.requestCount
    ensures l.responseErrorCount < l.requestCount && l.recoveryErrorCount < l.requestCount
    ensures t.successCount < t.requestCount && t.errorCount < t.requestCount
    ensures t.responseErrorCount < t.requestCount && t.recoveryErrorCount < t.requestCount
  {
    SamplesAreTerminal(h, m);
    InFlightLeavesRoom(first, h, m);
    SpecialErrorsAreErrors(h);
  }

  /** The laws of one method's counters. */
  lemma {:induction false} MethodConservation(l: MethodLedger, h: seq<Event>, m: Name)
    requires Tallies(l, h, m)
    ensures l.requestCount == l.successCount + l.errorCount + l.inFlight
    ensures l.sampleCount == l.successCount + l.errorCount - l.recoveryErrorCount
    ensures l.responseErrorCount + l.recoveryErrorCount <= l.errorCount
    ensures AverageLatency(l) <= l.maxLatency
    ensures l.maxLatency > 0 ==> l.maxLatency in Latencies(h, m)
  {
    SamplesAreTerminal(h, m);
    SumIsBounded(Latencies(h, m));
    GreatestIsMaximal(Latencies(h, m));
    if l.sampleCount > 0 {
      QuotientIsBounded(l.totalLatency, l.sampleCount, l.maxLatency);
    }
  }

  lemma {:induction false} QuotientIsBounded(total: nat, n: nat, bound: nat)
    requires n > 0 && total <= n * bound
    ensures total / n <= bound
  {
    var q := total / n;
    assert total == n * q + total % n && n * (bound + 1) == n * bound + n;
    if q > bound {
      Scaled(n, bound + 1, q);
    }
  }

  /** The laws of the session's totals, over any list of the methods that were named. */
  lemma {:induction false} SessionConservation(t: Totals, h: seq<Event>, names: seq<Name>)
    requires TotalsTally(t, h) && Distinct(names) && Lists(names, h)
    ensures t.requestCount == SumOver(names, h, Requests)
    ensures t.successCount == SumOver(names, h, Successes)
    ensures t.errorCount == SumOver(names, h, Errors)
    ensures t.responseErrorCount == SumOver(names, h, ResponseErrors)
    ensures t.recoveryErrorCount == SumOver(names, h, RecoveryErrors)
    ensures t.retryCount == SumOver(names, h, Retries)
    ensures t.recoveryFaultCount == SumOver(names, h, RecoveryFaults) + Unattributed(h)
  {
    TotalsAreSums(names, h, Requests);
    TotalsAreSums(names, h, Successes);
    TotalsAreSums(names, h, Errors);
    TotalsAreSums(names, h, ResponseErrors);
    TotalsAreSums(names, h, RecoveryErrors);
    TotalsAreSums(names, h, Retries);
    TotalsAreSums(names, h, RecoveryFaults);
  }

  function AverageLatency(l: MethodLedger): nat {
    if l.sampleCount == 0 then 0 else l.totalLatency / l.sampleCount
  }

  // ---------------------------------------------------------------- updates of one method

  method RecordLatency(l: MethodLedger, latency: u64) returns (next: Option<MethodLedger>)
    ensures next.Some? <==>
        l.sampleCount + 1 < 0x1_0000_0000_0000_0000 && l.totalLatency + latency < 0x1_0000_0000_0000_0000
    ensures next.Some? ==> next.value == l.(sampleCount := l.sampleCount + 1, totalLatency := l.totalLatency + latency,
              lastLatency := Some(latency), maxLatency := if l.maxLatency < latency then latency else l.maxLatency)
  {
    var samples, total := CheckedIncrement(l.sampleCount), CheckedAdd(l.totalLatency, latency);
    if samples.None? || total.None? {
      return None;
    }
    next := Some(l.(sampleCount := samples.value, totalLatency := total.value, lastLatency := Some(latency),
                    maxLatency := if l.maxLatency < latency then latency else l.maxLatency));
  }

  class OperationalLedger {
    var generation: u64
    var consecutiveFailures: u32
    var restartCount: u64
    var totals: Totals
    var methods: map<Name, MethodLedger>
    var lastFault: Option<Fault>
    ghost var history: seq<Event>
    ghost const first: u64

    /** The counters are the tally of an admissible history. */
    ghost predicate Valid()
      reads this
    {
      && Chronicle(first, history) && MethodsTally(methods, history) && TotalsTally(totals, history)
      && generation == Serving(first, history) && consecutiveFailures == Streak(history)
      && restartCount == Restarts(history) && lastFault == LastFault(history)
    }

    predicate Live(m: Name)
      reads this
    {
      m in methods && methods[m].inFlight > 0
    }

    constructor (generation: u64)
      ensures Valid() && history == [] && this.generation == generation && first == generation
    {
      this.generation, consecutiveFailures, restartCount := generation, 0, 0;
      totals := Totals(0, 0, 0, 0, 0, 0, 0);
      methods, lastFault := map[], None;
      history, first := [], generation;
    }

    /** Commits a record about one method. */
    method Commit(m: Name, l: MethodLedger, t: Totals, failures: u32, fault: Option<Fault>, ghost e: Event)
      requires Valid() && Admissible(first, history, e) && Named(e) == Some(m)
      requires Counted(Entry(methods, m), e, l) && Sampled(Entry(methods, m), e, m, l) && Totalled(totals, e, t)
      requires failures == if e.Succeeded? then 0 else consecutiveFailures + if e.Faulted? then 1 else 0
      requires fault == if e.Faulted? then Some(e.fault) else lastFault
      modifies this`methods, this`totals, this`consecutiveFailures, this`lastFault, this`history
      ensures Valid() && history == old(history) + [e]
    {
      assert Tallies(Entry(methods, m), history, m);
      TallyStep(Entry(methods, m), history, e, m, l);
      MethodStep(methods, history, e, m, l);
      TotalsStep(totals, history, e, t);
      SessionStep(first, history, e);
      methods := methods[m := l];
      totals := t;
      consecutiveFailures := failures;
      lastFault := fault;
      history := history + [e];
    }

    lemma {:induction false} LiveIsInFlight(m: Name)
      requires Valid()
      ensures Tallies(Entry(methods, m), history, m)
      ensures Live(m) <==> InFlight(history, m)
      ensures Live(m) ==> Entry(methods, m) == methods[m]
    {
    }

    /** Records the admission of one public request. */
    method RecordRequest(m: Name) returns (r: Outcome)
      requires Valid()
      modifies this
      ensures Valid()
      ensures r == if old(totals.requestCount) + 1 < 0x1_0000_0000_0000_0000 then
          Recorded else Refused(CounterExhausted)
      ensures r.Recorded? ==> history == old(history) + [Requested(m)]
      ensures r.Refused? ==> unchanged(this)
    {
      var l := Entry(methods, m);
      var requests, inFlight, total := CheckedIncrement(l.requestCount), CheckedIncrement(l.inFlight),
        CheckedIncrement(totals.requestCount);
      LiveIsInFlight(m);
      CountsAreWithinTotals(history, Requests, m);
      if requests.Some? && inFlight.Some? && total.Some? {
        l := l.(requestCount := requests.value, inFlight := inFlight.value);
        Commit(m, l, totals.(requestCount := total.value), consecutiveFailures, lastFault, Requested(m));
        r := Recorded;
      } else {
        r := Refused(CounterExhausted);
      }
    }

    /** Records a successful response; only the sum of the latencies can be exhausted. */
    method RecordSuccess(m: Name, latency: u64) returns (r: Outcome)
      requires Valid()
      modifies this
      ensures Valid()
      ensures r == if !old(Live(m)) then Refused(NoInFlightInvocation)
                   else if old(methods)[m].totalLatency + latency < 0x1_0000_0000_0000_0000 then
                       Recorded else Refused(CounterExhausted)
      ensures r.Recorded? ==> history == old(history) + [Succeeded(m, latency)]
      ensures r.Refused? ==> unchanged(this)
    {
      if !Live(m) {
        return Refused(NoInFlightInvocation);
      }
      LiveIsInFlight(m);
      LiveLeavesRoom(first, methods[m], totals, history, m);
      var sampled := RecordLatency(methods[m], latency);
      var successes, totalSuccesses :=
        CheckedIncrement(methods[m].successCount), CheckedIncrement(totals.successCount);
      if sampled.Some? && successes.Some? && totalSuccesses.Some? {
        var l := sampled.value.(successCount := successes.value, inFlight := methods[m].inFlight - 1);
        Commit(m, l, totals.(successCount := totalSuccesses.value), 0, lastFault, Succeeded(m, latency));
        r := Recorded;
      } else {
        r := Refused(CounterExhausted);
      }
    }

    /** Records an error of the host itself. */
    method RecordError(m: Name, latency: u64, detail: Name) returns (r: Outcome)
      requires Valid()
      modifies this
      ensures Valid()
      ensures r == if !old(Live(m)) then Refused(NoInFlightInvocation)
                   else if old(methods)[m].totalLatency + latency < 0x1_0000_0000_0000_0000 then
                       Recorded else Refused(CounterExhausted)
      ensures r.Recorded? ==> history == old(history) + [Erred(m, latency, detail)]
      ensures r.Refused? ==> unchanged(this)
    {
      if !Live(m) {
        return Refused(NoInFlightInvocation);
      }
      LiveIsInFlight(m);
      LiveLeavesRoom(first, methods[m], totals, history, m);
      var sampled := RecordLatency(methods[m], latency);
      var errors, totalErrors :=
        CheckedIncrement(methods[m].errorCount), CheckedIncrement(totals.errorCount);
      if sampled.Some? && errors.Some? && totalErrors.Some? {
        var l := sampled.value.(errorCount := errors.value, inFlight := methods[m].inFlight - 1,
          lastError := Some(detail));
        Commit(m, l, totals.(errorCount := totalErrors.value), consecutiveFailures, lastFault, Erred(m, latency,
          detail));
        r := Recorded;
      } else {
        r := Refused(CounterExhausted);
      }
    }

    /** Records an error response of the worker. */
    method RecordResponseError(m: Name, latency: u64, detail: Name) returns (r: Outcome)
      requires Valid()
      modifies this
      ensures Valid()
      ensures r == if !old(Live(m)) then Refused(NoInFlightInvocation)
                   else if old(methods)[m].totalLatency + latency < 0x1_0000_0000_0000_0000 then
                       Recorded else Refused(CounterExhausted)
      ensures r.Recorded? ==> history == old(history) + [ResponseErred(m, latency, detail)]
      ensures r.Refused? ==> unchanged(this)
    {
      if !Live(m) {
        return Refused(NoInFlightInvocation);
      }
      LiveIsInFlight(m);
      LiveLeavesRoom(first, methods[m], totals, history, m);
      var sampled := RecordLatency(methods[m], latency);
      var responseErrors, totalResponseErrors, errors, totalErrors :=
        CheckedIncrement(methods[m].responseErrorCount), CheckedIncrement(totals.responseErrorCount),
          CheckedIncrement(methods[m].errorCount), CheckedIncrement(totals.errorCount);
      if sampled.Some? && responseErrors.Some? && totalResponseErrors.Some? && errors.Some? && totalErrors.Some? {
        var l := sampled.value.(responseErrorCount := responseErrors.value, errorCount := errors.value,
          inFlight := methods[m].inFlight - 1, lastError := Some(detail));
        Commit(m, l, totals.(responseErrorCount := totalResponseErrors.value, errorCount := totalErrors.value),
          consecutiveFailures, lastFault, ResponseErred(m, latency, detail));
        r := Recorded;
      } else {
        r := Refused(CounterExhausted);
      }
    }

    /** Records an error caused by recovery, which has no latency and exhausts nothing. */
    method RecordRecoveryError(m: Name, detail: Name) returns (r: Outcome)
      requires Valid()
      modifies this
      ensures Valid()
      ensures r == if !old(Live(m)) then Refused(NoInFlightInvocation) else Recorded
      ensures r.Recorded? ==> history == old(history) + [RecoveryErred(m, detail)]
      ensures r.Refused? ==> unchanged(this)
    {
      if !Live(m) {
        return Refused(NoInFlightInvocation);
      }
      LiveIsInFlight(m);
      LiveLeavesRoom(first, methods[m], totals, history, m);
      var recoveryErrors, totalRecoveryErrors, errors, totalErrors :=
        CheckedIncrement(methods[m].recoveryErrorCount), CheckedIncrement(totals.recoveryErrorCount),
          CheckedIncrement(methods[m].errorCount), CheckedIncrement(totals.errorCount);
      if recoveryErrors.Some? && totalRecoveryErrors.Some? && errors.Some? && totalErrors.Some? {
        var l := methods[m].(recoveryErrorCount := recoveryErrors.value, errorCount := errors.value, inFlight :=
            methods[m].inFlight - 1, lastError := Some(detail));
        Commit(m, l, totals.(recoveryErrorCount := totalRecoveryErrors.value, errorCount := totalErrors.value),
          consecutiveFailures, lastFault, RecoveryErred(m, detail));
        r := Recorded;
      } else {
        r := Refused(CounterExhausted);
      }
    }

    /** Records one redispatch. */
    method RecordReplay(m: Name) returns (r: Outcome)
      requires Valid()
      modifies this
      ensures Valid()
      ensures r == if !old(Live(m)) then Refused(NoInFlightInvocation)
                   else if old(totals.retryCount) + 1 < 0x1_0000_0000_0000_0000 then
                       Recorded else Refused(CounterExhausted)
      ensures r.Recorded? ==> history == old(history) + [Replayed(m)]
      ensures r.Refused? ==> unchanged(this)
    {
      if !Live(m) {
        return Refused(NoInFlightInvocation);
      }
      LiveIsInFlight(m);
      CountsAreWithinTotals(history, Retries, m);
      var retries, total := CheckedIncrement(methods[m].retryCount), CheckedIncrement(totals.retryCount);
      if retries.Some? && total.Some? {
        Commit(m, methods[m].(retryCount := retries.value), totals.(retryCount := total.value), consecutiveFailures,
          lastFault, Replayed(m));
        r := Recorded;
      } else {
        r := Refused(CounterExhausted);
      }
    }

    /** Records a fault that triggers recovery and ends no invocation. */
    method RecordRecoveryFault(attributed: Option<Name>, fault: Fault) returns (r: Outcome)
      requires Valid()
      modifies this
      ensures Valid()
      ensures r == if fault.generation != old(generation) then Refused(FaultGenerationMismatch)
                   else if attributed.Some? && !old(Live(attributed.value)) then Refused(NoInFlightInvocation)
                   else if old(totals.recoveryFaultCount) + 1 < 0x1_0000_0000_0000_0000 &&
                       old(consecutiveFailures) + 1 < 0x1_0000_0000 then Recorded
                   else Refused(CounterExhausted)
      ensures r.Recorded? ==> history == old(history) + [Faulted(attributed, fault)]
      ensures r.Refused? ==> unchanged(this)
    {
      if fault.generation != generation {
        return Refused(FaultGenerationMismatch);
      }
      if attributed.Some? && !Live(attributed.value) {
        return Refused(NoInFlightInvocation);
      }
      var total := CheckedIncrement(totals.recoveryFaultCount);
      if attributed.Some? {
        r := ChargeFault(attributed.value, total, fault);
      } else if total.Some? && consecutiveFailures + 1 < 0x1_0000_0000 {
        EnterFault(total.value, fault);
        r := Recorded;
      } else {
        r := Refused(CounterExhausted);
      }
    }

    method ChargeFault(m: Name, total: Option<u64>, fault: Fault) returns (r: Outcome)
      requires Valid() && Live(m) && fault.generation == generation
      requires total == CheckedIncrement(totals.recoveryFaultCount)
      modifies this
      ensures Valid()
      ensures r == if total.Some? && old(consecutiveFailures) + 1 < 0x1_0000_0000 then
          Recorded else Refused(CounterExhausted)
      ensures r.Recorded? ==> history == old(history) + [Faulted(Some(m), fault)]
      ensures r.Refused? ==> unchanged(this)
    {
      LiveIsInFlight(m);
      CountsAreWithinTotals(history, RecoveryFaults, m);
      var faults := CheckedIncrement(methods[m].recoveryFaultCount);
      if faults.Some? && total.Some? && consecutiveFailures + 1 < 0x1_0000_0000 {
        var l := methods[m].(recoveryFaultCount := faults.value, lastError := Some(fault.detail));
        Commit(m, l, totals.(recoveryFaultCount := total.value), consecutiveFailures + 1, Some(fault),
          Faulted(Some(m), fault));
        r := Recorded;
      } else {
        r := Refused(CounterExhausted);
      }
    }

    /** Commits a fault that is charged to no method. */
    method EnterFault(total: u64, fault: Fault)
      requires Valid() && fault.generation == generation && CheckedIncrement(totals.recoveryFaultCount) == Some(total)
      requires consecutiveFailures + 1 < 0x1_0000_0000
      modifies this`totals, this`consecutiveFailures, this`lastFault, this`history
      ensures Valid() && history == old(history) + [Faulted(None, fault)]
    {
      ghost var e := Faulted(None, fault);
      NoMethodStep(methods, history, e);
      TotalsStep(totals, history, e, totals.(recoveryFaultCount := total));
      SessionStep(first, history, e);
      totals := totals.(recoveryFaultCount := total);
      consecutiveFailures := consecutiveFailures + 1;
      lastFault := Some(fault);
      history := history + [e];
    }

    /** Advances to a replacement worker; the counters of the session go on. */
    method ReplaceWorker(generation: u64) returns (r: Outcome)
      requires Valid()
      modifies this
      ensures Valid() && methods == old(methods) && totals == old(totals)
      ensures r == if generation <= old(this.generation) then Refused(GenerationDidNotAdvance)
                   else if old(restartCount) + 1 < 0x1_0000_0000_0000_0000 then Recorded else Refused(CounterExhausted)
      ensures r.Recorded? ==> history == old(history) + [Replaced(generation)]
      ensures r.Refused? ==> unchanged(this)
    {
      if generation <= this.generation {
        return Refused(GenerationDidNotAdvance);
      }
      var restarts := CheckedIncrement(restartCount);
      if restarts.None? {
        return Refused(CounterExhausted);
      }
      ghost var e := Replaced(generation);
      NoMethodStep(methods, history, e);
      TotalsStep(totals, history, e, totals);
      SessionStep(first, history, e);
      restartCount, this.generation := restarts.value, generation;
      history := history + [e];
      r := Recorded;
    }
  }
}
