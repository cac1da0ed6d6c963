/** Many requests through one breaker. Each admission check, upstream call and recorded outcome is
    a step of its own, so late reports arrive in any order and in any breaker state. */
module Outages {
  import opened Breakers
  import opened Retries

  datatype Phase = Calling | Reporting(ok: bool) | Reported(ok: bool)

  /** `probe` marks a request admitted while the breaker was not closed. */
  datatype Request = Request(probe: bool, calls: nat, phase: Phase)

  datatype Event =
    | Admitted(id: nat, probe: bool, time: int)
    | Rejected(time: int)
    | Recorded(id: nat, ok: bool, time: int)

  datatype System = System(breaker: Breaker, clock: int, requests: map<nat, Request>, log: seq<Event>)

  datatype Step =
    | Advance(elapsed: nat)
    | Arrive(id: nat)
    | Upstream(id: nat, outcome: Outcome)
    | Cancel(id: nat)
    | Report(id: nat)

  predicate In(s: System, id: nat, phase: Phase) {
    id in s.requests && s.requests[id].phase == phase
  }

  predicate Enabled(s: System, a: Step) {
    match a
    case Advance(_) => true
    case Arrive(id) => id !in s.requests
    case Upstream(id, _) => In(s, id, Calling)
    case Cancel(id) => In(s, id, Calling) && s.requests[id].calls > 0
    case Report(id) => id in s.requests && s.requests[id].phase.Reporting?
  }

  /** One upstream call inside the retry loop. */
  function AfterCall(r: Request, rp: OptionalPolicy, outcome: Outcome): Request {
    var calls := r.calls + 1;
    match outcome
    case Success(_) => r.(calls := calls, phase := Reporting(true))
    case Failure(error) =>
      if IsRetryable(rp, error) && calls < MaxAttempts(rp) then r.(calls := calls) else r.(calls := calls, phase := Reporting(false))
  }

  /** Cancellation between two calls. */
  function AfterCancel(r: Request): Request {
    r.(phase := Reporting(false))
  }

  /** The calls of one request, one after another, until it has an outcome to report. */
  function Drive(r: Request, rp: OptionalPolicy, script: seq<Outcome>, cancel: Cancellation): Request
    requires |script| >= MaxAttempts(rp) && (r.phase == Calling ==> r.calls < MaxAttempts(rp))
    decreases MaxAttempts(rp) - r.calls
  {
    if r.phase != Calling then r
    else if r.calls > 0 && r.calls >= cancel.at then AfterCancel(r)
    else Drive(AfterCall(r, rp, script[r.calls]), rp, script, cancel)
  }

  lemma {:induction false} DriveFrom(r: Request, rp: OptionalPolicy, script: seq<Outcome>, cancel: Cancellation, lastErr: UpstreamError)
    requires |script| >= MaxAttempts(rp) && r.phase == Calling && r.calls < MaxAttempts(rp)
    ensures var course := Loop(rp, script, cancel, r.calls, lastErr);
            Drive(r, rp, script, cancel) == r.(calls := course.calls, phase := Reporting(course.trip.Returned?))
    decreases MaxAttempts(rp) - r.calls
  {
    if r.calls == 0 || r.calls < cancel.at {
      var r' := AfterCall(r, rp, script[r.calls]);
      if r'.phase == Calling {
        DriveFrom(r', rp, script, cancel, script[r.calls].error);
      }
    }
  }

  /** A request of the system below makes the calls of the retry loop and reports its result, cancelled
      or not. */
  lemma DriveIsTrips(probe: bool, rp: OptionalPolicy, script: seq<Outcome>, cancel: Cancellation)
    requires |script| >= MaxAttempts(rp)
    ensures var course := Trips(rp, script, cancel);
            Drive(Request(probe, 0, Calling), rp, script, cancel) == Request(probe, course.calls, Reporting(course.trip.Returned?))
  {
    DriveFrom(Request(probe, 0, Calling), rp, script, cancel, ContextError);
  }

  function Next(s: System, rp: OptionalPolicy, a: Step): System
    requires Enabled(s, a)
  {
    match a
    case Advance(elapsed) => s.(clock := s.clock + elapsed)
    case Arrive(id) =>
      var (b, admitted) := AfterCheck(s.breaker, s.clock);
      var probe := s.breaker.state != Closed;
      if admitted then
        System(b, s.clock, s.requests[id := Request(probe, 0, Calling)], s.log + [Admitted(id, probe, s.clock)])
      else
        s.(breaker := b, log := s.log + [Rejected(s.clock)])
    case Upstream(id, outcome) =>
      s.(requests := s.requests[id := AfterCall(s.requests[id], rp, outcome)])
    case Cancel(id) =>
      s.(requests := s.requests[id := AfterCancel(s.requests[id])])
    case Report(id) =>
      var ok := s.requests[id].phase.ok;
      System(if ok then AfterSuccess(s.breaker) else AfterFailure(s.breaker, s.clock), s.clock,
             s.requests[id := s.requests[id].(phase := Reported(ok))], s.log + [Recorded(id, ok, s.clock)])
  }

  ghost predicate IsRun(s: System, rp: OptionalPolicy, steps: seq<Step>)
    decreases |steps|
  {
    steps != [] ==> Enabled(s, steps[0]) && IsRun(Next(s, rp, steps[0]), rp, steps[1..])
  }

  function Run(s: System, rp: OptionalPolicy, steps: seq<Step>): System
    requires IsRun(s, rp, steps)
    decreases |steps|
  {
    if steps == [] then s else Run(Next(s, rp, steps[0]), rp, steps[1..])
  }

  function Start(threshold: int, cooldown: int, clock: int): System {
    System(NewBreaker(threshold, cooldown), clock, map[], [])
  }

  // ---------------------------------------------------------------------------------------------
  // Histories
  // ---------------------------------------------------------------------------------------------

  /** Failures recorded since the last recorded success. */
  function FailuresSince(log: seq<Event>): nat {
    if log == [] then 0
    else
      match log[|log| - 1]
      case Recorded(_, ok, _) => if ok then 0 else FailuresSince(log[..|log| - 1]) + 1
      case _ => FailuresSince(log[..|log| - 1])
  }

  /** When the last failure was recorded. */
  function LastFailure(log: seq<Event>): int {
    if log == [] then 0
    else
      var e := log[|log| - 1];
      if e.Recorded? && !e.ok then e.time else LastFailure(log[..|log| - 1])
  }

  /** Outcomes recorded for one request. */
  function Outcomes(log: seq<Event>, id: nat): nat {
    if log == [] then 0
    else
      var e := log[|log| - 1];
      Outcomes(log[..|log| - 1], id) + (if e.Recorded? && e.id == id then 1 else 0)
  }

  predicate IsProbe(e: Event) {
    e.Admitted? && e.probe
  }

  ghost predicate NoSuccess(log: seq<Event>, i: nat, j: nat)
    requires i <= j <= |log|
  {
    forall k :: i <= k < j ==> !(log[k].Recorded? && log[k].ok)
  }

  /** Any two probes with no success between them are a cooldown apart. */
  ghost predicate Spaced(log: seq<Event>, cooldown: int) {
    forall i, j :: 0 <= i < j < |log| && IsProbe(log[i]) && IsProbe(log[j]) && NoSuccess(log, i, j) ==> log[j].time - log[i].time >= cooldown
  }

  /** Every probe since the last success was admitted no later than t. */
  ghost predicate ProbesBy(log: seq<Event>, t: int) {
    forall i :: 0 <= i < |log| && IsProbe(log[i]) && NoSuccess(log, i, |log|) ==> log[i].time <= t
  }

  // ---------------------------------------------------------------------------------------------
  // Invariants
  // ---------------------------------------------------------------------------------------------

  ghost predicate BreakerInv(s: System) {
    var b := s.breaker;
    && b.threshold >= 1 && b.cooldown > 0
    && (b.halfOpenActive <==> b.state == HalfOpen)
    && (b.state == Closed ==> b.fails == FailuresSince(s.log) < b.threshold)
    && (b.state != Closed ==> b.fails >= b.threshold && FailuresSince(s.log) >= b.threshold)
    && (b.state != Closed ==> b.lastTripped == LastFailure(s.log))
  }

  ghost predicate TimeInv(s: System) {
    && (forall i :: 0 <= i < |s.log| ==> s.log[i].time <= s.clock)
    && (s.breaker.state == Open ==> ProbesBy(s.log, s.breaker.lastTripped))
    && Spaced(s.log, s.breaker.cooldown)
  }

  ghost predicate RequestInv(s: System, rp: OptionalPolicy, id: nat)
    requires id in s.requests
  {
    var r := s.requests[id];
    && (r.phase == Calling ==> r.calls < MaxAttempts(rp))
    && r.calls <= MaxAttempts(rp)
    && Outcomes(s.log, id) == (if r.phase.Reported? then 1 else 0)
  }

  ghost predicate RequestsInv(s: System, rp: OptionalPolicy) {
    && (forall id :: id in s.requests ==> RequestInv(s, rp, id))
    && (forall id: nat :: id !in s.requests ==> Outcomes(s.log, id) == 0)
    && (forall i :: 0 <= i < |s.log| && s.log[i].Admitted? ==> s.log[i].id in s.requests && s.requests[s.log[i].id].probe == s.log[i].probe)
  }

  /** Half-open means that a probe has been admitted and has not reported. */
  ghost predicate ProbeInv(s: System) {
    s.breaker.state == HalfOpen ==> exists id :: id in s.requests && s.requests[id].probe && !s.requests[id].phase.Reported?
  }

  ghost predicate Inv(s: System, rp: OptionalPolicy) {
    BreakerInv(s) && TimeInv(s) && RequestsInv(s, rp) && ProbeInv(s)
  }

  lemma Append(log: seq<Event>, e: Event)
    ensures (log + [e])[..|log|] == log
    ensures forall id: nat :: Outcomes(log + [e], id) == Outcomes(log, id) + (if e.Recorded? && e.id == id then 1 else 0)
    ensures FailuresSince(log + [e]) == match e
                                        case Recorded(_, ok, _) => (if ok then 0 else FailuresSince(log) + 1)
                                        case _ => FailuresSince(log)
    ensures LastFailure(log + [e]) == if e.Recorded? && !e.ok then e.time else LastFailure(log)
    ensures forall i :: 0 <= i <= |log| ==> (NoSuccess(log + [e], i, |log|) <==> NoSuccess(log, i, |log|))
    ensures forall i, j :: 0 <= i <= j <= |log| ==> (NoSuccess(log + [e], i, j) <==> NoSuccess(log, i, j))
  {
    assert (log + [e])[..|log|] == log;
  }

  lemma StepKeepsBreakerInv(s: System, rp: OptionalPolicy, a: Step)
    requires BreakerInv(s) && Enabled(s, a)
    ensures BreakerInv(Next(s, rp, a))
  {
    var s' := Next(s, rp, a);
    if |s'.log| > |s.log| {
      Append(s.log, s'.log[|s.log|]);
    }
  }

  lemma StepKeepsTimeInv(s: System, rp: OptionalPolicy, a: Step)
    requires BreakerInv(s) && TimeInv(s) && Enabled(s, a)
    ensures TimeInv(Next(s, rp, a))
  {
    var s' := Next(s, rp, a);
    if |s'.log| > |s.log| {
      var e := s'.log[|s.log|];
      assert s'.log == s.log + [e];
      Append(s.log, e);
      SpacedAppend(s, e);
      if s'.breaker.state == Open {
        ProbesByAppend(s, s', e);
      }
    }
  }

  /** The step that matters: a probe is admitted only a cooldown after the breaker last tripped, and
      it tripped after every earlier probe of the same outage. */
  lemma SpacedAppend(s: System, e: Event)
    requires BreakerInv(s) && TimeInv(s) && e.time == s.clock
    requires IsProbe(e) ==> s.breaker.state == Open && s.clock - s.breaker.lastTripped >= s.breaker.cooldown
    ensures Spaced(s.log + [e], s.breaker.cooldown)
  {
    var log := s.log + [e];
    Append(s.log, e);
    forall i, j | 0 <= i < j < |log| && IsProbe(log[i]) && IsProbe(log[j]) && NoSuccess(log, i, j)
      ensures log[j].time - log[i].time >= s.breaker.cooldown
    {
      assert NoSuccess(s.log, i, j);
      if j == |s.log| {
        assert s.log[i].time <= s.breaker.lastTripped;
      }
    }
  }

  lemma ProbesByAppend(s: System, s': System, e: Event)
    requires TimeInv(s) && s'.log == s.log + [e] && s'.breaker.state == Open && e.time == s.clock
    requires s'.breaker.lastTripped == s.clock || (!IsProbe(e) && s.breaker.state == Open && s'.breaker.lastTripped == s.breaker.lastTripped)
    ensures ProbesBy(s'.log, s'.breaker.lastTripped)
  {
    forall i | 0 <= i < |s'.log| && IsProbe(s'.log[i]) && NoSuccess(s'.log, i, |s'.log|) ensures s'.log[i].time <= s'.breaker.lastTripped {
      if i < |s.log| {
        assert forall k :: i <= k < |s.log| ==> s'.log[k] == s.log[k];
        assert NoSuccess(s.log, i, |s.log|);
      }
    }
  }

  /** How a step changes the number of outcomes recorded for one request. */
  lemma StepOutcomes(s: System, rp: OptionalPolicy, a: Step, id: nat)
    requires Enabled(s, a)
    ensures Outcomes(Next(s, rp, a).log, id) == Outcomes(s.log, id) + (if a == Report(id) then 1 else 0)
  {
    var s' := Next(s, rp, a);
    if |s'.log| > |s.log| {
      Append(s.log, s'.log[|s.log|]);
    }
  }

  lemma StepKeepsRequest(s: System, rp: OptionalPolicy, a: Step, id: nat)
    requires Enabled(s, a) && id in Next(s, rp, a).requests
    requires if id in s.requests then RequestInv(s, rp, id) else Outcomes(s.log, id) == 0
    ensures RequestInv(Next(s, rp, a), rp, id)
  {
    StepOutcomes(s, rp, a, id);
  }

  lemma StepKeepsRequestsInv(s: System, rp: OptionalPolicy, a: Step)
    requires RequestsInv(s, rp) && Enabled(s, a)
    ensures RequestsInv(Next(s, rp, a), rp)
  {
    var s' := Next(s, rp, a);
    forall id: nat ensures if id in s'.requests then RequestInv(s', rp, id) else Outcomes(s'.log, id) == 0 {
      if id in s'.requests {
        StepKeepsRequest(s, rp, a, id);
      } else {
        StepOutcomes(s, rp, a, id);
      }
    }
  }

  lemma StepKeepsProbeInv(s: System, rp: OptionalPolicy, a: Step)
    requires BreakerInv(s) && ProbeInv(s) && Enabled(s, a)
    ensures ProbeInv(Next(s, rp, a))
  {
    var s' := Next(s, rp, a);
    if s'.breaker.state == HalfOpen {
      if s.breaker.state == HalfOpen {
        var id :| id in s.requests && s.requests[id].probe && !s.requests[id].phase.Reported?;
        assert id in s'.requests && s'.requests[id].probe && !s'.requests[id].phase.Reported?;
      } else {
        assert a.id in s'.requests && s'.requests[a.id].probe;
      }
    }
  }

  lemma {:induction false} RunKeepsInv(s: System, rp: OptionalPolicy, steps: seq<Step>)
    requires Inv(s, rp) && IsRun(s, rp, steps)
    ensures Inv(Run(s, rp, steps), rp)
    decreases |steps|
  {
    if steps != [] {
      StepKeepsBreakerInv(s, rp, steps[0]);
      StepKeepsTimeInv(s, rp, steps[0]);
      StepKeepsRequestsInv(s, rp, steps[0]);
      StepKeepsProbeInv(s, rp, steps[0]);
      RunKeepsInv(Next(s, rp, steps[0]), rp, steps[1..]);
    }
  }

  // ---------------------------------------------------------------------------------------------
  // Theorems over every run
  // ---------------------------------------------------------------------------------------------

  ghost predicate Reachable(s: System, rp: OptionalPolicy, threshold: int, cooldown: int, clock: int, steps: seq<Step>) {
    && threshold >= 1 && cooldown > 0
    && IsRun(Start(threshold, cooldown, clock), rp, steps)
    && s == Run(Start(threshold, cooldown, clock), rp, steps)
  }

  lemma ReachableInv(s: System, rp: OptionalPolicy, threshold: int, cooldown: int, clock: int, steps: seq<Step>)
    requires Reachable(s, rp, threshold, cooldown, clock, steps)
    ensures Inv(s, rp) && s.breaker.threshold == threshold && s.breaker.cooldown == cooldown
  {
    RunKeepsInv(Start(threshold, cooldown, clock), rp, steps);
    RunKeepsParameters(Start(threshold, cooldown, clock), rp, steps);
  }

  lemma {:induction false} RunKeepsParameters(s: System, rp: OptionalPolicy, steps: seq<Step>)
    requires IsRun(s, rp, steps)
    ensures Run(s, rp, steps).breaker.threshold == s.breaker.threshold
    ensures Run(s, rp, steps).breaker.cooldown == s.breaker.cooldown
    decreases |steps|
  {
    if steps != [] {
      RunKeepsParameters(Next(s, rp, steps[0]), rp, steps[1..]);
    }
  }

  /** The breaker is closed iff fewer failures than the threshold were recorded since the last
      success, although half-open failures are not counted and late ones arrive while it is open. */
  lemma ClosedIffFewFailures(s: System, rp: OptionalPolicy, threshold: int, cooldown: int, clock: int, steps: seq<Step>)
    requires Reachable(s, rp, threshold, cooldown, clock, steps)
    ensures s.breaker.state == Closed <==> FailuresSince(s.log) < threshold
  {
    ReachableInv(s, rp, threshold, cooldown, clock, steps);
  }

  /** While the breaker is not closed its cooldown runs from the last recorded failure, late ones included:
      an open breaker admits exactly those who come a cooldown after it. */
  lemma TrippedAtLastFailure(s: System, rp: OptionalPolicy, threshold: int, cooldown: int, clock: int, steps: seq<Step>, t: int)
    requires Reachable(s, rp, threshold, cooldown, clock, steps)
    ensures s.breaker.state != Closed ==> s.breaker.lastTripped == LastFailure(s.log)
    ensures s.breaker.state == Open ==> (AfterCheck(s.breaker, t).1 <==> t >= LastFailure(s.log) + cooldown)
  {
    ReachableInv(s, rp, threshold, cooldown, clock, steps);
  }

  /** Two requests admitted while the breaker is not closed, with no success recorded between them,
      are at least a cooldown apart. */
  lemma ProbeSpacing(s: System, rp: OptionalPolicy, threshold: int, cooldown: int, clock: int, steps: seq<Step>)
    requires Reachable(s, rp, threshold, cooldown, clock, steps)
    ensures Spaced(s.log, cooldown)
  {
    ReachableInv(s, rp, threshold, cooldown, clock, steps);
  }

  /** Each admitted request records one outcome and no more, and makes at most the attempts allowed. */
  lemma OneOutcomeEach(s: System, rp: OptionalPolicy, threshold: int, cooldown: int, clock: int, steps: seq<Step>, id: nat)
    requires Reachable(s, rp, threshold, cooldown, clock, steps) && id in s.requests
    ensures Outcomes(s.log, id) == (if s.requests[id].phase.Reported? then 1 else 0)
    ensures s.requests[id].calls <= MaxAttempts(rp)
  {
    ReachableInv(s, rp, threshold, cooldown, clock, steps);
    assert RequestInv(s, rp, id);
  }

  /** The breaker is never stuck: closed it admits; open it admits once the cooldown has passed;
      half-open some admitted request has yet to report, can move now, and its report, whatever it
      is, ends the half-open state. */
  lemma NeverStuck(s: System, rp: OptionalPolicy, threshold: int, cooldown: int, clock: int, steps: seq<Step>)
    requires Reachable(s, rp, threshold, cooldown, clock, steps)
    ensures s.breaker.halfOpenActive <==> s.breaker.state == HalfOpen
    ensures s.breaker.state == Closed ==> AfterCheck(s.breaker, s.clock).1
    ensures s.breaker.state == Open ==> forall t :: AfterCheck(s.breaker, t).1 <==> t >= s.breaker.lastTripped + cooldown
    ensures s.breaker.state == HalfOpen ==>
              exists id :: && id in s.requests && !s.requests[id].phase.Reported?
                           && (Enabled(s, Upstream(id, Success(""))) || Enabled(s, Report(id)))
    ensures AfterSuccess(s.breaker).state == Closed && AfterFailure(s.breaker, s.clock).state != HalfOpen
  {
    ReachableInv(s, rp, threshold, cooldown, clock, steps);
    if s.breaker.state == HalfOpen {
      var id :| id in s.requests && s.requests[id].probe && !s.requests[id].phase.Reported?;
      assert Enabled(s, Upstream(id, Success(""))) || Enabled(s, Report(id));
    }
  }

  // ---------------------------------------------------------------------------------------------
  // How much an outage lets through
  // ---------------------------------------------------------------------------------------------

  function Probes(log: seq<Event>, i: nat, j: nat): nat
    requires i <= j <= |log|
    decreases j
  {
    if i == j then 0 else Probes(log, i, j - 1) + (if IsProbe(log[j - 1]) then 1 else 0)
  }

  /** Upstream calls made so far by the probes admitted in log[i..j]. */
  function ProbeCalls(s: System, i: nat, j: nat): nat
    requires i <= j <= |s.log|
    decreases j
  {
    if i == j then 0
    else ProbeCalls(s, i, j - 1) +
         (if IsProbe(s.log[j - 1]) && s.log[j - 1].id in s.requests then s.requests[s.log[j - 1].id].calls else 0)
  }

  lemma {:induction false} ProbesSpread(log: seq<Event>, cooldown: int, i: nat, j: nat) returns (a: nat, b: nat)
    requires i <= j <= |log| && cooldown > 0 && Spaced(log, cooldown) && NoSuccess(log, i, j)
    ensures Probes(log, i, j) > 0 ==>
              && i <= a <= b < j && IsProbe(log[a]) && IsProbe(log[b])
              && (forall k :: b < k < j ==> !IsProbe(log[k]))
              && log[b].time - log[a].time >= (Probes(log, i, j) - 1) * cooldown
    decreases j
  {
    a, b := i, i;
    if i < j {
      a, b := ProbesSpread(log, cooldown, i, j - 1);
      if IsProbe(log[j - 1]) {
        var n := Probes(log, i, j - 1);
        if n == 0 {
          a, b := j - 1, j - 1;
        } else {
          assert NoSuccess(log, b, j - 1);
          assert log[j - 1].time - log[b].time >= cooldown;
          Successor(n - 1, cooldown);
          b := j - 1;
        }
      }
    }
  }

  lemma FloorBound(n: nat, cooldown: int, length: int)
    requires cooldown > 0 && n > 0 && (n - 1) * cooldown <= length
    ensures n <= length / cooldown + 1
  {
    var q := length / cooldown;
    assert length < (q + 1) * cooldown;
    if n - 1 > q {
      Monotone(q + 1, n - 1, cooldown);
      assert false;
    }
  }

  lemma {:induction false} CallsPerProbe(s: System, rp: OptionalPolicy, i: nat, j: nat)
    requires RequestsInv(s, rp) && i <= j <= |s.log|
    ensures ProbeCalls(s, i, j) <= Probes(s.log, i, j) * MaxAttempts(rp)
    decreases j
  {
    if i < j {
      CallsPerProbe(s, rp, i, j - 1);
      var e := s.log[j - 1];
      if IsProbe(e) {
        assert RequestInv(s, rp, e.id);
        var n, m := Probes(s.log, i, j - 1), MaxAttempts(rp);
        Successor(n, m);
        assert Probes(s.log, i, j) == n + 1;
      }
    }
  }

  /** A stretch of the log without a recorded success whose probes fall into an interval of the given
      length holds at most length / cooldown + 1 of them, which make at most maxAttempts upstream
      calls each. */
  lemma OutageBound(s: System, rp: OptionalPolicy, threshold: int, cooldown: int, clock: int, steps: seq<Step>,
                    i: nat, j: nat, from: int, length: nat)
    requires Reachable(s, rp, threshold, cooldown, clock, steps)
    requires i <= j <= |s.log| && NoSuccess(s.log, i, j)
    requires forall k :: i <= k < j && IsProbe(s.log[k]) ==> from <= s.log[k].time <= from + length
    ensures Probes(s.log, i, j) <= length / cooldown + 1
    ensures ProbeCalls(s, i, j) <= (length / cooldown + 1) * MaxAttempts(rp)
  {
    ReachableInv(s, rp, threshold, cooldown, clock, steps);
    var a, b := ProbesSpread(s.log, cooldown, i, j);
    var n := Probes(s.log, i, j);
    if n > 0 {
      FloorBound(n, cooldown, length);
    }
    CallsPerProbe(s, rp, i, j);
    Monotone(n, length / cooldown + 1, MaxAttempts(rp));
  }

  lemma Monotone(x: int, y: int, m: nat)
    requires x <= y
    ensures x * m <= y * m
  {
  }
}
