/** What the events of a run say about the runtime attempts it made: known and unknown ones, tokens and costs. */
module AttemptUsage {
  import opened Text

  datatype Count = Absent | Malformed | Given(n: nat)

  datatype Usd = NoUsd | BadUsd | Amount(usd: real)

  datatype CostClass = Actual | Estimated | Unknown | Unclassified

  datatype Source = ProviderReported | Calculated | OtherSource

  datatype Method = NoMethod | BadMethod | NamedMethod

  /** `traced`: provider, observation time and source reference are all present. */
  datatype Usage = Usage(
    input: Count, output: Count, total: Count, cost: CostClass, usd: Usd, how: Method, traced: bool, source: Source)

  /** Started stages say whether they are agents, review gates, or name a runtime. */
  datatype Kind =
    | Started(agent: bool, reviewGate: bool, namesRuntime: bool)
    | Selected
    | FellBack
    | Unavailable
    | Reported(usage: Usage)
    | Elsewhere

  /** A stage and an attempt may be missing; attempts are numbered from one. */
  datatype Event = Event(kind: Kind, stage: Option<string>, number: nat)

  /** The key of the attempt that an event is about. */
  function Attempt(e: Event): Option<string> {
    if e.stage.None? || e.stage.value == "" || e.number == 0 then None
    else Some(e.stage.value + ":" + Decimal(e.number))
  }

  /** The event concerns an attempt of a runtime. */
  predicate AtRuntime(e: Event) {
    && Attempt(e).Some?
    && if e.kind.Started? then e.kind.agent || e.kind.reviewGate || e.kind.namesRuntime else !e.kind.Elsewhere?
  }

  // ---------------------------------------------------------------- one observation

  predicate ValidTokens(u: Usage) {
    && !u.input.Malformed? && !u.output.Malformed? && !u.total.Malformed?
    && !(u.input.Given? && u.output.Given? && u.total.Given? && u.input.n + u.output.n != u.total.n)
    && (u.input.Given? || u.output.Given? || u.total.Given?)
  }

  predicate ValidProvenance(u: Usage) { u.traced && !u.source.OtherSource? }

  /** An amount is never negative. */
  predicate ValidUsd(u: Usage) { u.usd.Amount? && u.usd.usd >= 0.0 }

  predicate ValidActual(u: Usage) { u.cost.Actual? && ValidUsd(u) && ValidProvenance(u) && u.source.ProviderReported? }

  predicate ValidEstimate(u: Usage) {
    u.cost.Estimated? && ValidUsd(u) && ValidProvenance(u) && u.source.Calculated? && u.how.NamedMethod?
  }

  predicate ValidUnknown(u: Usage) { u.cost.Unknown? && u.usd.NoUsd? && u.how.NoMethod? && ValidProvenance(u) }

  predicate KnownUsage(u: Usage) { ValidTokens(u) || ValidActual(u) || ValidEstimate(u) || ValidUnknown(u) }

  datatype Quantity = Tokens | ActualUsd | EstimatedUsd

  /** What an observation contributes to a total. */
  function Part(q: Quantity, u: Usage): (r: Option<real>)
    ensures r.Some? ==> r.value >= 0.0
  {
    match q
    case Tokens =>
      if !ValidTokens(u) then None
      else if u.total.Given? then Some(u.total.n as real)
      else if u.input.Given? && u.output.Given? then Some((u.input.n + u.output.n) as real)
      else None
    case ActualUsd => if ValidActual(u) then Some(u.usd.usd) else None
    case EstimatedUsd => if ValidEstimate(u) then Some(u.usd.usd) else None
  }

  // ---------------------------------------------------------------- all attempts

  function RuntimeAttempts(events: seq<Event>): set<string> {
    set i | 0 <= i < |events| && AtRuntime(events[i]) :: Attempt(events[i]).value
  }

  /** The last report of each attempt. */
  function Reports(events: seq<Event>): map<string, Usage> {
    if events == [] then map[]
    else
      var before, e := Reports(events[..|events| - 1]), events[|events| - 1];
      if e.kind.Reported? && Attempt(e).Some? then before[Attempt(e).value := e.kind.usage] else before
  }

  function Having(q: Quantity, reports: map<string, Usage>): set<string> {
    set k | k in reports && Part(q, reports[k]).Some?
  }

  function KnownAttempts(reports: map<string, Usage>): set<string> {
    set k | k in reports && KnownUsage(reports[k])
  }

  /** The sum over a set of attempts, in whatever order. */
  ghost function SumOver(q: Quantity, reports: map<string, Usage>, keys: set<string>): (r: real)
    requires keys <= Having(q, reports)
    ensures r >= 0.0
    decreases keys
  {
    if keys == {} then 0.0
    else
      var k :| k in keys;
      Part(q, reports[k]).value + SumOver(q, reports, keys - {k})
  }

  lemma {:induction false} SumStep(q: Quantity, reports: map<string, Usage>, keys: set<string>, k: string)
    requires keys <= Having(q, reports) && k in keys
    ensures SumOver(q, reports, keys) == Part(q, reports[k]).value + SumOver(q, reports, keys - {k})
    decreases keys
  {
    hide Part;
    var j :| j in keys && SumOver(q, reports, keys) == Part(q, reports[j]).value + SumOver(q, reports, keys - {j});
    if j != k {
      SumStep(q, reports, keys - {j}, k);
      SumStep(q, reports, keys - {k}, j);
      assert keys - {j} - {k} == keys - {k} - {j};
    }
  }

  /** A running total; once past the largest number it stays unusable. */
  datatype Running = Nothing | Total(x: real) | Overflowed

  function Add(t: Running, x: real, largest: real): Running {
    if t.Overflowed? then t
    else
      var next := (if t.Total? then t.x else 0.0) + x;
      if next <= largest then Total(next) else Overflowed
  }

  ghost function RunningOf(q: Quantity, reports: map<string, Usage>, keys: set<string>, largest: real): Running
    requires keys <= Having(q, reports)
  {
    if keys == {} then Nothing
    else if SumOver(q, reports, keys) <= largest then Total(SumOver(q, reports, keys)) else Overflowed
  }

  lemma AddStep(q: Quantity, reports: map<string, Usage>, keys: set<string>, k: string, largest: real)
    requires keys <= Having(q, reports) && k in Having(q, reports) && k !in keys
    ensures RunningOf(q, reports, keys + {k}, largest)
         == Add(RunningOf(q, reports, keys, largest), Part(q, reports[k]).value, largest)
  {
    hide Part;
    SumStep(q, reports, keys + {k}, k);
    assert keys + {k} - {k} == keys;
  }

  /** A cost is reported when every runtime attempt has one of that kind. */
  ghost function CostOf(q: Quantity, events: seq<Event>, largest: real): Option<real> {
    var reports := Reports(events);
    var total := RunningOf(q, reports, Having(q, reports), largest);
    if RuntimeAttempts(events) != {} && Having(q, reports) == RuntimeAttempts(events) && total.Total?
    then Some(total.x) else None
  }

  lemma {:induction false} ReportsAreRuntime(events: seq<Event>)
    ensures Reports(events).Keys <= RuntimeAttempts(events)
  {
    if events != [] {
      var n := |events| - 1;
      ReportsAreRuntime(events[..n]);
      assert RuntimeAttempts(events[..n]) <= RuntimeAttempts(events) by {
        forall k | k in RuntimeAttempts(events[..n]) ensures k in RuntimeAttempts(events) {
          var i :| 0 <= i < n && AtRuntime(events[..n][i]) && Attempt(events[..n][i]) == Some(k);
          assert events[i] == events[..n][i];
        }
      }
    }
  }

  datatype UsageSample = UsageSample(
    known: nat, unknown: nat, tokens: Option<real>, actual: Option<real>, estimated: Option<real>)

  function Known(t: Running): Option<real> { if t.Total? then Some(t.x) else None }

  lemma SameSize(part: set<string>, whole: set<string>)
    requires part <= whole
    ensures |part| <= |whole| && (|part| == |whole| <==> part == whole)
  {
    assert whole == part + (whole - part);
  }

  method DeriveUsage(events: seq<Event>, largest: real) returns (s: UsageSample)
    ensures var reports := Reports(events);
      && s.known == |KnownAttempts(reports)| && s.known + s.unknown == |RuntimeAttempts(events)|
      && s.tokens == Known(RunningOf(Tokens, reports, Having(Tokens, reports), largest))
      && s.actual == CostOf(ActualUsd, events, largest) && s.estimated == CostOf(EstimatedUsd, events, largest)
  {
    var runtimeAttempts, usageEvents := CollectAttempts(events);
    ReportsAreRuntime(events);
    var known, tokens, actual, estimated, actualAttempts, estimatedAttempts := AddUp(usageEvents, largest);
    hide Part, KnownUsage, RuntimeAttempts, Reports;
    SameSize(known, runtimeAttempts);
    SameSize(actualAttempts, runtimeAttempts);
    SameSize(estimatedAttempts, runtimeAttempts);
    s := UsageSample(|known|, if |runtimeAttempts| > |known| then |runtimeAttempts| - |known| else 0, Known(tokens),
      if |runtimeAttempts| > 0 && |actualAttempts| == |runtimeAttempts| then Known(actual) else None,
      if |runtimeAttempts| > 0 && |estimatedAttempts| == |runtimeAttempts| then Known(estimated) else None);
  }

  method CollectAttempts(events: seq<Event>) returns (runtimeAttempts: set<string>, usageEvents: map<string, Usage>)
    ensures runtimeAttempts == RuntimeAttempts(events) && usageEvents == Reports(events)
  {
    runtimeAttempts, usageEvents := {}, map[];
    for n := 0 to |events|
      invariant runtimeAttempts == RuntimeAttempts(events[..n])
      invariant usageEvents == Reports(events[..n])
    {
      var event := events[n];
      assert events[..n + 1][..n] == events[..n];
      AttemptsStep(events, n);
      var key := Attempt(event);
      if key.Some? && (event.kind.Selected? || event.kind.FellBack? || event.kind.Unavailable? || event.kind.Reported?
                       || (event.kind.Started?
                         && (event.kind.agent || event.kind.reviewGate || event.kind.namesRuntime))) {
        runtimeAttempts := runtimeAttempts + {key.value};
      }
      if event.kind.Reported? && key.Some? {
        usageEvents := usageEvents[key.value := event.kind.usage];
      }
    }
    assert events[..|events|] == events;
  }

  lemma AttemptsStep(events: seq<Event>, n: nat)
    requires n < |events|
    ensures RuntimeAttempts(events[..n + 1]) == RuntimeAttempts(events[..n])
      + if AtRuntime(events[n]) then {Attempt(events[n]).value} else {}
  {
    var more, less := events[..n + 1], events[..n];
    forall i | 0 <= i < n ensures more[i] == less[i] {}
    assert more[n] == events[n];
  }

  method AddUp(reports: map<string, Usage>, largest: real)
    returns (known: set<string>, tokens: Running, actual: Running, estimated: Running,
             actualAttempts: set<string>, estimatedAttempts: set<string>)
    ensures known == KnownAttempts(reports)
    ensures tokens == RunningOf(Tokens, reports, Having(Tokens, reports), largest)
    ensures actual == RunningOf(ActualUsd, reports, Having(ActualUsd, reports), largest)
    ensures estimated == RunningOf(EstimatedUsd, reports, Having(EstimatedUsd, reports), largest)
    ensures actualAttempts == Having(ActualUsd, reports) && estimatedAttempts == Having(EstimatedUsd, reports)
  {
    known, tokens, actual, estimated := {}, Nothing, Nothing, Nothing;
    actualAttempts, estimatedAttempts := {}, {};
    var left := reports.Keys;
    ghost var done: set<string> := {};
    while left != {}
      invariant left <= reports.Keys && done == reports.Keys - left
      invariant known == KnownAttempts(reports) * done
      invariant tokens == RunningOf(Tokens, reports, Having(Tokens, reports) * done, largest)
      invariant actual == RunningOf(ActualUsd, reports, Having(ActualUsd, reports) * done, largest)
      invariant estimated == RunningOf(EstimatedUsd, reports, Having(EstimatedUsd, reports) * done, largest)
      invariant actualAttempts == Having(ActualUsd, reports) * done
      invariant estimatedAttempts == Having(EstimatedUsd, reports) * done
      decreases left
    {
      hide Part, KnownUsage, RunningOf, Add;
      var key :| key in left;
      var usage := reports[key];
      TurnStep(Tokens, reports, done, key, largest);
      TurnStep(ActualUsd, reports, done, key, largest);
      TurnStep(EstimatedUsd, reports, done, key, largest);
      left := left - {key};
      done := done + {key};
      if Part(Tokens, usage).Some? { tokens := Add(tokens, Part(Tokens, usage).value, largest); }
      if KnownUsage(usage) { known := known + {key}; }
      OneCost(usage);
      if Part(ActualUsd, usage).Some? {
        actualAttempts := actualAttempts + {key};
        actual := Add(actual, Part(ActualUsd, usage).value, largest);
      } else if Part(EstimatedUsd, usage).Some? {
        estimatedAttempts := estimatedAttempts + {key};
        estimated := Add(estimated, Part(EstimatedUsd, usage).value, largest);
      }
    }
    assert done == reports.Keys;
    assert KnownAttempts(reports) * done == KnownAttempts(reports);
    assert forall q: Quantity :: Having(q, reports) * done == Having(q, reports);
  }

  lemma OneCost(u: Usage)
    ensures Part(ActualUsd, u).None? || Part(EstimatedUsd, u).None?
  {}

  lemma TurnStep(q: Quantity, reports: map<string, Usage>, done: set<string>, key: string, largest: real)
    requires key in reports && key !in done
    ensures var having := Having(q, reports);
      && (key in having <==> Part(q, reports[key]).Some?)
      && (key in having ==> having * (done + {key}) == having * done + {key})
      && (key in having ==>
            RunningOf(q, reports, having * (done + {key}), largest)
            == Add(RunningOf(q, reports, having * done, largest), Part(q, reports[key]).value, largest))
      && (key !in having ==> having * (done + {key}) == having * done)
  {
    hide Part, RunningOf, Add;
    var having := Having(q, reports);
    if key in having {
      assert having * (done + {key}) == having * done + {key};
      AddStep(q, reports, having * done, key, largest);
    }
  }

  /** An attempt that contributes to any total is known, so a sample that reports a cost has no unknown attempts; and
      it never reports both kinds of cost. */
  lemma CostLeavesNothingUnknown(events: seq<Event>, q: Quantity, largest: real)
    ensures Having(q, Reports(events)) <= KnownAttempts(Reports(events)) <= RuntimeAttempts(events)
    ensures !q.Tokens? && CostOf(q, events, largest).Some? ==> KnownAttempts(Reports(events)) == RuntimeAttempts(events)
    ensures CostOf(ActualUsd, events, largest).None? || CostOf(EstimatedUsd, events, largest).None?
  {
    ReportsAreRuntime(events);
    hide RunningOf, RuntimeAttempts, Reports;
  }

  // ---------------------------------------------------------------- what a report counts for

  lemma NoColonAfter(a: string, x: string)
    requires forall i :: 0 <= i < |x| ==> x[i] != ':'
    ensures forall i :: |a| < i < |a| + 1 + |x| ==> (a + ":" + x)[i] != ':'
  {
    forall i | |a| < i < |a| + 1 + |x| ensures (a + ":" + x)[i] != ':' {
      assert (a + ":" + x)[i] == x[i - |a| - 1];
    }
  }

  lemma SplitAtColon(a: string, m: nat, b: string, n: nat)
    requires a + ":" + Decimal(m) == b + ":" + Decimal(n)
    ensures a == b && m == n
  {
    DecimalRoundTrip(m);
    DecimalRoundTrip(n);
    hide Decimal, Value;
    var x, y := Decimal(m), Decimal(n);
    NoColonAfter(a, x);
    NoColonAfter(b, y);
    var s, t := a + ":" + x, b + ":" + y;
    assert s[|a|] == ':' && t[|b|] == ':';
    assert s[..|a|] == a && t[..|b|] == b;
    assert s[|a| + 1..] == x && t[|b| + 1..] == y;
  }

  /** Attempts have a stage and a number, and are told apart by them. */
  lemma AttemptTells(e: Event, f: Event)
    ensures Attempt(e).Some? <==> e.stage.Some? && |e.stage.value| > 0 && e.number > 0
    ensures Attempt(e).Some? && Attempt(e) == Attempt(f) ==> e.stage == f.stage && e.number == f.number
  {
    hide Decimal;
    if Attempt(e).Some? && Attempt(e) == Attempt(f) {
      SplitAtColon(e.stage.value, e.number, f.stage.value, f.number);
    }
  }

  /** The event is about the attempt and shows a runtime at work: whatever a runtime says, and the start of an agent, of
      a review gate, or of a stage that names a runtime. */
  predicate Shows(events: seq<Event>, i: int, k: string) {
    && 0 <= i < |events| && Attempt(events[i]) == Some(k)
    && match events[i].kind
       case Started(agent, reviewGate, namesRuntime) => agent || reviewGate || namesRuntime
       case Elsewhere => false
       case _ => true
  }

  /** The attempts that are counted are those that some event shows at work, and a total is there exactly when an
      attempt contributes to it and it stays within the largest number. */
  lemma CountedWhen(events: seq<Event>, k: string, q: Quantity, largest: real)
    ensures k in RuntimeAttempts(events) <==> exists i :: Shows(events, i, k)
    ensures var reports := Reports(events);
      var having := Having(q, reports);
      && (k in having ==> exists i :: Shows(events, i, k))
      && Known(RunningOf(q, reports, having, largest))
         == if having != {} && SumOver(q, reports, having) <= largest then Some(SumOver(q, reports, having)) else None
  {
    hide Attempt, Part, Reports;
    if i :| 0 <= i < |events| && AtRuntime(events[i]) && Attempt(events[i]) == Some(k) { assert Shows(events, i, k); }
    if i :| Shows(events, i, k) { assert AtRuntime(events[i]) && Attempt(events[i]).value == k; }
    ReportsAreRuntime(events);
  }

  /** The event reports the usage of the attempt. */
  predicate ReportsAt(events: seq<Event>, i: int, k: string) {
    0 <= i < |events| && events[i].kind.Reported? && Attempt(events[i]) == Some(k)
  }

  /** The report of an attempt that counts is its last one. */
  lemma {:induction false} LastReportCounts(events: seq<Event>, i: int, k: string)
    requires ReportsAt(events, i, k) && forall j :: i < j < |events| ==> !ReportsAt(events, j, k)
    ensures k in Reports(events) && Reports(events)[k] == events[i].kind.usage
  {
    hide Attempt;
    var n := |events| - 1;
    if i < n {
      var front := events[..n];
      assert !ReportsAt(events, n, k);
      forall j | i <= j < n ensures ReportsAt(front, j, k) <==> ReportsAt(events, j, k) {}
      LastReportCounts(front, i, k);
    }
  }

  /** And nothing else is counted. */
  lemma {:induction false} OnlyReportsCount(events: seq<Event>, k: string)
    requires k in Reports(events)
    ensures exists i :: ReportsAt(events, i, k)
  {
    hide Attempt;
    var n := |events| - 1;
    if events[n].kind.Reported? && Attempt(events[n]) == Some(k) {
      assert ReportsAt(events, n, k);
    } else {
      OnlyReportsCount(events[..n], k);
      var i :| ReportsAt(events[..n], i, k);
      assert ReportsAt(events, i, k);
    }
  }

  /** Tokens count when nothing is malformed and what is given adds up to one total; a cost counts when it is an amount
      of its own kind from a traced source of that kind, and an estimate when its method is named as well. */
  lemma PartsMean(u: Usage, x: real)
    ensures Part(Tokens, u) == Some(x) <==>
      && u.input != Malformed && u.output != Malformed && u.total != Malformed
      && (u.total.Given? ==> x == u.total.n as real)
      && (u.input.Given? && u.output.Given? ==> x == (u.input.n + u.output.n) as real)
      && (u.total.Given? || (u.input.Given? && u.output.Given?))
    ensures Part(ActualUsd, u) == Some(x) <==>
      u.cost == Actual && u.usd == Amount(x) && x >= 0.0 && u.traced && u.source == ProviderReported
    ensures Part(EstimatedUsd, u) == Some(x) <==>
      && u.cost == Estimated && u.usd == Amount(x) && x >= 0.0 && u.traced && u.source == Calculated
      && u.how == NamedMethod
  {}

  /** An attempt is known when any total gets something from it, when it gives one side of its tokens, or when a traced
      source says that its cost is unknown. */
  lemma KnownWhen(u: Usage)
    ensures KnownUsage(u) <==>
      || Part(Tokens, u).Some? || Part(ActualUsd, u).Some? || Part(EstimatedUsd, u).Some?
      || (u.total == Absent && ((u.input.Given? && u.output == Absent) || (u.input == Absent && u.output.Given?)))
      || (u.cost == Unknown && u.usd == NoUsd && u.how == NoMethod && u.traced && u.source != OtherSource)
  {}
}
