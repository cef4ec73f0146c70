/** Recommending a model for a stage: the frontier of candidates that no other candidate dominates. */
module Routing {
  import opened Text

  /** A metric value; an unknown average counts as positive infinity. */
  datatype Number = Finite(v: real) | Infinity

  predicate Le(a: Number, b: Number) { b.Infinity? || (a.Finite? && a.v <= b.v) }

  predicate Lt(a: Number, b: Number) { a.Finite? && (b.Infinity? || a.v < b.v) }

  datatype CostKind = Actual | Estimated

  datatype Cost = Cost(kind: CostKind, usd: real)

  datatype Metrics = Metrics(
    scoring: real, reviewable: real, gate: real, retries: Number, rework: Number, latency: Number, cost: Option<Cost>,
    incomplete: Option<real>)

  // ---------------------------------------------------------------- dominance

  datatype Comparison = Comparison(left: Number, right: Number, larger: bool)

  predicate NoWorse(c: Comparison) { if c.larger then Le(c.right, c.left) else Le(c.left, c.right) }

  predicate StrictlyBetter(c: Comparison) { if c.larger then Lt(c.right, c.left) else Lt(c.left, c.right) }

  /** Rates of incomplete runs are compared when both are known, costs when both are of the same kind. */
  function Comparisons(l: Metrics, r: Metrics): seq<Comparison> {
    [ Comparison(Finite(l.scoring), Finite(r.scoring), true),
      Comparison(Finite(l.reviewable), Finite(r.reviewable), true),
      Comparison(Finite(l.gate), Finite(r.gate), true),
      Comparison(l.retries, r.retries, false),
      Comparison(l.rework, r.rework, false),
      Comparison(l.latency, r.latency, false)
    ] + (if l.incomplete.Some? && r.incomplete.Some? then
           [Comparison(Finite(l.incomplete.value), Finite(r.incomplete.value), false)] else [])
      + (if l.cost.Some? && r.cost.Some? && l.cost.value.kind == r.cost.value.kind then
           [Comparison(Finite(l.cost.value.usd), Finite(r.cost.value.usd), false)] else [])
  }

  ghost predicate Dominates(l: Metrics, r: Metrics) {
    var c := Comparisons(l, r);
    (forall i :: 0 <= i < |c| ==> NoWorse(c[i])) && exists i :: 0 <= i < |c| && StrictlyBetter(c[i])
  }

  method TestDominance(l: Metrics, r: Metrics) returns (dominates: bool)
    ensures dominates == Dominates(l, r)
  {
    var comparisons := Comparisons(l, r);
    hide Comparisons, NoWorse, StrictlyBetter;
    var strict := false;
    for n := 0 to |comparisons|
      invariant forall i :: 0 <= i < n ==> NoWorse(comparisons[i])
      invariant strict <==> exists i :: 0 <= i < n && StrictlyBetter(comparisons[i])
    {
      var better := StrictlyBetter(comparisons[n]);
      if !NoWorse(comparisons[n]) { return false; }
      strict := strict || better;
    }
    return strict;
  }

  // ---------------------------------------------------------------- dominance as an order

  predicate SameKind(l: Metrics, r: Metrics) {
    l.cost.Some? && r.cost.Some? && l.cost.value.kind == r.cost.value.kind
  }

  /** No worse on the six measures that every candidate has. */
  predicate SixNoWorse(l: Metrics, r: Metrics) {
    && l.scoring >= r.scoring && l.reviewable >= r.reviewable && l.gate >= r.gate
    && Le(l.retries, r.retries) && Le(l.rework, r.rework) && Le(l.latency, r.latency)
  }

  /** No worse on any measure that both have. */
  predicate WeaklyBetter(l: Metrics, r: Metrics) {
    && SixNoWorse(l, r)
    && (l.incomplete.Some? && r.incomplete.Some? ==> l.incomplete.value <= r.incomplete.value)
    && (SameKind(l, r) ==> l.cost.value.usd <= r.cost.value.usd)
  }

  lemma ComparisonsAgree(l: Metrics, r: Metrics)
    ensures |Comparisons(l, r)| == |Comparisons(r, l)|
    ensures forall i :: 0 <= i < |Comparisons(l, r)| ==>
      (StrictlyBetter(Comparisons(l, r)[i]) <==> !NoWorse(Comparisons(r, l)[i]))
  {}

  lemma NoWorseMeans(l: Metrics, r: Metrics)
    ensures (forall i :: 0 <= i < |Comparisons(l, r)| ==> NoWorse(Comparisons(l, r)[i])) <==> WeaklyBetter(l, r)
  {
    var c := Comparisons(l, r);
    assert c[0] == Comparison(Finite(l.scoring), Finite(r.scoring), true);
    assert c[1] == Comparison(Finite(l.reviewable), Finite(r.reviewable), true);
    assert c[2] == Comparison(Finite(l.gate), Finite(r.gate), true);
    assert c[3] == Comparison(l.retries, r.retries, false);
    assert c[4] == Comparison(l.rework, r.rework, false);
    assert c[5] == Comparison(l.latency, r.latency, false);
    var rated := l.incomplete.Some? && r.incomplete.Some?;
    assert rated ==> c[6] == Comparison(Finite(l.incomplete.value), Finite(r.incomplete.value), false);
    assert SameKind(l, r) ==>
      c[if rated then 7 else 6] == Comparison(Finite(l.cost.value.usd), Finite(r.cost.value.usd), false);
  }

  /** Dominance is being no worse on every shared measure without the other being so too. */
  lemma DominatesIff(l: Metrics, r: Metrics)
    ensures Dominates(l, r) <==> WeaklyBetter(l, r) && !WeaklyBetter(r, l)
  {
    NoWorseMeans(l, r);
    NoWorseMeans(r, l);
    ComparisonsAgree(l, r);
    hide Comparisons, NoWorse, StrictlyBetter;
  }

  /** The terminal outcomes are known, as eligibility requires. */
  predicate Rated(m: Metrics) { m.incomplete.Some? }

  ghost predicate RatedNoWorse(l: Metrics, r: Metrics) {
    Rated(l) && Rated(r) && SixNoWorse(l, r) && l.incomplete.value <= r.incomplete.value
  }

  /** A strict order that contains dominance: better on the rates and averages, or equal there and cheaper. */
  ghost predicate Preferred(l: Metrics, r: Metrics) {
    RatedNoWorse(l, r) && (!RatedNoWorse(r, l) || (SameKind(l, r) && l.cost.value.usd < r.cost.value.usd))
  }

  lemma DominanceIsPreference(l: Metrics, r: Metrics)
    requires Rated(l) && Rated(r) && Dominates(l, r)
    ensures Preferred(l, r)
  {
    DominatesIff(l, r);
    hide Dominates;
  }

  lemma PreferenceIsStrictOrder(a: Metrics, b: Metrics, c: Metrics)
    ensures !Preferred(a, a)
    ensures Preferred(a, b) && Preferred(b, c) ==> Preferred(a, c)
  {}

  /** Where outcomes are known, dominance composes exactly when the two ends do not have costs of one kind in the
      wrong order: the candidate in between may have been compared on none of them. */
  lemma DominanceComposesIff(a: Metrics, b: Metrics, c: Metrics)
    requires Rated(a) && Rated(b) && Rated(c) && Dominates(a, b) && Dominates(b, c)
    ensures Dominates(a, c) <==> !(SameKind(a, c) && a.cost.value.usd > c.cost.value.usd)
  {
    DominanceIsPreference(a, b);
    DominanceIsPreference(b, c);
    PreferenceIsStrictOrder(a, b, c);
    DominatesIff(a, c);
    hide Dominates;
  }

  function Plain(cost: Option<Cost>, incomplete: Option<real>): Metrics {
    Metrics(1.0, 1.0, 1.0, Finite(0.0), Finite(0.0), Finite(1.0), cost, incomplete)
  }

  /** Three candidates whose dominance does not compose: the middle one's cost is an estimate. */
  lemma DominanceIsNotTransitive()
    ensures var a, b, c := Plain(Some(Cost(Actual, 2.0)), Some(0.0)), Plain(Some(Cost(Estimated, 9.0)), Some(0.1)),
                           Plain(Some(Cost(Actual, 1.0)), Some(0.2));
      Dominates(a, b) && Dominates(b, c) && !Dominates(a, c)
  {
    var a, b, c := Plain(Some(Cost(Actual, 2.0)), Some(0.0)), Plain(Some(Cost(Estimated, 9.0)), Some(0.1)),
                   Plain(Some(Cost(Actual, 1.0)), Some(0.2));
    DominatesIff(a, b);
    DominatesIff(b, c);
    DominatesIff(a, c);
    hide Dominates;
  }

  // ---------------------------------------------------------------- chains of dominance

  /** Each one dominates the next. */
  ghost predicate Chain(path: seq<Metrics>) {
    forall i :: 0 <= i < |path| - 1 ==> Dominates(path[i], path[i + 1])
  }

  /** Along every chain of candidates with known outcomes the first is preferred to the last, so no chain of
      dominance returns to where it started. */
  lemma {:induction false} NoDominanceCycle(path: seq<Metrics>)
    requires |path| >= 2 && Chain(path) && forall i :: 0 <= i < |path| ==> Rated(path[i])
    ensures Preferred(path[0], path[|path| - 1])
    ensures path[0] != path[|path| - 1]
  {
    hide Dominates, Preferred;
    var n := |path| - 1;
    DominanceIsPreference(path[n - 1], path[n]);
    if n > 1 {
      NoDominanceCycle(path[..n]);
      PreferenceIsStrictOrder(path[0], path[n - 1], path[n]);
    }
    PreferenceIsStrictOrder(path[0], path[0], path[0]);
  }

  /** The same order with costs of one kind in the place of the outcomes. */
  ghost predicate CostNoWorse(l: Metrics, r: Metrics) {
    SameKind(l, r) && SixNoWorse(l, r) && l.cost.value.usd <= r.cost.value.usd
  }

  ghost predicate CostPreferred(l: Metrics, r: Metrics) {
    && CostNoWorse(l, r)
    && (!CostNoWorse(r, l) || (Rated(l) && Rated(r) && l.incomplete.value < r.incomplete.value))
  }

  /** Nor does a chain of candidates whose costs are all of one kind return to its start. */
  lemma {:induction false} NoCycleInOneKind(path: seq<Metrics>, kind: CostKind)
    requires |path| >= 2 && Chain(path)
    requires forall i :: 0 <= i < |path| ==> path[i].cost.Some? && path[i].cost.value.kind == kind
    ensures CostPreferred(path[0], path[|path| - 1])
    ensures path[0] != path[|path| - 1]
  {
    var n := |path| - 1;
    DominatesIff(path[n - 1], path[n]);
    hide Dominates;
    if n > 1 {
      NoCycleInOneKind(path[..n], kind);
      assert CostPreferred(path[0], path[n - 1]) && CostPreferred(path[n - 1], path[n]);
    }
  }

  /** Which of the two optional measures a candidate has. */
  datatype Shown = Shown(rated: bool, kind: Option<CostKind>)

  function ShownOf(m: Metrics): Shown {
    Shown(m.incomplete.Some?, if m.cost.Some? then Some(m.cost.value.kind) else None)
  }

  predicate Shares(a: Shown, b: Shown) { (a.rated && b.rated) || (a.kind.Some? && a.kind == b.kind) }

  function After(i: nat, n: nat): nat
    requires i < n
  {
    if i + 1 == n then 0 else i + 1
  }

  predicate OneKind(profile: seq<Shown>) {
    profile != [] && profile[0].kind.Some? && forall i :: 0 <= i < |profile| ==> profile[i].kind == profile[0].kind
  }

  /** Neighbours share an optional measure, one candidate has unknown outcomes, and costs are not all of one kind. */
  ghost predicate CanCycle(profile: seq<Shown>) {
    && (forall i :: 0 <= i < |profile| ==> Shares(profile[i], profile[After(i, |profile|)]))
    && (exists i :: 0 <= i < |profile| && !profile[i].rated)
    && !OneKind(profile)
  }

  /** A chain over candidates that have the given measures and that ends where it started. */
  ghost predicate Circle(profile: seq<Shown>, path: seq<Metrics>) {
    && |path| == |profile| + 1 >= 2 && Chain(path) && path[|profile|] == path[0]
    && forall i :: 0 <= i < |profile| ==> ShownOf(path[i]) == profile[i]
  }

  lemma {:induction false} SixAlong(path: seq<Metrics>, i: nat, j: nat)
    requires Chain(path) && i <= j < |path|
    ensures SixNoWorse(path[i], path[j])
    decreases j
  {
    if i < j {
      SixAlong(path, i, j - 1);
      DominatesIff(path[j - 1], path[j]);
      hide Dominates;
    }
  }

  /** In a circle the six measures are equal, so each step is decided by an optional measure that both have. */
  lemma CircleShares(profile: seq<Shown>, path: seq<Metrics>, i: nat)
    requires Circle(profile, path) && i < |profile|
    ensures Shares(profile[i], profile[After(i, |profile|)])
  {
    var n := |profile|;
    SixAlong(path, i + 1, n);
    SixAlong(path, 0, i);
    DominatesIff(path[i], path[i + 1]);
    hide Dominates, Chain;
    assert ShownOf(path[i + 1]) == profile[After(i, n)];
  }

  lemma CircleNeeds(profile: seq<Shown>, path: seq<Metrics>)
    requires Circle(profile, path)
    ensures CanCycle(profile)
  {
    forall i | 0 <= i < |profile| ensures Shares(profile[i], profile[After(i, |profile|)]) {
      CircleShares(profile, path, i);
    }
    hide Chain;
    assert ShownOf(path[0]) == profile[0];
    if forall i :: 0 <= i < |profile| ==> profile[i].rated {
      assert forall i :: 0 <= i < |path| ==> Rated(path[i]) by {
        forall i | 0 <= i < |path| ensures Rated(path[i]) {
          assert i < |profile| ==> ShownOf(path[i]) == profile[i];
        }
      }
      NoDominanceCycle(path);
    }
    if OneKind(profile) {
      forall i | 0 <= i < |path| ensures path[i].cost.Some? && path[i].cost.value.kind == profile[0].kind.value {
        assert i < |profile| ==> ShownOf(path[i]) == profile[i];
      }
      NoCycleInOneKind(path, profile[0].kind.value);
    }
  }

  /** Steps from `from` to `i` around a circle of n. */
  function Steps(from: nat, i: nat, n: nat): nat
    requires from < n && i < n
  {
    if i >= from then i - from else i + n - from
  }

  lemma StepsAfter(from: nat, i: nat, n: nat)
    requires from < n && i < n && After(i, n) != from
    ensures Steps(from, After(i, n), n) == Steps(from, i, n) + 1
  {}

  /** Outcomes get worse from the candidate without them, costs from the change of kind. */
  function Member(profile: seq<Shown>, unrated: nat, change: nat, i: nat): Metrics
    requires unrated < |profile| && change < |profile| && i < |profile|
  {
    var n := |profile|;
    Plain(if profile[i].kind.Some? then Some(Cost(profile[i].kind.value, Steps(change, i, n) as real)) else None,
          if profile[i].rated then Some(Steps(unrated, i, n) as real / n as real) else None)
  }

  lemma Share(a: nat, b: nat, n: nat)
    requires a < b && n > 0
    ensures a as real / n as real < b as real / n as real
  {}

  lemma MemberDominates(profile: seq<Shown>, unrated: nat, change: nat, i: nat)
    requires unrated < |profile| && change < |profile| && i < |profile|
    requires !profile[unrated].rated && Shares(profile[i], profile[After(i, |profile|)])
    requires forall k :: 0 <= k < |profile| && After(k, |profile|) == change ==>
      profile[k].kind.None? || profile[k].kind != profile[change].kind
    ensures Dominates(Member(profile, unrated, change, i), Member(profile, unrated, change, After(i, |profile|)))
  {
    var n := |profile|;
    var j := After(i, n);
    var l, r := Member(profile, unrated, change, i), Member(profile, unrated, change, j);
    if j != unrated {
      StepsAfter(unrated, i, n);
      Share(Steps(unrated, i, n), Steps(unrated, j, n), n);
    }
    if j != change { StepsAfter(change, i, n); }
    DominatesIff(l, r);
    hide Dominates;
  }

  /** Costs that are not all of one kind change kind, or are missing, between some neighbours. */
  lemma {:induction false} KindChanges(profile: seq<Shown>) returns (change: nat)
    requires profile != [] && !OneKind(profile)
    ensures change < |profile|
    ensures forall k :: 0 <= k < |profile| && After(k, |profile|) == change ==>
      profile[k].kind.None? || profile[k].kind != profile[change].kind
  {
    var n := |profile|;
    if profile[n - 1].kind.None? || profile[n - 1].kind != profile[0].kind { return 0; }
    change := 1;
    while change < n && profile[change].kind == profile[0].kind
      invariant 1 <= change <= n && forall i :: 0 <= i < change ==> profile[i].kind == profile[0].kind
    {
      change := change + 1;
    }
  }

  lemma BuildCircle(profile: seq<Shown>) returns (path: seq<Metrics>)
    requires CanCycle(profile)
    ensures Circle(profile, path)
  {
    var n := |profile|;
    var unrated :| 0 <= unrated < n && !profile[unrated].rated;
    var change := KindChanges(profile);
    hide OneKind;
    path := seq(n + 1, i requires 0 <= i <= n => Member(profile, unrated, change, if i == n then 0 else i));
    forall i | 0 <= i < n ensures Dominates(path[i], path[i + 1]) && ShownOf(path[i]) == profile[i] {
      MemberDominates(profile, unrated, change, i);
    }
    hide Dominates, Member, ShownOf;
  }

  /** Candidates that have given measures can dominate each other in a circle exactly when neighbours share an
      optional measure, one candidate has unknown outcomes, and the costs are not all of one kind. */
  lemma CircleExistsIff(profile: seq<Shown>)
    ensures (exists path :: Circle(profile, path)) <==> CanCycle(profile)
  {
    hide Circle, CanCycle;
    if path :| Circle(profile, path) { CircleNeeds(profile, path); }
    if CanCycle(profile) {
      var path := BuildCircle(profile);
    }
  }

  /** Four candidates in a circle, one of them without known outcomes. */
  lemma CycleWithoutOutcomes()
    ensures var a, b := Plain(Some(Cost(Actual, 1.0)), None), Plain(Some(Cost(Actual, 2.0)), Some(0.1));
      var c, d := Plain(Some(Cost(Estimated, 5.0)), Some(0.2)), Plain(Some(Cost(Actual, 0.5)), Some(0.3));
      Chain([a, b, c, d, a])
  {
    var a, b := Plain(Some(Cost(Actual, 1.0)), None), Plain(Some(Cost(Actual, 2.0)), Some(0.1));
    var c, d := Plain(Some(Cost(Estimated, 5.0)), Some(0.2)), Plain(Some(Cost(Actual, 0.5)), Some(0.3));
    DominatesIff(a, b);
    DominatesIff(b, c);
    DominatesIff(c, d);
    DominatesIff(d, a);
    hide Dominates;
    var path := [a, b, c, d, a];
    assert path[0] == a && path[1] == b && path[2] == c && path[3] == d && path[4] == a;
  }

  // ---------------------------------------------------------------- eligibility

  datatype Average = Average(missing: nat, value: Option<real>)

  /** Some(x) is a known average. */
  function AverageValue(a: Average): Option<real> { if a.missing == 0 then a.value else None }

  /** What a candidate's manifest and report say. The contract stands for the canonical text of the task contract;
      `lineage` pairs cases with runs; `clean` says that no coverage list of the report names a case. */
  datatype Evidence = Evidence(
    id: string, manifest: string, reportManifest: string, baseline: string, contract: string, flowMatches: bool,
    selectionMatches: bool, caseIds: seq<string>, expectedCaseIds: seq<string>, lineage: seq<(string, string)>,
    cohortMatches: bool, clean: bool, passed: bool, scoring: real, reviewable: real, gate: real,
    retries: Average, rework: Average, latency: Average, actualCost: Average, estimatedCost: Average,
    runs: nat, completed: Option<nat>, unknownAttempts: nat, tokens: Option<real>)

  datatype Budget = Budget(
    maxCandidates: nat, maxRuns: nat, maxCost: Option<real>, maxDuration: Option<real>, maxTokens: Option<real>)

  datatype Policy = Policy(
    baseline: string, minScoring: real, minReviewable: real, requireCompleteCases: bool, requireKnownCost: bool)

  /** What the first candidate sets for all of them. */
  datatype Expected = Expected(contract: string, caseIds: seq<string>)

  function ExpectedOf(all: seq<Evidence>): Expected {
    if all == [] then Expected("", []) else Expected(all[0].contract, all[0].expectedCaseIds)
  }

  /** Ids are compared after sorting. */
  predicate SameIds(l: seq<string>, r: seq<string>) { multiset(l) == multiset(r) }

  function CasesOf(lineage: seq<(string, string)>): seq<string> {
    seq(|lineage|, i requires 0 <= i < |lineage| => lineage[i].0)
  }

  function Runs(lineage: seq<(string, string)>): set<string> {
    set p | p in lineage :: p.1
  }

  predicate DistinctRuns(lineage: seq<(string, string)>) { |Runs(lineage)| == |lineage| }

  predicate CompleteCases(e: Evidence) {
    && SameIds(e.caseIds, e.expectedCaseIds) && SameIds(CasesOf(e.lineage), e.expectedCaseIds)
    && DistinctRuns(e.lineage) && e.cohortMatches && e.clean
  }

  function NumberOf(a: Average): Number {
    if AverageValue(a).Some? then Finite(AverageValue(a).value) else Infinity
  }

  function MetricsOf(e: Evidence): Metrics {
    var actual, estimated := AverageValue(e.actualCost), AverageValue(e.estimatedCost);
    Metrics(e.scoring, e.reviewable, e.gate, NumberOf(e.retries), NumberOf(e.rework), NumberOf(e.latency),
      if actual.Some? then Some(Cost(Actual, actual.value))
      else if estimated.Some? then Some(Cost(Estimated, estimated.value)) else None,
      if e.completed.None? || e.runs == 0 then None
      else Some((e.runs as real - e.completed.value as real) / e.runs as real))
  }

  function TotalRuns(all: seq<Evidence>): nat {
    if all == [] then 0 else TotalRuns(all[..|all| - 1]) + all[|all| - 1].runs
  }

  /** A sum that is unknown as soon as one part is. */
  function TotalOf(parts: seq<Option<real>>): Option<real> {
    if parts == [] then Some(0.0)
    else
      var before, last := TotalOf(parts[..|parts| - 1]), parts[|parts| - 1];
      if before.Some? && last.Some? then Some(before.value + last.value) else None
  }

  function CostPart(e: Evidence): Option<real> {
    var cost := MetricsOf(e).cost;
    if cost.Some? then Some(cost.value.usd * e.runs as real) else None
  }

  function DurationPart(e: Evidence): Option<real> {
    var latency := AverageValue(e.latency);
    if latency.Some? then Some(latency.value * e.runs as real) else None
  }

  function Parts(all: seq<Evidence>, part: Evidence -> Option<real>): seq<Option<real>> {
    seq(|all|, i requires 0 <= i < |all| => part(all[i]))
  }

  predicate Over(limit: Option<real>, observed: Option<real>) {
    limit.Some? && (observed.None? || observed.value > limit.value)
  }

  predicate Exhausted(all: seq<Evidence>, budget: Budget) {
    || |all| > budget.maxCandidates
    || TotalRuns(all) > budget.maxRuns
    || Over(budget.maxCost, TotalOf(Parts(all, CostPart)))
    || Over(budget.maxDuration, TotalOf(Parts(all, DurationPart)))
    || Over(budget.maxTokens, TotalOf(Parts(all, (e: Evidence) => e.tokens)))
  }

  /** No exclusion reason applies. */
  predicate Eligible(e: Evidence, policy: Policy, expected: Expected, exhausted: bool) {
    && e.reportManifest == e.manifest && e.baseline == policy.baseline && e.contract == expected.contract
    && e.flowMatches && e.selectionMatches && SameIds(e.caseIds, expected.caseIds)
    && (policy.requireCompleteCases ==> CompleteCases(e))
    && e.scoring >= policy.minScoring && e.reviewable >= policy.minReviewable
    && (policy.requireKnownCost ==> MetricsOf(e).cost.Some? && e.unknownAttempts == 0)
    && e.passed
    && AverageValue(e.retries).Some? && AverageValue(e.rework).Some? && AverageValue(e.latency).Some?
    && MetricsOf(e).incomplete.Some?
    && !exhausted
  }

  /** The eligible candidates, as positions in the experiment. */
  ghost function EligibleAt(all: seq<Evidence>, policy: Policy, budget: Budget): (r: set<nat>)
    ensures forall i :: i in r ==> i < |all|
  {
    set i: nat | i < |all| && Eligible(all[i], policy, ExpectedOf(all), Exhausted(all, budget))
  }

  ghost predicate Beats(all: seq<Evidence>, i: nat, j: nat)
    requires i < |all| && j < |all|
  {
    i != j && Dominates(MetricsOf(all[i]), MetricsOf(all[j]))
  }

  ghost function FrontierAt(all: seq<Evidence>, eligible: set<nat>): set<nat>
    requires forall i :: i in eligible ==> i < |all|
  {
    set i | i in eligible && forall j :: j in eligible ==> !Beats(all, j, i)
  }

  // ---------------------------------------------------------------- the recommendation

  datatype Status = Recommended(id: string) | InsufficientData | NoFeasibleCandidate

  predicate Increasing(s: seq<nat>) {
    forall i, j :: 0 <= i < j < |s| ==> s[i] < s[j]
  }

  ghost function Elements(s: seq<nat>): set<nat> { set i | i in s }

  lemma ElementsAppend(s: seq<nat>, i: nat)
    ensures Elements(s + [i]) == Elements(s) + {i}
  {}

  lemma IncreasingAppend(s: seq<nat>, i: nat)
    requires Increasing(s) && forall k :: k in Elements(s) ==> k < i
    ensures Increasing(s + [i])
  {
    forall m | 0 <= m < |s| ensures s[m] < i { assert s[m] in Elements(s); }
  }

  /** The id is that of a candidate that dominates the one at `i`. */
  ghost predicate NamesDominator(all: seq<Evidence>, eligible: set<nat>, i: nat, id: string) {
    i < |all| && exists j :: j in eligible && j < |all| && Beats(all, j, i) && all[j].id == id
  }

  ghost predicate AllDominators(all: seq<Evidence>, eligible: set<nat>, i: nat, ids: seq<string>) {
    && (forall id :: id in ids ==> NamesDominator(all, eligible, i, id))
    && (i < |all| ==> forall j :: j in eligible && j < |all| && Beats(all, j, i) ==> all[j].id in ids)
  }

  method Recommend(all: seq<Evidence>, policy: Policy, budget: Budget)
    returns (status: Status, frontier: seq<nat>, dominatedBy: map<nat, seq<string>>)
    ensures Increasing(frontier) && Elements(frontier) == FrontierAt(all, EligibleAt(all, policy, budget))
    ensures dominatedBy.Keys == EligibleAt(all, policy, budget)
    ensures forall i :: i in dominatedBy ==> AllDominators(all, EligibleAt(all, policy, budget), i, dominatedBy[i])
    ensures status ==
      if |frontier| == 1 && !Exhausted(all, budget) && frontier[0] < |all| then Recommended(all[frontier[0]].id)
      else if EligibleAt(all, policy, budget) == {} then NoFeasibleCandidate else InsufficientData
  {
    hide Exhausted, Beats, Increasing, Elements, AllDominators;
    var exhausted := TestBudget(all, budget);
    var eligible := ListEligible(all, policy, ExpectedOf(all), exhausted);
    ghost var candidates := EligibleAt(all, policy, budget);
    assert Elements(eligible) == candidates;
    frontier, dominatedBy := [], map[];
    NoElements();
    assert eligible[..0] == [];
    for n := 0 to |eligible|
      invariant dominatedBy.Keys == Elements(eligible[..n])
      invariant forall i :: i in dominatedBy ==> AllDominators(all, candidates, i, dominatedBy[i])
      invariant Elements(frontier) == Elements(eligible[..n]) * FrontierAt(all, candidates)
      invariant Increasing(frontier)
    {
      hide EligibleAt;
      var i := eligible[n];
      Prefix(eligible, n);
      var winners := DominatorsOf(all, eligible, i);
      dominatedBy := dominatedBy[i := winners];
      FrontierIff(all, candidates, i, winners);
      if winners == [] {
        IncreasingAppend(frontier, i);
        ElementsAppend(frontier, i);
        frontier := frontier + [i];
      }
    }
    assert eligible[..|eligible|] == eligible;
    hide FrontierAt;
    if |frontier| == 1 && !exhausted {
      SomeElement(frontier);
      status := Recommended(all[frontier[0]].id);
    } else if |eligible| == 0 {
      NoElements();
      status := NoFeasibleCandidate;
    } else {
      SomeElement(eligible);
      status := InsufficientData;
    }
  }

  lemma NoElements()
    ensures Elements([]) == {} && Increasing([])
  {}

  lemma SomeElement(s: seq<nat>)
    requires s != []
    ensures s[0] in Elements(s)
  {}

  lemma Prefix(s: seq<nat>, n: nat)
    requires n < |s| && Increasing(s)
    ensures s[n] in Elements(s)
    ensures Elements(s[..n + 1]) == Elements(s[..n]) + {s[n]}
    ensures forall k :: k in Elements(s[..n]) ==> k < s[n]
  {
    assert s[..n + 1] == s[..n] + [s[n]];
  }

  lemma FrontierIff(all: seq<Evidence>, eligible: set<nat>, i: nat, winners: seq<string>)
    requires forall k :: k in eligible ==> k < |all|
    requires i in eligible && AllDominators(all, eligible, i, winners)
    ensures winners == [] <==> i in FrontierAt(all, eligible)
  {
    hide Beats;
    if winners != [] { assert winners[0] in winners; }
  }

  method ListEligible(
    all: seq<Evidence>, policy: Policy, expected: Expected, exhausted: bool
  ) returns (eligible: seq<nat>)
    ensures Increasing(eligible)
    ensures Elements(eligible) == set i: nat | i < |all| && Eligible(all[i], policy, expected, exhausted)
  {
    hide Eligible, Increasing;
    eligible := [];
    NoElements();
    for n := 0 to |all|
      invariant Increasing(eligible)
      invariant Elements(eligible) == set i: nat | i < n && Eligible(all[i], policy, expected, exhausted)
    {
      if Eligible(all[n], policy, expected, exhausted) {
        IncreasingAppend(eligible, n);
        ElementsAppend(eligible, n);
        eligible := eligible + [n];
      }
    }
  }

  method DominatorsOf(all: seq<Evidence>, eligible: seq<nat>, i: nat) returns (winners: seq<string>)
    requires i < |all| && forall j :: j in Elements(eligible) ==> j < |all|
    ensures AllDominators(all, Elements(eligible), i, winners)
  {
    winners := [];
    assert forall m :: 0 <= m < |eligible| ==> eligible[m] in Elements(eligible);
    for n := 0 to |eligible|
      invariant forall id :: id in winners ==> NamesDominator(all, Elements(eligible), i, id)
      invariant forall m :: 0 <= m < n && Beats(all, eligible[m], i) ==> all[eligible[m]].id in winners
    {
      var j := eligible[n];
      assert j in Elements(eligible);
      var dominates := TestDominance(MetricsOf(all[j]), MetricsOf(all[i]));
      hide Dominates, MetricsOf;
      if i != j && dominates {
        assert Beats(all, j, i);
        assert NamesDominator(all, Elements(eligible), i, all[j].id);
        winners := winners + [all[j].id];
      }
    }
  }

  method TestBudget(all: seq<Evidence>, budget: Budget) returns (exhausted: bool)
    ensures exhausted == Exhausted(all, budget)
  {
    hide CostPart, DurationPart;
    var runs := 0;
    var cost, duration, tokens := Some(0.0), Some(0.0), Some(0.0);
    var token := (e: Evidence) => e.tokens;
    for n := 0 to |all|
      invariant runs == TotalRuns(all[..n])
      invariant cost == TotalOf(Parts(all[..n], CostPart))
      invariant duration == TotalOf(Parts(all[..n], DurationPart))
      invariant tokens == TotalOf(Parts(all[..n], token))
    {
      assert all[..n + 1][..n] == all[..n];
      PartsStep(all, n, CostPart);
      PartsStep(all, n, DurationPart);
      PartsStep(all, n, token);
      runs := runs + all[n].runs;
      cost := Plus(cost, CostPart(all[n]));
      duration := Plus(duration, DurationPart(all[n]));
      tokens := Plus(tokens, all[n].tokens);
    }
    assert all[..|all|] == all;
    exhausted := |all| > budget.maxCandidates || runs > budget.maxRuns || Over(budget.maxCost, cost)
      || Over(budget.maxDuration, duration) || Over(budget.maxTokens, tokens);
  }

  function Plus(a: Option<real>, b: Option<real>): Option<real> {
    if a.Some? && b.Some? then Some(a.value + b.value) else None
  }

  lemma PartsStep(all: seq<Evidence>, n: nat, part: Evidence -> Option<real>)
    requires n < |all|
    ensures TotalOf(Parts(all[..n + 1], part)) == Plus(TotalOf(Parts(all[..n], part)), part(all[n]))
  {
    assert Parts(all[..n + 1], part)[..n] == Parts(all[..n], part);
  }

  // ---------------------------------------------------------------- the frontier covers everything

  /** Every candidate is on the given path of positions, each of which beats the next. */
  ghost predicate BeatingPath(all: seq<Evidence>, eligible: set<nat>, path: seq<nat>)
    requires forall i :: i in eligible ==> i < |all|
  {
    && (forall k :: 0 <= k < |path| ==> path[k] in eligible)
    && forall k :: 0 <= k < |path| - 1 ==> Beats(all, path[k], path[k + 1])
  }

  ghost function Above(all: seq<Evidence>, eligible: set<nat>, i: nat): set<nat>
    requires i < |all| && forall j :: j in eligible ==> j < |all|
  {
    set j | j in eligible && Preferred(MetricsOf(all[j]), MetricsOf(all[i]))
  }

  lemma FewerAbove(all: seq<Evidence>, eligible: set<nat>, j: nat, i: nat)
    requires forall k :: k in eligible ==> k < |all| && Rated(MetricsOf(all[k]))
    requires i in eligible && j in eligible && Beats(all, j, i)
    ensures Above(all, eligible, j) < Above(all, eligible, i)
  {
    DominanceIsPreference(MetricsOf(all[j]), MetricsOf(all[i]));
    hide MetricsOf, Preferred, Dominates;
    forall k | k in Above(all, eligible, j) ensures k in Above(all, eligible, i) {
      PreferenceIsStrictOrder(MetricsOf(all[k]), MetricsOf(all[j]), MetricsOf(all[i]));
    }
    PreferenceIsStrictOrder(MetricsOf(all[j]), MetricsOf(all[j]), MetricsOf(all[j]));
    assert j in Above(all, eligible, i) && j !in Above(all, eligible, j);
  }

  lemma PathAppend(all: seq<Evidence>, eligible: set<nat>, path: seq<nat>, i: nat)
    requires forall k :: k in eligible ==> k < |all|
    requires path != [] && BeatingPath(all, eligible, path) && i in eligible && Beats(all, path[|path| - 1], i)
    ensures BeatingPath(all, eligible, path + [i])
  {}

  /** Below every candidate that is not on the frontier hangs a finite chain of dominance from one that is. */
  lemma {:induction false} FrontierAbove(all: seq<Evidence>, eligible: set<nat>, i: nat) returns (path: seq<nat>)
    requires forall k :: k in eligible ==> k < |all| && Rated(MetricsOf(all[k]))
    requires i in eligible
    ensures |path| >= 1 && BeatingPath(all, eligible, path) && path[|path| - 1] == i
      && path[0] in FrontierAt(all, eligible)
    decreases Above(all, eligible, i)
  {
    hide MetricsOf, Rated, Beats;
    if i in FrontierAt(all, eligible) {
      path := [i];
    } else {
      var j :| j in eligible && Beats(all, j, i);
      FewerAbove(all, eligible, j, i);
      path := FrontierAbove(all, eligible, j);
      PathAppend(all, eligible, path, i);
      path := path + [i];
    }
  }

  /** A finite chain of dominance leads from the one position down to the other. */
  ghost predicate StandsAbove(all: seq<Evidence>, eligible: set<nat>, top: nat, i: nat)
    requires forall k :: k in eligible ==> k < |all|
  {
    exists path :: |path| >= 1 && BeatingPath(all, eligible, path) && path[0] == top && path[|path| - 1] == i
  }

  /** The frontier is part of the eligible set, and each eligible candidate is below a member of it. */
  ghost predicate Covers(all: seq<Evidence>, frontier: set<nat>, eligible: set<nat>)
    requires forall k :: k in eligible ==> k < |all|
  {
    frontier <= eligible && forall i :: i in eligible ==>
      exists top :: top in frontier && StandsAbove(all, eligible, top, i)
  }

  lemma FrontierCovers(all: seq<Evidence>, eligible: set<nat>)
    requires forall k :: k in eligible ==> k < |all| && Rated(MetricsOf(all[k]))
    ensures Covers(all, FrontierAt(all, eligible), eligible)
  {
    hide MetricsOf, Rated, Beats;
    assert FrontierAt(all, eligible) <= eligible;
    hide FrontierAt;
    forall i | i in eligible
      ensures exists top :: top in FrontierAt(all, eligible) && StandsAbove(all, eligible, top, i)
    {
      var path := FrontierAbove(all, eligible, i);
      hide BeatingPath;
      assert StandsAbove(all, eligible, path[0], i);
    }
  }

  lemma EligibleAreRated(all: seq<Evidence>, policy: Policy, budget: Budget)
    ensures forall k :: k in EligibleAt(all, policy, budget) ==> k < |all| && Rated(MetricsOf(all[k]))
    ensures Exhausted(all, budget) ==> EligibleAt(all, policy, budget) == {}
  {
    hide Exhausted;
  }

  lemma CoversSingle(all: seq<Evidence>, frontier: set<nat>, eligible: set<nat>)
    requires (forall k :: k in eligible ==> k < |all|) && Covers(all, frontier, eligible)
    ensures frontier == {} <==> eligible == {}
    ensures forall top, i :: frontier == {top} && i in eligible ==> StandsAbove(all, eligible, top, i)
  {
    hide StandsAbove;
  }

  /** A recommendation is made exactly when the frontier has one member, data is insufficient exactly when it has
      several, and no candidate is feasible exactly when it has none; a single member stands above all the others. */
  lemma StatusCountsFrontier(all: seq<Evidence>, policy: Policy, budget: Budget)
    ensures var eligible := EligibleAt(all, policy, budget);
      var frontier := FrontierAt(all, eligible);
      && Covers(all, frontier, eligible)
      && (frontier == {} <==> eligible == {})
      && (Exhausted(all, budget) ==> frontier == {})
      && (forall top, i :: frontier == {top} && i in eligible ==> StandsAbove(all, eligible, top, i))
  {
    hide Exhausted, MetricsOf, Rated, EligibleAt, FrontierAt, StandsAbove, Covers;
    var eligible := EligibleAt(all, policy, budget);
    EligibleAreRated(all, policy, budget);
    FrontierCovers(all, eligible);
    CoversSingle(all, FrontierAt(all, eligible), eligible);
  }

  // ---------------------------------------------------------------- what is compared

  lemma RunsAppend(front: seq<(string, string)>, p: (string, string))
    ensures Runs(front + [p]) == Runs(front) + {p.1}
  {
    forall x ensures x in Runs(front + [p]) <==> x in Runs(front) || x == p.1 {
      if x == p.1 { assert p in front + [p]; }
      if x in Runs(front) {
        var q :| q in front && q.1 == x;
        assert q in front + [p];
      }
    }
  }

  lemma RunListed(front: seq<(string, string)>, x: string)
    ensures x in Runs(front) <==> exists i :: 0 <= i < |front| && front[i].1 == x
  {
    if i :| 0 <= i < |front| && front[i].1 == x { assert front[i] in front; }
  }

  ghost predicate AllDiffer(lineage: seq<(string, string)>) {
    forall i, j :: 0 <= i < j < |lineage| ==> lineage[i].1 != lineage[j].1
  }

  lemma DifferAppend(front: seq<(string, string)>, p: (string, string))
    ensures AllDiffer(front + [p]) <==> AllDiffer(front) && p.1 !in Runs(front)
  {
    RunListed(front, p.1);
    hide Runs;
    var all := front + [p];
    if AllDiffer(all) {
      forall i, j | 0 <= i < j < |front| ensures front[i].1 != front[j].1 {
        assert all[i] == front[i] && all[j] == front[j];
      }
      forall i | 0 <= i < |front| ensures front[i].1 != p.1 { assert all[i] == front[i] && all[|front|] == p; }
    }
  }

  /** A different run for every entry of the lineage. */
  lemma {:induction false} DistinctRunsDiffer(lineage: seq<(string, string)>)
    ensures |Runs(lineage)| <= |lineage| && (DistinctRuns(lineage) <==> AllDiffer(lineage))
  {
    if lineage == [] {
      assert Runs(lineage) == {};
    } else {
      var front, last := lineage[..|lineage| - 1], lineage[|lineage| - 1];
      assert lineage == front + [last];
      DistinctRunsDiffer(front);
      RunsAppend(front, last);
      DifferAppend(front, last);
      hide Runs, AllDiffer;
    }
  }

  /** Any two eligible candidates were measured against one baseline, under one contract, on the same cases, and on
      reports about their own manifests; with complete cases required, each case has one entry per listing in the
      lineage and every entry its own run. */
  lemma EligibleAreComparable(all: seq<Evidence>, policy: Policy, budget: Budget, i: nat, j: nat)
    requires i in EligibleAt(all, policy, budget) && j in EligibleAt(all, policy, budget)
    ensures all[i].baseline == all[j].baseline && all[i].contract == all[j].contract
    ensures multiset(all[i].caseIds) == multiset(all[j].caseIds)
    ensures all[i].reportManifest == all[i].manifest
    ensures policy.requireCompleteCases ==>
      && multiset(CasesOf(all[i].lineage)) == multiset(CasesOf(all[j].lineage)) == multiset(all[i].caseIds)
      && AllDiffer(all[i].lineage)
  {
    hide Exhausted, MetricsOf;
    DistinctRunsDiffer(all[i].lineage);
  }

  /** No sample is missing from the average. */
  predicate Whole(a: Average) { a.missing == 0 && a.value.Some? }

  /** Averages and outcomes that dominance compares are known. */
  predicate Measured(e: Evidence) {
    Whole(e.retries) && Whole(e.rework) && Whole(e.latency) && e.completed.Some? && e.runs > 0
  }

  function IncompleteShare(e: Evidence): real
    requires Measured(e)
  {
    (e.runs as real - e.completed.value as real) / e.runs as real
  }

  /** The actual cost where it is known, or else the estimate. */
  function KnownCost(e: Evidence): Option<Cost> {
    if Whole(e.actualCost) then Some(Cost(Actual, e.actualCost.value.value))
    else if Whole(e.estimatedCost) then Some(Cost(Estimated, e.estimatedCost.value.value))
    else None
  }

  /** At least as good on every measure that both have, costs only when of the same kind. */
  predicate AtLeastAsGood(l: Evidence, r: Evidence)
    requires Measured(l) && Measured(r)
  {
    && l.scoring >= r.scoring && l.reviewable >= r.reviewable && l.gate >= r.gate
    && l.retries.value.value <= r.retries.value.value && l.rework.value.value <= r.rework.value.value
    && l.latency.value.value <= r.latency.value.value && IncompleteShare(l) <= IncompleteShare(r)
    && var x, y := KnownCost(l), KnownCost(r);
    x.Some? && y.Some? && x.value.kind == y.value.kind ==> x.value.usd <= y.value.usd
  }

  /** Between measured candidates dominance is being at least as good without the other being so too. */
  lemma DominanceIsPareto(l: Evidence, r: Evidence)
    requires Measured(l) && Measured(r)
    ensures Dominates(MetricsOf(l), MetricsOf(r)) <==> AtLeastAsGood(l, r) && !AtLeastAsGood(r, l)
  {
    DominatesIff(MetricsOf(l), MetricsOf(r));
    hide Dominates;
  }

  /** Every eligible candidate is measured. */
  lemma EligibleIsMeasured(e: Evidence, policy: Policy, expected: Expected, exhausted: bool)
    requires Eligible(e, policy, expected, exhausted)
    ensures Measured(e) && Rated(MetricsOf(e))
  {
    hide CompleteCases, SameIds;
  }

  /** So dominance among eligible candidates always is, and it is what beats another candidate. */
  lemma EligibleDominance(all: seq<Evidence>, policy: Policy, budget: Budget, i: nat, j: nat)
    requires i in EligibleAt(all, policy, budget) && j in EligibleAt(all, policy, budget)
    ensures Measured(all[i]) && Measured(all[j])
    ensures Dominates(MetricsOf(all[i]), MetricsOf(all[j]))
       <==> AtLeastAsGood(all[i], all[j]) && !AtLeastAsGood(all[j], all[i])
    ensures Beats(all, i, j) <==> AtLeastAsGood(all[i], all[j]) && !AtLeastAsGood(all[j], all[i])
  {
    hide Exhausted, Eligible, Dominates, AtLeastAsGood, MetricsOf, Measured;
    EligibleIsMeasured(all[i], policy, ExpectedOf(all), Exhausted(all, budget));
    EligibleIsMeasured(all[j], policy, ExpectedOf(all), Exhausted(all, budget));
    DominanceIsPareto(all[i], all[j]);
  }

  /** The frontier is the Pareto frontier: the eligible candidates that no eligible one is better than. */
  lemma FrontierIsPareto(all: seq<Evidence>, policy: Policy, budget: Budget, i: nat)
    ensures i in FrontierAt(all, EligibleAt(all, policy, budget)) <==>
      && i in EligibleAt(all, policy, budget) && Measured(all[i])
      && forall j :: j in EligibleAt(all, policy, budget) ==>
           Measured(all[j]) && (AtLeastAsGood(all[j], all[i]) ==> AtLeastAsGood(all[i], all[j]))
  {
    hide Beats, EligibleAt, Measured, AtLeastAsGood;
    var eligible := EligibleAt(all, policy, budget);
    if i in eligible {
      forall j | j in eligible
        ensures Measured(all[j]) && Measured(all[i])
        ensures Beats(all, j, i) <==> AtLeastAsGood(all[j], all[i]) && !AtLeastAsGood(all[i], all[j])
      {
        EligibleDominance(all, policy, budget, j, i);
      }
      assert Measured(all[i]);
    }
  }

  // ---------------------------------------------------------------- who is eligible

  function SumOf(xs: seq<real>): real { if xs == [] then 0.0 else xs[0] + SumOf(xs[1..]) }

  /** The known values, in order. */
  function Values(parts: seq<Option<real>>): seq<real> {
    if parts == [] then [] else (if parts[0].Some? then [parts[0].value] else []) + Values(parts[1..])
  }

  lemma {:induction false} TotalMore(x: Option<real>, parts: seq<Option<real>>)
    ensures TotalOf([x] + parts) == Plus(x, TotalOf(parts))
    decreases |parts|
  {
    var all := [x] + parts;
    if parts == [] {
      assert all[..0] == [] && TotalOf([]) == Some(0.0) && all == [x];
    } else {
      var n := |parts| - 1;
      TotalMore(x, parts[..n]);
      assert all[..|all| - 1] == [x] + parts[..n] && all[|all| - 1] == parts[n];
    }
  }

  /** A total is known exactly when every part is, and is then their sum. */
  lemma {:induction false} TotalIsSum(parts: seq<Option<real>>)
    ensures TotalOf(parts) == if None in parts then None else Some(SumOf(Values(parts)))
  {
    if parts != [] {
      TotalIsSum(parts[1..]);
      TotalMore(parts[0], parts[1..]);
      assert parts == [parts[0]] + parts[1..];
      if parts[0].Some? { assert ([parts[0].value] + Values(parts[1..]))[1..] == Values(parts[1..]); }
    }
  }

  /** There is no limit, or everything is known and adds up to no more. */
  predicate Within(limit: Option<real>, parts: seq<Option<real>>) {
    limit.None? || (None !in parts && SumOf(Values(parts)) <= limit.value)
  }

  /** What all runs of each candidate cost, by the known cost of one. */
  function CostsOf(all: seq<Evidence>): seq<Option<real>> {
    seq(|all|, i requires 0 <= i < |all| =>
      var cost := KnownCost(all[i]);
      if cost.Some? then Some(cost.value.usd * all[i].runs as real) else None)
  }

  /** How long all runs of each candidate took, by the known latency of one. */
  function DurationsOf(all: seq<Evidence>): seq<Option<real>> {
    seq(|all|, i requires 0 <= i < |all| =>
      if Whole(all[i].latency) then Some(all[i].latency.value.value * all[i].runs as real) else None)
  }

  function TokensOf(all: seq<Evidence>): seq<Option<real>> {
    seq(|all|, i requires 0 <= i < |all| => all[i].tokens)
  }

  lemma PartsAre(all: seq<Evidence>)
    ensures Parts(all, CostPart) == CostsOf(all) && Parts(all, DurationPart) == DurationsOf(all)
    ensures Parts(all, (e: Evidence) => e.tokens) == TokensOf(all)
  {
    forall i | 0 <= i < |all|
      ensures Parts(all, CostPart)[i] == CostsOf(all)[i] && Parts(all, DurationPart)[i] == DurationsOf(all)[i]
    {
      var e := all[i];
      assert Parts(all, CostPart)[i] == CostPart(e) && Parts(all, DurationPart)[i] == DurationPart(e);
      assert MetricsOf(e).cost == KnownCost(e);
      if KnownCost(e).Some? {
        var usd := KnownCost(e).value.usd;
        assert CostPart(e).Some? && CostPart(e).value == usd * e.runs as real;
        assert CostsOf(all)[i].Some? && CostsOf(all)[i].value == usd * e.runs as real;
      }
      if Whole(e.latency) {
        var latency := e.latency.value.value;
        assert DurationPart(e).Some? && DurationPart(e).value == latency * e.runs as real;
        assert DurationsOf(all)[i].Some? && DurationsOf(all)[i].value == latency * e.runs as real;
      }
    }
  }

  function RunCount(all: seq<Evidence>): nat { if all == [] then 0 else all[0].runs + RunCount(all[1..]) }

  lemma {:induction false} RunsMore(e: Evidence, all: seq<Evidence>)
    ensures TotalRuns([e] + all) == e.runs + TotalRuns(all)
    decreases |all|
  {
    var whole := [e] + all;
    if all == [] {
      assert whole[..0] == [] && whole == [e];
    } else {
      var n := |all| - 1;
      RunsMore(e, all[..n]);
      assert whole[..|whole| - 1] == [e] + all[..n] && whole[|whole| - 1] == all[n];
    }
  }

  lemma {:induction false} RunsAdd(all: seq<Evidence>)
    ensures TotalRuns(all) == RunCount(all)
  {
    if all != [] {
      RunsAdd(all[1..]);
      RunsMore(all[0], all[1..]);
      assert all == [all[0]] + all[1..];
    }
  }

  /** The budget holds exactly when the candidates, their runs, and for each limit that is set their known totals stay
      within it; an unknown total does not. */
  lemma BudgetHoldsIff(all: seq<Evidence>, budget: Budget)
    ensures !Exhausted(all, budget) <==>
      && |all| <= budget.maxCandidates && RunCount(all) <= budget.maxRuns
      && Within(budget.maxCost, CostsOf(all)) && Within(budget.maxDuration, DurationsOf(all))
      && Within(budget.maxTokens, TokensOf(all))
  {
    PartsAre(all);
    RunsAdd(all);
    TotalIsSum(CostsOf(all));
    TotalIsSum(DurationsOf(all));
    TotalIsSum(TokensOf(all));
    hide TotalOf, SumOf, Values, Parts, CostsOf, DurationsOf, TokensOf;
  }

  /** Every case is covered once, by a run of its own, and no coverage list names one. */
  ghost predicate FullyCovered(e: Evidence) {
    && multiset(e.caseIds) == multiset(CasesOf(e.lineage)) == multiset(e.expectedCaseIds)
    && AllDiffer(e.lineage) && e.cohortMatches && e.clean
  }

  /** A candidate is eligible exactly when the budget holds, its reports are about its own manifest and about the
      experiment's baseline, contract, flow, selection and cases, they passed, reach the policy's rates, and know its
      retries, rework, latency and outcomes; with complete cases required it is fully covered, and with known costs
      required it has a cost and no unknown attempt. */
  lemma EligibleIff(all: seq<Evidence>, policy: Policy, budget: Budget, i: nat)
    requires i < |all|
    ensures var e := all[i];
      i in EligibleAt(all, policy, budget) <==>
        && !Exhausted(all, budget)
        && e.reportManifest == e.manifest && e.baseline == policy.baseline && e.contract == all[0].contract
        && e.flowMatches && e.selectionMatches && multiset(e.caseIds) == multiset(all[0].expectedCaseIds)
        && e.passed && e.scoring >= policy.minScoring && e.reviewable >= policy.minReviewable
        && Measured(e)
        && (policy.requireCompleteCases ==> FullyCovered(e))
        && (policy.requireKnownCost ==> KnownCost(e).Some? && e.unknownAttempts == 0)
  {
    DistinctRunsDiffer(all[i].lineage);
    hide Exhausted, AllDiffer, DistinctRuns;
  }
}
