/** Summing up the samples of a cohort and comparing it with a baseline. */
module CohortReport {
  import opened Text
  import opened ReviewerTotals

  datatype Terminal = Completed | Failed | Blocked | Cancelled

  datatype Sample = Sample(
    runId: string, cohortId: string, caseId: string, terminal: Option<Terminal>, reviewablePr: bool, gatesPassed: bool,
    scoringPassed: bool, retries: nat, rework: nat, latency: Option<real>, known: nat, unknown: nat,
    tokens: Option<real>, actual: Option<real>, estimated: Option<real>, reviewer: Option<CaseReview>)

  /** The stable text that decides between several samples of a case. */
  type Key = Sample -> string

  // ---------------------------------------------------------------- one sample for each case

  type Selection = map<string, Sample>

  /** The sample with the largest key wins. */
  function Select(cohortId: string, samples: seq<Sample>, key: Key): Selection {
    if samples == [] then map[]
    else Prefer(cohortId, Select(cohortId, samples[..|samples| - 1], key), samples[|samples| - 1], key)
  }

  function Prefer(cohortId: string, sel: Selection, s: Sample, key: Key): Selection {
    if s.cohortId == cohortId && (s.caseId !in sel || Less(key(sel[s.caseId]), key(s))) then sel[s.caseId := s] else sel
  }

  method SelectCohortSamples(cohortId: string, samples: seq<Sample>, key: Key) returns (selected: Selection)
    ensures selected == Select(cohortId, samples, key)
  {
    selected := map[];
    for n := 0 to |samples|
      invariant selected == Select(cohortId, samples[..n], key)
    {
      var sample := samples[n];
      assert samples[..n + 1][..n] == samples[..n];
      if sample.cohortId == cohortId {
        if sample.caseId !in selected || Less(key(selected[sample.caseId]), key(sample)) {
          selected := selected[sample.caseId := sample];
        }
      }
    }
    assert samples[..|samples|] == samples;
  }

  ghost predicate Offers(cohortId: string, samples: seq<Sample>, s: Sample, caseId: string) {
    s in samples && s.cohortId == cohortId && s.caseId == caseId
  }

  /** For each case with a sample, one of its samples that no other exceeds. */
  ghost predicate IsBest(cohortId: string, samples: seq<Sample>, key: Key, sel: Selection) {
    && (forall c :: c in sel <==> exists s :: Offers(cohortId, samples, s, c))
    && (forall c :: c in sel ==> Offers(cohortId, samples, sel[c], c))
    && (forall c, s :: c in sel && Offers(cohortId, samples, s, c) ==> !Less(key(sel[c]), key(s)))
  }

  lemma OffersMore(cohortId: string, front: seq<Sample>, s: Sample, t: Sample, c: string)
    ensures Offers(cohortId, front + [s], t, c)
       <==> Offers(cohortId, front, t, c) || (t == s && s.cohortId == cohortId && c == s.caseId)
  {}

  lemma PreferOffered(cohortId: string, front: seq<Sample>, s: Sample, key: Key, sel: Selection, c: string)
    requires IsBest(cohortId, front, key, sel)
    ensures var after := Prefer(cohortId, sel, s, key);
      && (c in after <==> exists t :: Offers(cohortId, front + [s], t, c))
      && (c in after ==> Offers(cohortId, front + [s], after[c], c))
  {
    hide Less;
    var after := Prefer(cohortId, sel, s, key);
    OffersMore(cohortId, front, s, s, c);
    if c in sel { OffersMore(cohortId, front, s, sel[c], c); }
    if t :| Offers(cohortId, front + [s], t, c) { OffersMore(cohortId, front, s, t, c); }
  }

  lemma PreferLargest(cohortId: string, front: seq<Sample>, s: Sample, key: Key, sel: Selection, t: Sample)
    requires IsBest(cohortId, front, key, sel) && Offers(cohortId, front + [s], t, t.caseId)
    requires t.caseId in Prefer(cohortId, sel, s, key)
    ensures !Less(key(Prefer(cohortId, sel, s, key)[t.caseId]), key(t))
  {
    var after, c := Prefer(cohortId, sel, s, key), t.caseId;
    OffersMore(cohortId, front, s, t, c);
    LessIrreflexive(key(t));
    hide Less, Offers;
    if c in sel && after[c] == s && t != s {
      NotBelowLarger(key(t), key(sel[c]), key(s));
    }
  }

  lemma {:induction false} SelectIsBest(cohortId: string, samples: seq<Sample>, key: Key)
    ensures IsBest(cohortId, samples, key, Select(cohortId, samples, key))
  {
    if samples != [] {
      var n := |samples| - 1;
      var front, s := samples[..n], samples[n];
      SelectIsBest(cohortId, front, key);
      var before, after := Select(cohortId, front, key), Select(cohortId, samples, key);
      assert samples == front + [s];
      hide Less, Offers, Prefer, Select;
      forall c ensures c in after <==> exists t :: Offers(cohortId, samples, t, c)
        ensures c in after ==> Offers(cohortId, samples, after[c], c)
      {
        PreferOffered(cohortId, front, s, key, before, c);
      }
      forall c, t | c in after && Offers(cohortId, samples, t, c) ensures !Less(key(after[c]), key(t)) {
        OfferedCase(cohortId, samples, t, c);
        PreferLargest(cohortId, front, s, key, before, t);
      }
    }
  }

  lemma OfferedCase(cohortId: string, samples: seq<Sample>, t: Sample, c: string)
    requires Offers(cohortId, samples, t, c)
    ensures t.caseId == c
  {}

  lemma NotBelowLarger(t: string, low: string, high: string)
    requires !Less(low, t)
    ensures Less(low, high) ==> !Less(high, t)
  {
    if Less(low, high) && Less(high, t) { LessTransitive(low, high, t); }
  }

  ghost function Elements(samples: seq<Sample>): set<Sample> { set s | s in samples }

  /** Different samples have different keys. */
  ghost predicate Telling(samples: seq<Sample>, key: Key) {
    forall s, t :: s in samples && t in samples && key(s) == key(t) ==> s == t
  }

  /** Neither the order of the samples nor repeating them changes the selection. */
  lemma SelectionIgnoresOrder(cohortId: string, a: seq<Sample>, b: seq<Sample>, key: Key)
    requires Elements(a) == Elements(b) && Telling(a, key)
    ensures Select(cohortId, a, key) == Select(cohortId, b, key)
  {
    var x, y := Select(cohortId, a, key), Select(cohortId, b, key);
    SelectIsBest(cohortId, a, key);
    SelectIsBest(cohortId, b, key);
    hide Less, Select;
    assert forall s :: s in a <==> s in b by {
      forall s ensures s in a <==> s in b { assert s in Elements(a) <==> s in Elements(b); }
    }
    assert forall s, c :: Offers(cohortId, a, s, c) <==> Offers(cohortId, b, s, c);
    forall c | c in x ensures c in y && x[c] == y[c] {
      assert Offers(cohortId, a, x[c], c);
      assert c in y;
      LessTotal(key(x[c]), key(y[c]));
    }
    assert x.Keys == y.Keys;
  }

  // ---------------------------------------------------------------- the summary

  ghost predicate IsLeast(ids: set<string>, m: string) {
    m in ids && forall k :: k in ids ==> k == m || Less(m, k)
  }

  lemma {:induction false} LeastExists(ids: set<string>)
    requires ids != {}
    ensures exists m :: IsLeast(ids, m)
    decreases ids
  {
    var k :| k in ids;
    if ids == {k} {
      assert IsLeast(ids, k);
    } else {
      LeastExists(ids - {k});
      var m :| IsLeast(ids - {k}, m);
      LessTotal(k, m);
      hide Less;
      if Less(k, m) {
        forall j | j in ids ensures j == k || Less(k, j) {
          if j != k && j != m { LessTransitive(k, m, j); }
        }
        assert IsLeast(ids, k);
      } else {
        assert IsLeast(ids, m);
      }
    }
  }

  /** The samples in the order of their cases. */
  ghost function InOrder(sel: Selection, ids: set<string>): seq<Sample>
    requires ids <= sel.Keys
    decreases ids
  {
    if ids == {} then []
    else
      LeastExists(ids);
      var m :| IsLeast(ids, m);
      [sel[m]] + InOrder(sel, ids - {m})
  }

  datatype Rate = Rate(numerator: nat, denominator: nat, value: real)

  datatype Average = Average(total: real, samples: nat, missing: nat, value: Option<real>)

  function CountTrue(values: seq<bool>): nat {
    if values == [] then 0 else CountTrue(values[1..]) + if values[0] then 1 else 0
  }

  function RateOf(values: seq<bool>): Rate {
    var n := CountTrue(values);
    Rate(n, |values|, if |values| > 0 then n as real / |values| as real else 0.0)
  }

  function Present(values: seq<Option<real>>): seq<real> {
    if values == [] then []
    else if values[0].Some? then [values[0].value] + Present(values[1..]) else Present(values[1..])
  }

  /** The sum, unless a running total passes the largest number or a value is negative. */
  function BoundedSum(values: seq<real>, sofar: real, largest: real): Option<real>
    decreases |values|
  {
    if values == [] then Some(sofar)
    else if values[0] < 0.0 || sofar + values[0] > largest then None
    else BoundedSum(values[1..], sofar + values[0], largest)
  }

  function Mean(total: real, n: nat): real
    requires n > 0
  {
    total / n as real
  }

  function AverageOf(values: seq<Option<real>>, largest: real): Average {
    var present := Present(values);
    var total := BoundedSum(present, 0.0, largest);
    if total.None? then Average(0.0, 0, |values|, None)
    else
      Average(total.value, |present|, if |values| >= |present| then |values| - |present| else 0,
        if present != [] then Some(Mean(total.value, |present|)) else None)
  }

  datatype Metric =
    | ReviewablePr
    | GatePass
    | Retries
    | Rework
    | Latency
    | ActualCost
    | EstimatedCost
    | CriticalRecall
    | OverallRecall
    | FalsePositives
    | PassOnDefective
    | FailOnKnownGood

  function Reading(m: Metric, s: Sample): Option<real> {
    match m
    case Retries => Some(s.retries as real)
    case Rework => Some(s.rework as real)
    case Latency => s.latency
    case ActualCost => s.actual
    case EstimatedCost => s.estimated
    case _ => None
  }

  datatype Summary = Summary(
    runs: nat, reviewable: Rate, gates: Rate, scoring: Rate, retries: Average, rework: Average, latency: Average,
    actual: Average, estimated: Average, outcomes: map<Option<Terminal>, nat>, known: Option<real>,
    unknown: Option<real>, tokens: Option<real>, reviewer: Option<CohortReviews>)

  const SAFE_LIMIT := 9007199254740991.0

  function Bools(samples: seq<Sample>, f: Sample -> bool): seq<bool> {
    seq(|samples|, i requires 0 <= i < |samples| => f(samples[i]))
  }

  function Readings(m: Metric, samples: seq<Sample>): seq<Option<real>> {
    seq(|samples|, i requires 0 <= i < |samples| => Reading(m, samples[i]))
  }

  function Numbers(samples: seq<Sample>, f: Sample -> real): seq<real> {
    seq(|samples|, i requires 0 <= i < |samples| => f(samples[i]))
  }

  function OutcomeCount(samples: seq<Sample>, t: Option<Terminal>): nat {
    CountTrue(Bools(samples, (s: Sample) => s.terminal == t))
  }

  /** The reviewer scores of the samples that have one. */
  function Reviews(all: seq<Sample>): seq<CaseReview> {
    if all == [] then []
    else Reviews(all[..|all| - 1]) + if all[|all| - 1].reviewer.Some? then [all[|all| - 1].reviewer.value] else []
  }

  function Summarise(all: seq<Sample>, largest: real): Summary {
    var tokens := Present(seq(|all|, i requires 0 <= i < |all| => all[i].tokens));
    Summary(|all|,
      RateOf(Bools(all, (s: Sample) => s.reviewablePr)), RateOf(Bools(all, (s: Sample) => s.gatesPassed)),
      RateOf(Bools(all, (s: Sample) => s.scoringPassed)),
      AverageOf(Readings(Retries, all), largest), AverageOf(Readings(Rework, all), largest),
      AverageOf(Readings(Latency, all), largest), AverageOf(Readings(ActualCost, all), largest),
      AverageOf(Readings(EstimatedCost, all), largest),
      map t | t in {Some(Completed), Some(Failed), Some(Blocked), Some(Cancelled), None} :: OutcomeCount(all, t),
      BoundedSum(Numbers(all, (s: Sample) => s.known as real), 0.0, SAFE_LIMIT),
      BoundedSum(Numbers(all, (s: Sample) => s.unknown as real), 0.0, SAFE_LIMIT),
      if tokens == [] then None else BoundedSum(tokens, 0.0, largest),
      if Reviews(all) == [] then None else Some(AggregateReviews(Reviews(all))))
  }

  ghost function Aggregate(cohortId: string, samples: seq<Sample>, key: Key, largest: real): Summary {
    var sel := Select(cohortId, samples, key);
    Summarise(InOrder(sel, sel.Keys), largest)
  }

  /** Permuting or repeating samples leaves the whole summary as it is. */
  lemma AggregateIgnoresOrder(cohortId: string, a: seq<Sample>, b: seq<Sample>, key: Key, largest: real)
    requires Elements(a) == Elements(b) && Telling(a, key)
    ensures Aggregate(cohortId, a, key, largest) == Aggregate(cohortId, b, key, largest)
  {
    SelectionIgnoresOrder(cohortId, a, b, key);
  }

  // ---------------------------------------------------------------- what the summary counts

  /** The cases whose selected sample has a property. */
  ghost function CasesWith(sel: Selection, ids: set<string>, f: Sample -> bool): set<string>
    requires ids <= sel.Keys
  {
    set c | c in ids && f(sel[c])
  }

  lemma {:induction false} CountedOnce(sel: Selection, ids: set<string>, f: Sample -> bool)
    requires ids <= sel.Keys
    ensures |InOrder(sel, ids)| == |ids| && CountTrue(Bools(InOrder(sel, ids), f)) == |CasesWith(sel, ids, f)|
    decreases ids
  {
    if ids == {} {
      assert CasesWith(sel, ids, f) == {};
    } else {
      LeastExists(ids);
      var m :| IsLeast(ids, m) && InOrder(sel, ids) == [sel[m]] + InOrder(sel, ids - {m});
      hide IsLeast, InOrder, CountTrue, Bools, CasesWith;
      LeastIsIn(ids, m);
      var rest := InOrder(sel, ids - {m});
      CountedOnce(sel, ids - {m}, f);
      CountMore(sel[m], rest, f);
      CasesMore(sel, ids, m, f);
    }
  }

  lemma CasesMore(sel: Selection, ids: set<string>, m: string, f: Sample -> bool)
    requires ids <= sel.Keys && m in ids
    ensures |CasesWith(sel, ids, f)| == |CasesWith(sel, ids - {m}, f)| + if f(sel[m]) then 1 else 0
  {
    assert CasesWith(sel, ids, f) == CasesWith(sel, ids - {m}, f) + if f(sel[m]) then {m} else {};
  }

  lemma CountMore(s: Sample, rest: seq<Sample>, f: Sample -> bool)
    ensures CountTrue(Bools([s] + rest, f)) == CountTrue(Bools(rest, f)) + if f(s) then 1 else 0
  {
    assert Bools([s] + rest, f)[1..] == Bools(rest, f);
  }

  lemma LeastIsIn(ids: set<string>, m: string)
    requires IsLeast(ids, m)
    ensures m in ids
  {}

  /** Every rate of a summary has the selected cases as its denominator and those with the property as its numerator,
      and each case has exactly one outcome. */
  lemma SummaryCounts(sel: Selection, largest: real)
    ensures var s, ids := Summarise(InOrder(sel, sel.Keys), largest), sel.Keys;
      && s.runs == |ids|
      && s.reviewable.denominator == s.gates.denominator == s.scoring.denominator == |ids|
      && s.reviewable.numerator == |CasesWith(sel, ids, (x: Sample) => x.reviewablePr)|
      && s.gates.numerator == |CasesWith(sel, ids, (x: Sample) => x.gatesPassed)|
      && s.scoring.numerator == |CasesWith(sel, ids, (x: Sample) => x.scoringPassed)|
      && s.outcomes.Keys == {Some(Completed), Some(Failed), Some(Blocked), Some(Cancelled), None}
      && s.outcomes[Some(Completed)] + s.outcomes[Some(Failed)] + s.outcomes[Some(Blocked)]
        + s.outcomes[Some(Cancelled)]
         + s.outcomes[None] == |ids|
  {
    var all := InOrder(sel, sel.Keys);
    CountedOnce(sel, sel.Keys, (x: Sample) => x.reviewablePr);
    CountedOnce(sel, sel.Keys, (x: Sample) => x.gatesPassed);
    CountedOnce(sel, sel.Keys, (x: Sample) => x.scoringPassed);
    OutcomesAddUp(all);
    hide InOrder, CasesWith, CountTrue, AverageOf, BoundedSum, OutcomeCount, Present;
  }

  lemma {:induction false} OutcomesAddUp(all: seq<Sample>)
    ensures OutcomeCount(all, Some(Completed)) + OutcomeCount(all, Some(Failed)) + OutcomeCount(all, Some(Blocked))
      + OutcomeCount(all, Some(Cancelled)) + OutcomeCount(all, None) == |all|
  {
    if all != [] {
      OutcomesAddUp(all[1..]);
      forall t: Option<Terminal> { OutcomeStep(all, t); }
      hide OutcomeCount;
      assert all[0].terminal in {Some(Completed), Some(Failed), Some(Blocked), Some(Cancelled), None} by {
        if all[0].terminal.Some? {
          match all[0].terminal.value case Completed => case Failed => case Blocked => case Cancelled =>
        }
      }
    }
  }

  lemma OutcomeStep(all: seq<Sample>, t: Option<Terminal>)
    requires all != []
    ensures OutcomeCount(all, t) == OutcomeCount(all[1..], t) + if all[0].terminal == t then 1 else 0
  {
    var f := (s: Sample) => s.terminal == t;
    assert Bools(all, f)[1..] == Bools(all[1..], f);
  }

  function Sum(xs: seq<real>): real { if xs == [] then 0.0 else xs[0] + Sum(xs[1..]) }

  lemma {:induction false} SumOfNonNegative(xs: seq<real>)
    requires forall i :: 0 <= i < |xs| ==> xs[i] >= 0.0
    ensures Sum(xs) >= 0.0
  {
    if xs != [] { SumOfNonNegative(xs[1..]); }
  }

  /** The bounded sum of amounts is their sum, unless that passes the largest number. */
  lemma {:induction false} BoundedSumExact(xs: seq<real>, sofar: real, largest: real)
    requires sofar <= largest && forall i :: 0 <= i < |xs| ==> xs[i] >= 0.0
    ensures BoundedSum(xs, sofar, largest) == if sofar + Sum(xs) <= largest then Some(sofar + Sum(xs)) else None
    decreases |xs|
  {
    if xs != [] {
      SumOfNonNegative(xs[1..]);
      if sofar + xs[0] <= largest { BoundedSumExact(xs[1..], sofar + xs[0], largest); }
    }
  }

  ghost predicate AllPresent(values: seq<Option<real>>) { forall i :: 0 <= i < |values| ==> values[i].Some? }

  ghost predicate NonNegative(values: seq<Option<real>>) {
    forall i :: 0 <= i < |values| && values[i].Some? ==> values[i].value >= 0.0
  }

  lemma {:induction false} PresentLaws(values: seq<Option<real>>)
    ensures |Present(values)| <= |values| && (|Present(values)| == |values| <==> AllPresent(values))
    ensures NonNegative(values) ==> forall i :: 0 <= i < |Present(values)| ==> Present(values)[i] >= 0.0
  {
    if values != [] {
      var rest := values[1..];
      PresentLaws(rest);
      assert AllPresent(values) <==> values[0].Some? && AllPresent(rest) by {
        forall i | 0 <= i < |rest| ensures rest[i] == values[i + 1] {}
        if values[0].Some? && AllPresent(rest) {
          forall i | 0 <= i < |values| ensures values[i].Some? {
            if i > 0 { assert rest[i - 1].Some?; }
          }
        }
      }
      assert NonNegative(values) ==> NonNegative(rest);
    }
  }

  lemma PresentSumBounded(values: seq<Option<real>>, largest: real)
    requires largest >= 0.0 && NonNegative(values)
    ensures BoundedSum(Present(values), 0.0, largest)
      == if Sum(Present(values)) <= largest then Some(Sum(Present(values))) else None
  {
    PresentLaws(values);
    BoundedSumExact(Present(values), 0.0, largest);
  }

  /** An average is the sum of the known amounts divided by their number; it is comparable exactly when there are
      values, none is missing and the sum does not pass the largest number. */
  lemma AverageMeans(values: seq<Option<real>>, largest: real)
    requires largest >= 0.0 && NonNegative(values)
    ensures var a, sum := AverageOf(values, largest), Sum(Present(values));
      && a.samples + a.missing == |values|
      && Complete(a) == if values != [] && sum <= largest && AllPresent(values) then Some(Mean(sum, |values|)) else None
  {
    PresentLaws(values);
    PresentSumBounded(values, largest);
    hide Present, BoundedSum, Sum, AllPresent, NonNegative, Mean;
  }

  // ---------------------------------------------------------------- what each value is

  function Amounts(all: seq<Sample>, amount: Sample -> Option<real>): seq<Option<real>> {
    seq(|all|, i requires 0 <= i < |all| => amount(all[i]))
  }

  /** The mean over all samples, when each has an amount and their sum does not pass the largest number. */
  function MeanOver(all: seq<Sample>, amount: Sample -> Option<real>, largest: real): Option<real> {
    var amounts := Amounts(all, amount);
    if all == [] || (exists i :: 0 <= i < |all| && amounts[i].None?) || Sum(Present(amounts)) > largest then None
    else Some(Mean(Sum(Present(amounts)), |all|))
  }

  function Share(all: seq<Sample>, f: Sample -> bool): Option<real> {
    if all == [] then None else Some(CountTrue(Bools(all, f)) as real / |all| as real)
  }

  lemma MeanIs(all: seq<Sample>, amount: Sample -> Option<real>, values: seq<Option<real>>, largest: real)
    requires largest >= 0.0 && NonNegative(values) && values == Amounts(all, amount)
    ensures Complete(AverageOf(values, largest)) == MeanOver(all, amount, largest)
  {
    AverageMeans(values, largest);
    hide AverageOf, Complete, Present, Sum, Mean;
    assert AllPresent(values) <==> !exists i :: 0 <= i < |all| && values[i].None?;
  }

  /** Amounts of a sample are not negative. */
  ghost predicate SampleOk(s: Sample) {
    && (s.latency.Some? ==> s.latency.value >= 0.0) && (s.tokens.Some? ==> s.tokens.value >= 0.0)
    && (s.actual.Some? ==> s.actual.value >= 0.0) && (s.estimated.Some? ==> s.estimated.value >= 0.0)
  }

  /** What is compared for each metric: shares of samples, means of amounts that are all known, and the reviewers'
      shares over all scores. */
  lemma ValuesMean(all: seq<Sample>, largest: real)
    requires largest >= 0.0 && forall i :: 0 <= i < |all| ==> SampleOk(all[i])
    ensures var s := Summarise(all, largest);
      && ValueOf(s, ReviewablePr) == Share(all, (x: Sample) => x.reviewablePr)
      && ValueOf(s, GatePass) == Share(all, (x: Sample) => x.gatesPassed)
      && ValueOf(s, Retries) == MeanOver(all, (x: Sample) => Some(x.retries as real), largest)
      && ValueOf(s, Rework) == MeanOver(all, (x: Sample) => Some(x.rework as real), largest)
      && ValueOf(s, Latency) == MeanOver(all, (x: Sample) => x.latency, largest)
      && ValueOf(s, ActualCost) == MeanOver(all, (x: Sample) => x.actual, largest)
      && ValueOf(s, EstimatedCost) == MeanOver(all, (x: Sample) => x.estimated, largest)
  {
    MeanIs(all, (x: Sample) => Some(x.retries as real), Readings(Retries, all), largest);
    MeanIs(all, (x: Sample) => Some(x.rework as real), Readings(Rework, all), largest);
    MeanIs(all, (x: Sample) => x.latency, Readings(Latency, all), largest);
    MeanIs(all, (x: Sample) => x.actual, Readings(ActualCost, all), largest);
    MeanIs(all, (x: Sample) => x.estimated, Readings(EstimatedCost, all), largest);
    hide MeanOver, AverageOf, Complete, BoundedSum, Present, CountTrue, Reviews, ReviewerTotals.AggregateReviews;
  }

  function SumUpTo(xs: seq<real>, largest: real): Option<real> { if Sum(xs) <= largest then Some(Sum(xs)) else None }

  /** Attempts are added up to the largest safe integer, and tokens to the largest number over the samples that know
      them. */
  lemma UsageSums(all: seq<Sample>, largest: real)
    requires largest >= 0.0 && forall i :: 0 <= i < |all| ==> SampleOk(all[i])
    ensures var s, tokens := Summarise(all, largest), Present(Amounts(all, (x: Sample) => x.tokens));
      && s.known == SumUpTo(Numbers(all, (x: Sample) => x.known as real), 9007199254740991.0)
      && s.unknown == SumUpTo(Numbers(all, (x: Sample) => x.unknown as real), 9007199254740991.0)
      && s.tokens == if tokens == [] then None else SumUpTo(tokens, largest)
  {
    var tokens := Amounts(all, (x: Sample) => x.tokens);
    BoundedSumExact(Numbers(all, (x: Sample) => x.known as real), 0.0, SAFE_LIMIT);
    BoundedSumExact(Numbers(all, (x: Sample) => x.unknown as real), 0.0, SAFE_LIMIT);
    PresentSumBounded(tokens, largest);
    assert tokens == seq(|all|, i requires 0 <= i < |all| => all[i].tokens);
    hide BoundedSum, Sum, Present, AverageOf, Reviews, CountTrue, ReviewerTotals.AggregateReviews, RateOf;
  }

  function ScoresOf(all: seq<Sample>): seq<CaseReview> {
    if all == [] then []
    else (if all[0].reviewer.Some? then [all[0].reviewer.value] else []) + ScoresOf(all[1..])
  }

  lemma {:induction false} ReviewsAppend(a: seq<Sample>, b: seq<Sample>)
    ensures Reviews(a + b) == Reviews(a) + Reviews(b)
  {
    if b == [] {
      assert a + b == a;
    } else {
      ReviewsAppend(a, b[..|b| - 1]);
      assert (a + b)[..|a + b| - 1] == a + b[..|b| - 1];
    }
  }

  lemma {:induction false} ReviewsAre(all: seq<Sample>)
    ensures Reviews(all) == ScoresOf(all)
  {
    if all != [] {
      ReviewsAre(all[1..]);
      ReviewsAppend([all[0]], all[1..]);
      assert all == [all[0]] + all[1..] && [all[0]][..0] == [];
    }
  }

  /** The five reviewer values, over the scores of all samples that have one. */
  lemma ReviewValuesMean(all: seq<Sample>, largest: real)
    ensures var s, scores := Summarise(all, largest), ScoresOf(all);
      var r := ReviewerTotals.AggregateReviews(scores);
      if scores == [] then
        forall m :: m in {CriticalRecall, OverallRecall, FalsePositives, PassOnDefective, FailOnKnownGood} ==>
          ValueOf(s, m).None?
      else
        && ValueOf(s, CriticalRecall) == Some(r.criticalRecall) && ValueOf(s, OverallRecall) == Some(r.recall)
        && ValueOf(s, FalsePositives) == Some(r.falsePositiveRate)
        && ValueOf(s, PassOnDefective) == Some(r.passOnDefectiveRate)
        && ValueOf(s, FailOnKnownGood) == Some(r.failOnKnownGoodRate)
  {
    ReviewsAre(all);
    hide Reviews, ScoresOf, AverageOf, BoundedSum, Present, RateOf, ReviewerTotals.AggregateReviews;
  }

  lemma {:induction false} InOrderMembers(sel: Selection, ids: set<string>)
    requires ids <= sel.Keys
    ensures forall s :: s in InOrder(sel, ids) ==> exists c :: c in ids && s == sel[c]
    decreases ids
  {
    if ids != {} {
      LeastExists(ids);
      var m :| IsLeast(ids, m) && InOrder(sel, ids) == [sel[m]] + InOrder(sel, ids - {m});
      LeastIsIn(ids, m);
      hide IsLeast, InOrder;
      InOrderMembers(sel, ids - {m});
    }
  }

  lemma SelectedOk(cohortId: string, samples: seq<Sample>, key: Key)
    requires forall s :: s in samples ==> SampleOk(s)
    ensures var sel := Select(cohortId, samples, key);
      forall s :: s in InOrder(sel, sel.Keys) ==> SampleOk(s)
  {
    var sel := Select(cohortId, samples, key);
    SelectIsBest(cohortId, samples, key);
    InOrderMembers(sel, sel.Keys);
    hide Select, InOrder, SampleOk;
    forall s | s in InOrder(sel, sel.Keys) ensures SampleOk(s) {
      var c :| c in sel.Keys && s == sel[c];
      assert Offers(cohortId, samples, sel[c], c);
    }
  }

  lemma SummaryNotNegative(all: seq<Sample>, largest: real, m: Metric)
    requires largest >= 0.0 && forall i :: 0 <= i < |all| ==> SampleOk(all[i])
    ensures var v := ValueOf(Summarise(all, largest), m); v.Some? ==> v.value >= 0.0
  {
    ValuesMean(all, largest);
    ReviewValuesMean(all, largest);
    match m
    case Retries => MeanNotNegative(all, (x: Sample) => Some(x.retries as real), largest);
    case Rework => MeanNotNegative(all, (x: Sample) => Some(x.rework as real), largest);
    case Latency => MeanNotNegative(all, (x: Sample) => x.latency, largest);
    case ActualCost => MeanNotNegative(all, (x: Sample) => x.actual, largest);
    case EstimatedCost => MeanNotNegative(all, (x: Sample) => x.estimated, largest);
    case ReviewablePr => ShareNotNegative(all, (x: Sample) => x.reviewablePr);
    case GatePass => ShareNotNegative(all, (x: Sample) => x.gatesPassed);
    case _ =>
      ReviewerTotals.SharesNotNegative(ScoresOf(all));
      hide ValueOf, Summarise, ReviewerTotals.AggregateReviews;
  }

  lemma ShareNotNegative(all: seq<Sample>, f: Sample -> bool)
    ensures Share(all, f).Some? ==> Share(all, f).value >= 0.0
  {}

  /** No value that is compared is negative. */
  lemma ValuesNotNegative(cohortId: string, samples: seq<Sample>, key: Key, largest: real, m: Metric)
    requires largest >= 0.0 && forall s :: s in samples ==> SampleOk(s)
    ensures var v := ValueOf(Aggregate(cohortId, samples, key, largest), m); v.Some? ==> v.value >= 0.0
  {
    SelectedOk(cohortId, samples, key);
    var sel := Select(cohortId, samples, key);
    hide Select, InOrder, SampleOk, Summarise, ValueOf;
    SummaryNotNegative(InOrder(sel, sel.Keys), largest, m);
  }

  lemma MeanNotNegative(all: seq<Sample>, amount: Sample -> Option<real>, largest: real)
    requires forall i :: 0 <= i < |all| && amount(all[i]).Some? ==> amount(all[i]).value >= 0.0
    ensures var v := MeanOver(all, amount, largest); v.Some? ==> v.value >= 0.0
  {
    var amounts := Amounts(all, amount);
    assert NonNegative(amounts);
    PresentLaws(amounts);
    SumOfNonNegative(Present(amounts));
    hide Sum, Present, NonNegative;
  }

  // ---------------------------------------------------------------- comparing

  datatype Threshold = MaxDecrease(d: real) | MaxIncrease(d: real)

  datatype Status = NotComparable | Passed | Regressed

  const EPSILON := 1.0 / 4503599627370496.0

  function ValueOf(s: Summary, m: Metric): Option<real> {
    match m
    case ReviewablePr => if s.reviewable.denominator > 0 then Some(s.reviewable.value) else None
    case GatePass => if s.gates.denominator > 0 then Some(s.gates.value) else None
    case Retries => Complete(s.retries)
    case Rework => Complete(s.rework)
    case Latency => Complete(s.latency)
    case ActualCost => Complete(s.actual)
    case EstimatedCost => Complete(s.estimated)
    case _ =>
      if s.reviewer.None? then None
      else
        var r := s.reviewer.value;
        match m
        case CriticalRecall => Some(r.criticalRecall)
        case OverallRecall => Some(r.recall)
        case FalsePositives => Some(r.falsePositiveRate)
        case PassOnDefective => Some(r.passOnDefectiveRate)
        case _ => Some(r.failOnKnownGoodRate)
  }

  function Complete(a: Average): Option<real> { if a.missing == 0 then a.value else None }

  function Compare(base: Option<real>, cand: Option<real>, t: Threshold): Status {
    if base.None? || cand.None? then NotComparable
    else if t.MaxDecrease? then
      if base.value - cand.value <= t.d + EPSILON then Passed else Regressed
    else
      var unbounded := base.value == 0.0 && cand.value > 0.0;
      var increase := if base.value == 0.0 then 0.0 else (cand.value - base.value) / base.value;
      if !unbounded && increase <= t.d + EPSILON then Passed else Regressed
  }

  lemma QuotientBound(x: real, y: real, d: real)
    requires y > 0.0
    ensures x / y <= d <==> x <= d * y
  {}

  /** A metric regresses exactly when the candidate is beyond the allowance: the baseline less the allowed decrease,
      or the baseline increased by the allowed share of itself. */
  lemma RegressedIff(base: real, cand: real, t: Threshold)
    requires base >= 0.0 && cand >= 0.0 && t.d >= 0.0
    ensures Compare(Some(base), Some(cand), t) == Regressed <==>
      if t.MaxDecrease? then cand < base - t.d - EPSILON else cand > base + (t.d + EPSILON) * base
  {
    if t.MaxIncrease? && base > 0.0 { QuotientBound(cand - base, base, t.d + EPSILON); }
  }

  /** A better candidate never does worse against the same baseline. */
  lemma CompareMonotone(base: real, cand: real, better: real, t: Threshold)
    requires base >= 0.0 && cand >= 0.0 && better >= 0.0 && t.d >= 0.0
    requires if t.MaxDecrease? then better >= cand else better <= cand
    ensures Compare(Some(base), Some(better), t) == Regressed ==> Compare(Some(base), Some(cand), t) == Regressed
  {
    RegressedIff(base, cand, t);
    RegressedIff(base, better, t);
  }

  function ValuesFor(base: Summary, cand: Summary, thresholds: map<Metric, Threshold>): map<Metric, Status> {
    map m | m in thresholds :: Compare(ValueOf(base, m), ValueOf(cand, m), thresholds[m])
  }

  /** The verdict on the metrics once every case is covered. */
  function Verdict(statuses: map<Metric, Status>): Status {
    if exists m :: m in statuses && statuses[m] == Regressed then Regressed
    else if statuses == map[] || exists m :: m in statuses && statuses[m] == NotComparable then NotComparable
    else Passed
  }

  /** The second value of a metric is at least as good as the first, and known when the first is. */
  predicate NoWorse(cand: Option<real>, better: Option<real>, t: Threshold) {
    && (cand.Some? <==> better.Some?)
    && (cand.Some? ==> cand.value >= 0.0 && better.value >= 0.0)
    && (cand.Some? ==> if t.MaxDecrease? then better.value >= cand.value else better.value <= cand.value)
  }

  /** Improving a candidate in the measures with thresholds can clear regressions and never cause one. */
  lemma VerdictMonotone(base: Summary, cand: Summary, better: Summary, thresholds: map<Metric, Threshold>)
    requires forall m :: m in thresholds ==> thresholds[m].d >= 0.0
    requires forall m :: m in thresholds ==> NoWorse(ValueOf(cand, m), ValueOf(better, m), thresholds[m])
    requires forall m :: m in thresholds && ValueOf(base, m).Some? ==> ValueOf(base, m).value >= 0.0
    ensures
      var before := Verdict(ValuesFor(base, cand, thresholds));
      var after := Verdict(ValuesFor(base, better, thresholds));
      && (after.Regressed? ==> before.Regressed?) && (before.Passed? ==> after.Passed?)
  {
    hide ValueOf;
    var before, after := ValuesFor(base, cand, thresholds), ValuesFor(base, better, thresholds);
    forall m | m in thresholds
      ensures after[m] == Regressed ==> before[m] == Regressed
      ensures after[m] == NotComparable <==> before[m] == NotComparable
    {
      var x, y, z := ValueOf(base, m), ValueOf(cand, m), ValueOf(better, m);
      assert NoWorse(y, z, thresholds[m]);
      if x.Some? && y.Some? { CompareMonotone(x.value, y.value, z.value, thresholds[m]); }
    }
    assert before.Keys == after.Keys == thresholds.Keys;
  }

  lemma EqualNeverRegress(s: Summary, thresholds: map<Metric, Threshold>)
    requires forall m :: m in thresholds ==> thresholds[m].d >= 0.0
    ensures forall m :: m in ValuesFor(s, s, thresholds) ==> ValuesFor(s, s, thresholds)[m] != Regressed
    ensures Verdict(ValuesFor(s, s, thresholds)) != Regressed
  {
    hide ValueOf;
  }

  /** Comparing a cohort with the same samples, in any order and however often repeated, never finds a regression. */
  lemma SameSamplesNeverRegress(
    cohortId: string, a: seq<Sample>, b: seq<Sample>, key: Key, largest: real, thresholds: map<Metric, Threshold>
  )
    requires Elements(a) == Elements(b) && Telling(a, key)
    requires forall m :: m in thresholds ==> thresholds[m].d >= 0.0
    ensures
      var base, cand := Aggregate(cohortId, a, key, largest), Aggregate(cohortId, b, key, largest);
      var statuses := ValuesFor(base, cand, thresholds);
      && (forall m :: m in statuses ==> statuses[m] != Regressed)
      && Verdict(statuses) != Regressed
  {
    AggregateIgnoresOrder(cohortId, a, b, key, largest);
    hide Aggregate, ValuesFor, Verdict;
    EqualNeverRegress(Aggregate(cohortId, a, key, largest), thresholds);
  }
}
