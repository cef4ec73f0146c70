/** Comparing a candidate cohort with its baseline: which cases are covered, and what the report then rests on. */
module CohortComparison {
  import opened Text
  import opened CohortReport
  import ReviewerTotals

  /** Case ids are unique in a manifest; a case is given by the text of its task contract. */
  datatype Manifest = Manifest(
    cohortId: string, baselineId: Option<string>, cases: map<string, string>, thresholds: map<Metric, Threshold>)

  datatype Coverage = Coverage(
    baseMissing: set<string>, candMissing: set<string>, baseDuplicate: set<string>, candDuplicate: set<string>,
    baseOnly: set<string>, candOnly: set<string>, incompatible: set<string>)

  datatype ReportStatus = Pass | Regression | InsufficientData

  datatype Report = Report(
    status: ReportStatus, base: Summary, cand: Summary, comparisons: map<Metric, Status>, coverage: Coverage)

  // ---------------------------------------------------------------- coverage

  ghost predicate HasSample(m: Manifest, samples: seq<Sample>, c: string) {
    exists s :: Offers(m.cohortId, samples, s, c)
  }

  ghost function MissingCases(m: Manifest, samples: seq<Sample>): set<string> {
    set c | c in m.cases && !HasSample(m, samples, c)
  }

  /** How many samples of the cohort a case has. */
  function Count(cohortId: string, samples: seq<Sample>, c: string): nat {
    if samples == [] then 0
    else
      Count(cohortId, samples[..|samples| - 1], c)
      + if samples[|samples| - 1].cohortId == cohortId && samples[|samples| - 1].caseId == c then 1 else 0
  }

  function DuplicateCases(m: Manifest, samples: seq<Sample>): set<string> {
    set c | c in m.cases && Count(m.cohortId, samples, c) > 1
  }

  method DuplicateCaseIds(m: Manifest, samples: seq<Sample>) returns (duplicates: set<string>)
    ensures duplicates == DuplicateCases(m, samples)
  {
    var counts: map<string, nat> := map[];
    for n := 0 to |samples|
      invariant forall c :: c in counts ==> c in m.cases
      invariant forall c :: c in m.cases ==> Count(m.cohortId, samples[..n], c) == GetOr(Lookup(counts, c), 0)
    {
      var sample := samples[n];
      assert samples[..n + 1][..n] == samples[..n];
      if sample.cohortId == m.cohortId && sample.caseId in m.cases {
        counts := counts[sample.caseId := GetOr(Lookup(counts, sample.caseId), 0) + 1];
      }
    }
    assert samples[..|samples|] == samples;
    duplicates := set c | c in counts && counts[c] > 1;
  }

  function CaseDifference(left: Manifest, right: Manifest): set<string> { left.cases.Keys - right.cases.Keys }

  function IncompatibleCases(base: Manifest, cand: Manifest): set<string> {
    set c | c in cand.cases && c in base.cases && base.cases[c] != cand.cases[c]
  }

  ghost function CoverageOf(
    base: Manifest, cand: Manifest, baseSamples: seq<Sample>, candSamples: seq<Sample>
  ): Coverage {
    Coverage(
      MissingCases(base, baseSamples), MissingCases(cand, candSamples),
      DuplicateCases(base, baseSamples), DuplicateCases(cand, candSamples),
      CaseDifference(base, cand), CaseDifference(cand, base), IncompatibleCases(base, cand))
  }

  predicate Insufficient(c: Coverage) {
    || c.baseMissing != {} || c.candMissing != {} || c.baseDuplicate != {} || c.candDuplicate != {}
    || c.baseOnly != {} || c.candOnly != {} || c.incompatible != {}
  }

  // ---------------------------------------------------------------- the report

  /** Only cases both manifests pose in the same way count. */
  function SharedCases(base: Manifest, cand: Manifest): set<string> {
    set c | c in base.cases && c in cand.cases && c !in IncompatibleCases(base, cand)
  }

  function OfCases(samples: seq<Sample>, cases: set<string>): seq<Sample> {
    if samples == [] then []
    else
      OfCases(samples[..|samples| - 1], cases)
      + if samples[|samples| - 1].caseId in cases then [samples[|samples| - 1]] else []
  }

  ghost function SharedSummary(
    m: Manifest, samples: seq<Sample>, shared: set<string>, key: Key, largest: real
  ): Summary {
    Aggregate(m.cohortId, OfCases(samples, shared), key, largest)
  }

  ghost function ReportOf(
    baseline: Summary, candidate: Summary, thresholds: map<Metric, Threshold>, coverage: Coverage
  ): Report {
    var comparisons := ValuesFor(baseline, candidate, thresholds);
    var status :=
      if Insufficient(coverage) then InsufficientData
      else
        match Verdict(comparisons)
        case Regressed => Regression
        case NotComparable => InsufficientData
        case Passed => Pass;
    Report(status, baseline, candidate, comparisons, coverage)
  }

  /** None when the candidate names no baseline or another one. */
  ghost function CompareCohorts(
    base: Manifest, cand: Manifest, baseSamples: seq<Sample>, candSamples: seq<Sample>, key: Key, largest: real
  ): Option<Report> {
    if cand.baselineId != Some(base.cohortId) then None
    else
      var shared := SharedCases(base, cand);
      Some(ReportOf(
        SharedSummary(base, baseSamples, shared, key, largest), SharedSummary(cand, candSamples, shared, key, largest),
        cand.thresholds, CoverageOf(base, cand, baseSamples, candSamples)))
  }

  // ---------------------------------------------------------------- what full coverage means

  lemma {:induction false} CountLaws(cohortId: string, samples: seq<Sample>, c: string)
    ensures Count(cohortId, samples, c) == 0 <==> forall s :: !Offers(cohortId, samples, s, c)
    ensures Count(cohortId, samples, c) == 1 ==>
      forall s, t :: Offers(cohortId, samples, s, c) && Offers(cohortId, samples, t, c) ==> s == t
  {
    if samples != [] {
      var front, last := samples[..|samples| - 1], samples[|samples| - 1];
      assert samples == front + [last];
      CountLaws(cohortId, front, c);
      hide Offers;
      var more := last.cohortId == cohortId && c == last.caseId;
      forall s ensures Offers(cohortId, samples, s, c) <==> Offers(cohortId, front, s, c) || (s == last && more) {
        OffersMore(cohortId, front, last, s, c);
      }
      assert Count(cohortId, samples, c) == Count(cohortId, front, c) + if more then 1 else 0;
      if more { assert Offers(cohortId, samples, last, c); }
    }
  }

  /** Coverage suffices exactly when both manifests pose the same cases in the same way and each case has exactly one
      sample on either side. */
  lemma CoverageSufficesIff(base: Manifest, cand: Manifest, baseSamples: seq<Sample>, candSamples: seq<Sample>)
    ensures !Insufficient(CoverageOf(base, cand, baseSamples, candSamples)) <==>
      && base.cases == cand.cases
      && forall c :: c in base.cases ==>
           Count(base.cohortId, baseSamples, c) == 1 && Count(cand.cohortId, candSamples, c) == 1
  {
    OnceIff(base, baseSamples);
    OnceIff(cand, candSamples);
    SameCasesIff(base, cand);
    hide HasSample, MissingCases, DuplicateCases, CaseDifference, IncompatibleCases;
  }

  lemma OnceIff(m: Manifest, samples: seq<Sample>)
    ensures MissingCases(m, samples) == {} && DuplicateCases(m, samples) == {}
       <==> forall c :: c in m.cases ==> Count(m.cohortId, samples, c) == 1
  {
    forall c ensures HasSample(m, samples, c) <==> Count(m.cohortId, samples, c) > 0 {
      CountLaws(m.cohortId, samples, c);
    }
    hide HasSample, Count;
    assert MissingCases(m, samples) == {} <==> forall c :: c in m.cases ==> HasSample(m, samples, c) by {
      if c :| c in m.cases && !HasSample(m, samples, c) { assert c in MissingCases(m, samples); }
    }
    assert DuplicateCases(m, samples) == {} <==> forall c :: c in m.cases ==> Count(m.cohortId, samples, c) <= 1 by {
      if c :| c in m.cases && Count(m.cohortId, samples, c) > 1 { assert c in DuplicateCases(m, samples); }
    }
  }

  lemma SameCasesIff(base: Manifest, cand: Manifest)
    ensures CaseDifference(base, cand) == {} && CaseDifference(cand, base) == {} && IncompatibleCases(base, cand) == {}
       <==> base.cases == cand.cases
  {
    if CaseDifference(base, cand) == {} && CaseDifference(cand, base) == {} && IncompatibleCases(base, cand) == {} {
      forall c ensures c in base.cases <==> c in cand.cases {
        assert c !in CaseDifference(base, cand) && c !in CaseDifference(cand, base);
      }
      forall c | c in base.cases && c in cand.cases ensures base.cases[c] == cand.cases[c] {
        assert c !in IncompatibleCases(base, cand);
      }
    }
  }

  // ---------------------------------------------------------------- what a covered report rests on

  lemma {:induction false} OfCasesMembers(samples: seq<Sample>, cases: set<string>, s: Sample)
    ensures s in OfCases(samples, cases) <==> s in samples && s.caseId in cases
  {
    if samples != [] {
      OfCasesMembers(samples[..|samples| - 1], cases, s);
      assert samples == samples[..|samples| - 1] + [samples[|samples| - 1]];
    }
  }

  /** With one sample for each case, that sample is selected, whatever the key. */
  lemma CoveredSelection(m: Manifest, samples: seq<Sample>, key: Key)
    requires forall c :: c in m.cases ==> Count(m.cohortId, samples, c) == 1
    ensures var sel := Select(m.cohortId, OfCases(samples, m.cases.Keys), key);
      && sel.Keys == m.cases.Keys
      && forall c :: c in sel ==> Offers(m.cohortId, samples, sel[c], c)
  {
    var shared := OfCases(samples, m.cases.Keys);
    var sel := Select(m.cohortId, shared, key);
    SelectIsBest(m.cohortId, shared, key);
    hide Select, OfCases;
    forall s, c ensures Offers(m.cohortId, shared, s, c) <==> Offers(m.cohortId, samples, s, c) && c in m.cases {
      OfCasesMembers(samples, m.cases.Keys, s);
    }
    forall c ensures c in sel <==> c in m.cases {
      CountLaws(m.cohortId, samples, c);
      hide Offers;
    }
  }

  lemma OnlyOne(m: Manifest, samples: seq<Sample>, a: Selection, b: Selection)
    requires forall c :: c in m.cases ==> Count(m.cohortId, samples, c) == 1
    requires a.Keys == m.cases.Keys && forall c :: c in a ==> Offers(m.cohortId, samples, a[c], c)
    requires b.Keys == m.cases.Keys && forall c :: c in b ==> Offers(m.cohortId, samples, b[c], c)
    ensures a == b
  {
    hide Count, Offers;
    forall c | c in a && c in b ensures a[c] == b[c] {
      OneSample(m.cohortId, samples, c, a[c], b[c]);
    }
  }

  lemma SharedWhenCovered(base: Manifest, cand: Manifest)
    requires base.cases == cand.cases
    ensures SharedCases(base, cand) == base.cases.Keys
  {}

  /** A report whose coverage suffices never consulted the stable key: it is the same under any other. */
  lemma CoveredIgnoresKey(
    base: Manifest, cand: Manifest, baseSamples: seq<Sample>, candSamples: seq<Sample>, key: Key, other: Key,
    largest: real
  )
    requires !Insufficient(CoverageOf(base, cand, baseSamples, candSamples))
    ensures CompareCohorts(base, cand, baseSamples, candSamples, key, largest)
         == CompareCohorts(base, cand, baseSamples, candSamples, other, largest)
  {
    CoverageSufficesIff(base, cand, baseSamples, candSamples);
    SharedWhenCovered(base, cand);
    SummaryIgnoresKey(base, baseSamples, key, other, largest);
    SummaryIgnoresKey(cand, candSamples, key, other, largest);
    hide SharedSummary, CoverageOf, ReportOf, Insufficient, Count, SharedCases;
  }

  lemma SummaryIgnoresKey(m: Manifest, samples: seq<Sample>, key: Key, other: Key, largest: real)
    requires forall c :: c in m.cases ==> Count(m.cohortId, samples, c) == 1
    ensures SharedSummary(m, samples, m.cases.Keys, key, largest)
      == SharedSummary(m, samples, m.cases.Keys, other, largest)
  {
    CoveredSelection(m, samples, key);
    CoveredSelection(m, samples, other);
    hide Select, OfCases, Summarise, InOrder, Offers, Count;
    var shared := OfCases(samples, m.cases.Keys);
    OnlyOne(m, samples, Select(m.cohortId, shared, key), Select(m.cohortId, shared, other));
  }

  // ---------------------------------------------------------------- the same samples under another cohort

  /** The candidate's samples are the baseline's, recorded under the candidate's id. */
  ghost predicate Relabelled(base: string, cand: string, baseSamples: seq<Sample>, candSamples: seq<Sample>) {
    && (forall s :: s in baseSamples && s.cohortId == base ==> s.(cohortId := cand) in candSamples)
    && (forall s :: s in candSamples && s.cohortId == cand ==> s.(cohortId := base) in baseSamples)
  }

  ghost predicate SameButCohort(a: Sample, b: Sample) { a == b.(cohortId := a.cohortId) }

  ghost predicate AllSameButCohort(a: seq<Sample>, b: seq<Sample>) {
    |a| == |b| && forall i :: 0 <= i < |a| ==> SameButCohort(a[i], b[i])
  }

  lemma LeastUnique(ids: set<string>, m: string, n: string)
    requires IsLeast(ids, m) && IsLeast(ids, n)
    ensures m == n
  {
    if m != n {
      LessTransitive(m, n, m);
      LessIrreflexive(m);
    }
  }

  lemma {:induction false} InOrderSame(a: Selection, b: Selection, ids: set<string>)
    requires ids <= a.Keys && ids <= b.Keys && forall c :: c in ids ==> SameButCohort(a[c], b[c])
    ensures AllSameButCohort(InOrder(a, ids), InOrder(b, ids))
    decreases ids
  {
    if ids != {} {
      var m := InOrderHead(a, ids);
      var n := InOrderHead(b, ids);
      LeastUnique(ids, m, n);
      hide IsLeast, InOrder, SameButCohort;
      InOrderSame(a, b, ids - {m});
    }
  }

  lemma InOrderHead(sel: Selection, ids: set<string>) returns (m: string)
    requires ids <= sel.Keys && ids != {}
    ensures IsLeast(ids, m) && m in ids && InOrder(sel, ids) == [sel[m]] + InOrder(sel, ids - {m})
  {
    LeastExists(ids);
    m :| IsLeast(ids, m) && InOrder(sel, ids) == [sel[m]] + InOrder(sel, ids - {m});
  }

  lemma {:induction false} ReviewsSame(a: seq<Sample>, b: seq<Sample>)
    requires AllSameButCohort(a, b)
    ensures Reviews(a) == Reviews(b)
  {
    if a != [] { ReviewsSame(a[..|a| - 1], b[..|b| - 1]); }
  }

  lemma SummariseSame(a: seq<Sample>, b: seq<Sample>, largest: real)
    requires AllSameButCohort(a, b)
    ensures Summarise(a, largest) == Summarise(b, largest)
  {
    ReviewsSame(a, b);
    hide Reviews, RateOf, AverageOf, BoundedSum, ReviewerTotals.AggregateReviews, CountTrue, Present;
    assert Bools(a, (s: Sample) => s.reviewablePr) == Bools(b, (s: Sample) => s.reviewablePr);
    assert Bools(a, (s: Sample) => s.gatesPassed) == Bools(b, (s: Sample) => s.gatesPassed);
    assert Bools(a, (s: Sample) => s.scoringPassed) == Bools(b, (s: Sample) => s.scoringPassed);
    assert Numbers(a, (s: Sample) => s.known as real) == Numbers(b, (s: Sample) => s.known as real);
    assert Numbers(a, (s: Sample) => s.unknown as real) == Numbers(b, (s: Sample) => s.unknown as real);
    forall m: Metric ensures Readings(m, a) == Readings(m, b) {}
    forall t: Option<Terminal> ensures OutcomeCount(a, t) == OutcomeCount(b, t) {
      assert Bools(a, (s: Sample) => s.terminal == t) == Bools(b, (s: Sample) => s.terminal == t);
    }
    assert seq(|a|, i requires 0 <= i < |a| => a[i].tokens) == seq(|b|, i requires 0 <= i < |b| => b[i].tokens);
  }

  lemma SelectionsSame(
    base: Manifest, cand: Manifest, baseSamples: seq<Sample>, candSamples: seq<Sample>, a: Selection, b: Selection
  )
    requires base.cases == cand.cases && Relabelled(base.cohortId, cand.cohortId, baseSamples, candSamples)
    requires forall c :: c in cand.cases ==> Count(cand.cohortId, candSamples, c) == 1
    requires a.Keys == base.cases.Keys && forall c :: c in a ==> Offers(base.cohortId, baseSamples, a[c], c)
    requires b.Keys == cand.cases.Keys && forall c :: c in b ==> Offers(cand.cohortId, candSamples, b[c], c)
    ensures forall c :: c in a ==> SameButCohort(a[c], b[c])
  {
    hide Relabelled, Offers, Count;
    forall c | c in a ensures SameButCohort(a[c], b[c]) {
      RelabelledOffer(base.cohortId, cand.cohortId, baseSamples, candSamples, a[c], c);
      OneSample(cand.cohortId, candSamples, c, a[c].(cohortId := cand.cohortId), b[c]);
    }
  }

  lemma RelabelledOffer(
    base: string, cand: string, baseSamples: seq<Sample>, candSamples: seq<Sample>, s: Sample, c: string
  )
    requires Relabelled(base, cand, baseSamples, candSamples) && Offers(base, baseSamples, s, c)
    ensures Offers(cand, candSamples, s.(cohortId := cand), c)
  {}

  lemma OneSample(cohortId: string, samples: seq<Sample>, c: string, s: Sample, t: Sample)
    requires Count(cohortId, samples, c) == 1 && Offers(cohortId, samples, s, c) && Offers(cohortId, samples, t, c)
    ensures s == t
  {
    CountLaws(cohortId, samples, c);
  }

  lemma RelabelledSummary(
    base: Manifest, cand: Manifest, baseSamples: seq<Sample>, candSamples: seq<Sample>, key: Key, largest: real
  )
    requires Relabelled(base.cohortId, cand.cohortId, baseSamples, candSamples) && base.cases == cand.cases
    requires forall c :: c in base.cases ==> Count(base.cohortId, baseSamples, c) == 1
    requires forall c :: c in cand.cases ==> Count(cand.cohortId, candSamples, c) == 1
    ensures SharedSummary(base, baseSamples, base.cases.Keys, key, largest)
         == SharedSummary(cand, candSamples, cand.cases.Keys, key, largest)
  {
    CoveredSelection(base, baseSamples, key);
    CoveredSelection(cand, candSamples, key);
    hide Select, OfCases, Summarise, InOrder, Offers, Count, Relabelled, SameButCohort, AllSameButCohort;
    var shared := base.cases.Keys;
    var a := Select(base.cohortId, OfCases(baseSamples, shared), key);
    var b := Select(cand.cohortId, OfCases(candSamples, shared), key);
    SelectionsSame(base, cand, baseSamples, candSamples, a, b);
    InOrderSame(a, b, shared);
    SummariseSame(InOrder(a, shared), InOrder(b, shared), largest);
  }

  /** Replaying the very samples of the baseline as the candidate is never reported as a regression, and when the
      coverage suffices the two summaries are equal. */
  lemma RelabelledNeverRegress(
    base: Manifest, cand: Manifest, baseSamples: seq<Sample>, candSamples: seq<Sample>, key: Key, largest: real
  )
    requires Relabelled(base.cohortId, cand.cohortId, baseSamples, candSamples)
    requires forall m :: m in cand.thresholds ==> cand.thresholds[m].d >= 0.0
    requires cand.baselineId == Some(base.cohortId)
    ensures var r := CompareCohorts(base, cand, baseSamples, candSamples, key, largest).value;
      && r.status != Regression
      && (!Insufficient(r.coverage) ==>
            r.base == r.cand && forall m :: m in r.comparisons ==> !r.comparisons[m].Regressed?)
  {
    if !Insufficient(CoverageOf(base, cand, baseSamples, candSamples)) {
      CoverageSufficesIff(base, cand, baseSamples, candSamples);
      SharedWhenCovered(base, cand);
      RelabelledSummary(base, cand, baseSamples, candSamples, key, largest);
      hide SharedSummary, CoverageOf, Insufficient, ValuesFor, Verdict, Count, SharedCases, Relabelled;
      EqualNeverRegress(SharedSummary(base, baseSamples, base.cases.Keys, key, largest), cand.thresholds);
    }
  }

  // ---------------------------------------------------------------- what the status means

  /** The candidate's value is beyond what the threshold allows. */
  predicate Beyond(base: real, cand: real, t: Threshold) {
    if t.MaxDecrease? then cand < base - t.d - EPSILON else cand > base + (t.d + EPSILON) * base
  }

  ghost predicate Known(base: Summary, cand: Summary, m: Metric) { ValueOf(base, m).Some? && ValueOf(cand, m).Some? }

  ghost predicate Worse(base: Summary, cand: Summary, thresholds: map<Metric, Threshold>, m: Metric) {
    m in thresholds && Known(base, cand, m) && Beyond(ValueOf(base, m).value, ValueOf(cand, m).value, thresholds[m])
  }

  lemma VerdictMeans(base: Summary, cand: Summary, thresholds: map<Metric, Threshold>)
    requires forall m :: m in thresholds ==> thresholds[m].d >= 0.0
    requires forall m :: m in thresholds && Known(base, cand, m) ==>
      ValueOf(base, m).value >= 0.0 && ValueOf(cand, m).value >= 0.0
    ensures var verdict := Verdict(ValuesFor(base, cand, thresholds));
      && (verdict.Regressed? <==> exists m :: Worse(base, cand, thresholds, m))
      && (verdict.Passed? <==>
            && thresholds != map[]
            && forall m :: m in thresholds ==> Known(base, cand, m) && !Worse(base, cand, thresholds, m))
  {
    var statuses := ValuesFor(base, cand, thresholds);
    hide ValueOf, Beyond, Compare;
    forall m | m in thresholds
      ensures statuses[m] == Regressed <==> Worse(base, cand, thresholds, m)
      ensures statuses[m] == NotComparable <==> !Known(base, cand, m)
    {
      StatusMeans(ValueOf(base, m), ValueOf(cand, m), thresholds[m]);
    }
    assert statuses.Keys == thresholds.Keys;
    assert statuses == map[] <==> thresholds == map[];
  }

  /** A report on two cohorts says regression exactly when every case is covered and some metric is beyond its
      threshold, and passes exactly when every case is covered, there are thresholds, and each of their metrics is known
      on both sides and within it. */
  lemma ReportMeans(
    base: Manifest, cand: Manifest, baseSamples: seq<Sample>, candSamples: seq<Sample>, key: Key, largest: real
  )
    requires cand.baselineId == Some(base.cohortId)
    requires forall m :: m in cand.thresholds ==> cand.thresholds[m].d >= 0.0
    requires largest >= 0.0 && forall s :: s in baseSamples || s in candSamples ==> SampleOk(s)
    ensures var r := CompareCohorts(base, cand, baseSamples, candSamples, key, largest).value;
      var covered := !Insufficient(CoverageOf(base, cand, baseSamples, candSamples));
      && (r.status == Regression <==> covered && exists m :: Worse(r.base, r.cand, cand.thresholds, m))
      && (r.status == Pass <==>
            && covered && cand.thresholds != map[]
            && forall m :: m in cand.thresholds ==>
                 Known(r.base, r.cand, m) && !Worse(r.base, r.cand, cand.thresholds, m))
  {
    var r := CompareCohorts(base, cand, baseSamples, candSamples, key, largest).value;
    var shared := SharedCases(base, cand);
    hide CoverageOf, Insufficient, ValueOf, SharedCases, Aggregate, SampleOk, OfCases, ValuesFor, Verdict, Worse;
    SharedOk(baseSamples, shared);
    SharedOk(candSamples, shared);
    forall m | m in cand.thresholds && Known(r.base, r.cand, m)
      ensures ValueOf(r.base, m).value >= 0.0 && ValueOf(r.cand, m).value >= 0.0
    {
      ValuesNotNegative(base.cohortId, OfCases(baseSamples, shared), key, largest, m);
      ValuesNotNegative(cand.cohortId, OfCases(candSamples, shared), key, largest, m);
    }
    VerdictMeans(r.base, r.cand, cand.thresholds);
  }

  lemma SharedOk(samples: seq<Sample>, cases: set<string>)
    requires forall s :: s in samples ==> SampleOk(s)
    ensures forall s :: s in OfCases(samples, cases) ==> SampleOk(s)
  {
    forall s | s in OfCases(samples, cases) ensures SampleOk(s) { OfCasesMembers(samples, cases, s); }
  }

  lemma StatusMeans(base: Option<real>, cand: Option<real>, t: Threshold)
    requires t.d >= 0.0 && (base.Some? && cand.Some? ==> base.value >= 0.0 && cand.value >= 0.0)
    ensures Compare(base, cand, t) == NotComparable <==> base.None? || cand.None?
    ensures base.Some? && cand.Some? ==> (Compare(base, cand, t) == Regressed <==> Beyond(base.value, cand.value, t))
  {
    if base.Some? && cand.Some? { RegressedIff(base.value, cand.value, t); }
  }
}
