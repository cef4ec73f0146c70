/** Adding up the reviewer scores of a cohort's cases. */
module ReviewerTotals {
  import opened Text
  import Scores = ReviewerScores

  /** The reviewer's score on one case, as far as a cohort adds it up; there is a category for each finding. */
  datatype CaseReview = CaseReview(
    knownGood: bool, criticals: nat, criticalsDetected: nat, defects: nat, detected: nat, falsePositives: nat,
    categories: seq<string>, passOnDefective: bool, failOnKnownGood: bool)

  datatype CohortReviews = CohortReviews(
    samples: nat, criticals: nat, criticalsDetected: nat, defects: nat, detected: nat, falsePositives: nat,
    knownGoodFalsePositives: nat, defectiveFalsePositives: nat, findings: nat, knownGoodCases: nat,
    knownGoodFailures: nat, defectiveCases: nat, defectivePasses: nat, criticalRecall: real, recall: real,
    falsePositiveRate: real, knownGoodFalsePositiveRate: real, defectiveFalsePositiveRate: real,
    passOnDefectiveRate: real, failOnKnownGoodRate: real, byCategory: map<string, nat>)

  // ---------------------------------------------------------------- one case

  function Categories(findings: seq<Scores.Finding>): (r: seq<string>)
    ensures |r| == |findings|
  {
    seq(|findings|, i requires 0 <= i < |findings| => findings[i].category)
  }

  /** What a sample keeps of the score of its reviewer output. */
  function ReviewOf(review: Scores.Review, findings: seq<Scores.Finding>, verdict: Option<string>): CaseReview {
    var s := Scores.ScoreOf(review, findings, verdict);
    var passed := Scores.PassedVerdict(verdict) == Some(true);
    CaseReview(review.knownGood, s.criticalDefects, s.criticalDetected, s.defects, s.detected, s.falsePositives,
      Categories(findings), !review.knownGood && passed, review.knownGood && !passed)
  }

  predicate Sound(r: CaseReview) {
    && r.criticalsDetected <= r.criticals && r.detected <= r.defects && r.falsePositives <= |r.categories|
    && (r.passOnDefective ==> !r.knownGood) && (r.failOnKnownGood ==> r.knownGood)
  }

  lemma ReviewIsSound(review: Scores.Review, findings: seq<Scores.Finding>, verdict: Option<string>)
    requires Scores.UniqueIds(review.defects)
    ensures Sound(ReviewOf(review, findings, verdict))
  {
    Scores.ScoreAddsUp(review, findings, verdict);
    hide Scores.ScoreOf;
  }

  // ---------------------------------------------------------------- all cases

  function Total(reviews: seq<CaseReview>, f: CaseReview -> nat): nat {
    if reviews == [] then 0 else Total(reviews[..|reviews| - 1], f) + f(reviews[|reviews| - 1])
  }

  function Criticals(r: CaseReview): nat { r.criticals }

  function CriticalsDetected(r: CaseReview): nat { r.criticalsDetected }

  function Defects(r: CaseReview): nat { r.defects }

  function Detected(r: CaseReview): nat { r.detected }

  function Wrong(r: CaseReview): nat { r.falsePositives }

  function Found(r: CaseReview): nat { |r.categories| }

  function Share(n: nat, d: nat, empty: real): real {
    if d == 0 then empty else n as real / d as real
  }

  /** The categories of all findings. */
  function AllCategories(reviews: seq<CaseReview>): seq<string> {
    if reviews == [] then [] else AllCategories(reviews[..|reviews| - 1]) + reviews[|reviews| - 1].categories
  }

  function Tally(categories: seq<string>): map<string, nat> {
    map c | c in categories :: multiset(categories)[c]
  }

  /** How often each category was found. */
  method CountCategories(reviews: seq<CaseReview>) returns (counts: map<string, nat>)
    ensures counts == Tally(AllCategories(reviews))
  {
    counts := map[];
    assert counts == Tally([]);
    for n := 0 to |reviews|
      invariant counts == Tally(AllCategories(reviews[..n]))
    {
      hide Tally;
      var found := reviews[n].categories;
      ghost var before := AllCategories(reviews[..n]);
      assert reviews[..n + 1][..n] == reviews[..n];
      assert AllCategories(reviews[..n + 1]) == before + found;
      hide AllCategories;
      assert before + found[..0] == before;
      for k := 0 to |found|
        invariant counts == Tally(before + found[..k])
      {
        TallyStep(before, found, k);
        counts := counts[found[k] := (if found[k] in counts then counts[found[k]] else 0) + 1];
      }
      assert found[..|found|] == found;
    }
    assert reviews[..|reviews|] == reviews;
  }

  lemma TallyStep(before: seq<string>, found: seq<string>, k: nat)
    requires k < |found|
    ensures var tally := Tally(before + found[..k]);
      Tally(before + found[..k + 1]) == tally[found[k] := (if found[k] in tally then tally[found[k]] else 0) + 1]
  {
    assert before + found[..k + 1] == before + found[..k] + [found[k]];
    TallyMore(before + found[..k], found[k]);
  }

  lemma TallyMore(s: seq<string>, c: string)
    ensures Tally(s + [c]) == Tally(s)[c := (if c in Tally(s) then Tally(s)[c] else 0) + 1]
  {
    assert c !in s ==> multiset(s)[c] == 0;
    assert (s + [c])[|s|] == c;
    forall d ensures d in s + [c] <==> d in s || d == c {}
  }

  function KnownGood(reviews: seq<CaseReview>): seq<CaseReview> {
    Scores.Filter(reviews, (r: CaseReview) => r.knownGood)
  }

  function Defective(reviews: seq<CaseReview>): seq<CaseReview> {
    Scores.Filter(reviews, (r: CaseReview) => !r.knownGood)
  }

  function Failures(reviews: seq<CaseReview>): nat {
    |Scores.Filter(reviews, (r: CaseReview) => r.failOnKnownGood)|
  }

  function Passes(reviews: seq<CaseReview>): nat {
    |Scores.Filter(reviews, (r: CaseReview) => r.passOnDefective)|
  }

  function AggregateReviews(reviews: seq<CaseReview>): CohortReviews {
    var good, bad := KnownGood(reviews), Defective(reviews);
    var criticals, criticalsDetected := Total(reviews, Criticals), Total(reviews, CriticalsDetected);
    var defects, detected := Total(reviews, Defects), Total(reviews, Detected);
    CohortReviews(
      |reviews|, criticals, criticalsDetected, defects, detected, Total(reviews, Wrong), Total(good, Wrong),
      Total(bad, Wrong), Total(reviews, Found), |good|, Failures(good), |bad|, Passes(bad),
      Share(criticalsDetected, criticals, 1.0), Share(detected, defects, 1.0),
      Share(Total(reviews, Wrong), Total(reviews, Found), 0.0), Share(Total(good, Wrong), Total(good, Found), 0.0),
      Share(Total(bad, Wrong), Total(bad, Found), 0.0), Share(Passes(bad), |bad|, 0.0),
      Share(Failures(good), |good|, 0.0), Tally(AllCategories(reviews)))
  }

  // ---------------------------------------------------------------- what the totals mean

  lemma {:induction false} TotalCompare(reviews: seq<CaseReview>, f: CaseReview -> nat, g: CaseReview -> nat)
    requires forall r :: r in reviews ==> f(r) <= g(r)
    ensures Total(reviews, f) <= Total(reviews, g)
    ensures Total(reviews, f) == Total(reviews, g) <==> forall r :: r in reviews ==> f(r) == g(r)
  {
    if reviews != [] {
      var front, last := reviews[..|reviews| - 1], reviews[|reviews| - 1];
      assert reviews == front + [last];
      TotalCompare(front, f, g);
    }
  }

  lemma {:induction false} TotalSplit(reviews: seq<CaseReview>, f: CaseReview -> nat)
    ensures Total(KnownGood(reviews), f) + Total(Defective(reviews), f) == Total(reviews, f)
    ensures |KnownGood(reviews)| + |Defective(reviews)| == |reviews|
  {
    if reviews != [] {
      var front, last := reviews[..|reviews| - 1], reviews[|reviews| - 1];
      TotalSplit(front, f);
      TotalMore(KnownGood(front), last, f);
      TotalMore(Defective(front), last, f);
      assert KnownGood(front) + [] == KnownGood(front) && Defective(front) + [] == Defective(front);
    }
  }

  lemma TotalMore(reviews: seq<CaseReview>, r: CaseReview, f: CaseReview -> nat)
    ensures Total(reviews + [r], f) == Total(reviews, f) + f(r)
  {
    assert (reviews + [r])[..|reviews|] == reviews;
  }

  lemma {:induction false} FindingsTotal(reviews: seq<CaseReview>)
    ensures Total(reviews, Found) == |AllCategories(reviews)|
  {
    if reviews != [] { FindingsTotal(reviews[..|reviews| - 1]); }
  }

  lemma FilterEmpty(reviews: seq<CaseReview>, keep: CaseReview -> bool)
    ensures Scores.Filter(reviews, keep) == [] <==> forall r :: r in reviews ==> !keep(r)
    ensures |Scores.Filter(reviews, keep)| <= |reviews|
  {
    forall r ensures r in Scores.Filter(reviews, keep) <==> r in reviews && keep(r) {
      Scores.FilterMembers(reviews, keep, r);
    }
    var kept := Scores.Filter(reviews, keep);
    if kept != [] { assert kept[0] in kept; }
    if reviews != [] { Scores.FilterMembers(reviews, keep, reviews[0]); }
  }

  lemma ShareLaws(n: nat, d: nat, empty: real)
    requires n <= d && 0.0 <= empty <= 1.0
    ensures 0.0 <= Share(n, d, empty) <= 1.0
    ensures empty == 1.0 ==> (Share(n, d, empty) == 1.0 <==> n == d)
    ensures empty == 0.0 ==> (Share(n, d, empty) == 0.0 <==> n == 0)
  {}

  ghost predicate AllSound(reviews: seq<CaseReview>) { forall r :: r in reviews ==> Sound(r) }

  lemma RecallLaws(reviews: seq<CaseReview>)
    requires AllSound(reviews)
    ensures var a := AggregateReviews(reviews);
      && 0.0 <= a.criticalRecall <= 1.0 && 0.0 <= a.recall <= 1.0
      && (a.criticalRecall == 1.0 <==> forall r :: r in reviews ==> r.criticalsDetected == r.criticals)
      && (a.recall == 1.0 <==> forall r :: r in reviews ==> r.detected == r.defects)
  {
    var a := AggregateReviews(reviews);
    TotalCompare(reviews, CriticalsDetected, Criticals);
    TotalCompare(reviews, Detected, Defects);
    hide Total, Share;
    ShareLaws(a.criticalsDetected, a.criticals, 1.0);
    ShareLaws(a.detected, a.defects, 1.0);
  }

  lemma FalsePositiveLaws(reviews: seq<CaseReview>)
    requires AllSound(reviews)
    ensures var a := AggregateReviews(reviews);
      && 0.0 <= a.falsePositiveRate <= 1.0
      && (a.falsePositiveRate == 0.0 <==> forall r :: r in reviews ==> r.falsePositives == 0)
  {
    var a := AggregateReviews(reviews);
    TotalCompare(reviews, Wrong, Found);
    NoneWrong(reviews);
    hide Total, Share, Tally, AllCategories, KnownGood, Defective, Failures, Passes;
    ShareLaws(a.falsePositives, a.findings, 0.0);
  }

  /** Cases and false positives divide into known-good and defective ones, and each finding has one category. */
  lemma ReviewsAddUp(reviews: seq<CaseReview>)
    ensures var a := AggregateReviews(reviews);
      && a.falsePositives == a.knownGoodFalsePositives + a.defectiveFalsePositives
      && a.samples == a.knownGoodCases + a.defectiveCases
      && a.findings == |AllCategories(reviews)|
  {
    TotalSplit(reviews, Wrong);
    FindingsTotal(reviews);
    hide Total, Share, Tally, AllCategories, KnownGood, Defective, Failures, Passes;
  }

  lemma {:induction false} NoneWrong(reviews: seq<CaseReview>)
    ensures Total(reviews, Wrong) == 0 <==> forall r :: r in reviews ==> r.falsePositives == 0
  {
    if reviews != [] {
      var front, last := reviews[..|reviews| - 1], reviews[|reviews| - 1];
      assert reviews == front + [last];
      NoneWrong(front);
    }
  }

  lemma VerdictLaws(reviews: seq<CaseReview>)
    requires AllSound(reviews)
    ensures var a := AggregateReviews(reviews);
      && 0.0 <= a.passOnDefectiveRate <= 1.0 && 0.0 <= a.failOnKnownGoodRate <= 1.0
      && (a.passOnDefectiveRate == 0.0 <==> forall r :: r in reviews ==> !r.passOnDefective)
      && (a.failOnKnownGoodRate == 0.0 <==> forall r :: r in reviews ==> !r.failOnKnownGood)
  {
    var a := AggregateReviews(reviews);
    var good, bad := KnownGood(reviews), Defective(reviews);
    FilterEmpty(bad, (r: CaseReview) => r.passOnDefective);
    FilterEmpty(good, (r: CaseReview) => r.failOnKnownGood);
    forall r ensures r in good <==> r in reviews && r.knownGood ensures r in bad <==> r in reviews && !r.knownGood {
      Scores.FilterMembers(reviews, (x: CaseReview) => x.knownGood, r);
      Scores.FilterMembers(reviews, (x: CaseReview) => !x.knownGood, r);
    }
    hide Total, Share;
    ShareLaws(a.defectivePasses, a.defectiveCases, 0.0);
    ShareLaws(a.knownGoodFailures, a.knownGoodCases, 0.0);
  }

  lemma SharesNotNegative(reviews: seq<CaseReview>)
    ensures var a := AggregateReviews(reviews);
      && a.criticalRecall >= 0.0 && a.recall >= 0.0 && a.falsePositiveRate >= 0.0
      && a.passOnDefectiveRate >= 0.0 && a.failOnKnownGoodRate >= 0.0
  {
    hide Total, Tally, AllCategories, KnownGood, Defective, Failures, Passes;
  }
}
