/** Comparing two reviewer scorecards on the cases both of them scored against the same gold defects. */
module ReviewerComparison {
  import opened Text
  import SignTest
  import Scores = ReviewerScores

  /** What the hash of a case's ground truth is taken over; a hash stands for what it hashes. */
  datatype Truth = Truth(knownGood: bool, defects: set<Gold>)

  datatype Gold = Gold(id: string, severity: Scores.Severity, category: string)

  datatype Outcome = Outcome(
    caseId: string, knownGood: bool, truth: Option<Truth>, defectIds: seq<string>, detected: seq<string>,
    critical: seq<string>, passed: Option<bool>)

  function TruthOf(review: Scores.Review): Truth {
    Truth(review.knownGood, set d | d in review.defects :: Gold(d.id, d.severity, d.category))
  }

  /** The outcome a scorecard lists for a case. */
  function OutcomeOf(caseId: string, review: Scores.Review, found: set<string>, passed: Option<bool>): Outcome {
    Outcome(caseId, review.knownGood, Some(TruthOf(review)), Scores.Ids(review.defects),
      Scores.Ids(Scores.Filter(review.defects, (d: Scores.Defect) => d.id in found)),
      Scores.Ids(Scores.Filter(review.defects, (d: Scores.Defect) => d.severity.Critical?)), passed)
  }

  /** An outcome without a ground truth can be anything; with one, it was listed by a scorecard. */
  ghost predicate Genuine(o: Outcome) {
    o.truth.Some? ==> exists review, found :: o == OutcomeOf(o.caseId, review, found, o.passed)
  }

  type Cases = map<string, Outcome>

  /** A later outcome of the same case replaces an earlier one. */
  function ById(outcomes: seq<Outcome>): Cases {
    if outcomes == [] then map[]
    else ById(outcomes[..|outcomes| - 1])[outcomes[|outcomes| - 1].caseId := outcomes[|outcomes| - 1]]
  }

  /** The two outcomes were scored against the same ground truth; ids are compared after sorting. */
  predicate Comparable(b: Outcome, c: Outcome) {
    b.truth.Some? && c.truth == b.truth && c.knownGood == b.knownGood && multiset(c.defectIds) == multiset(b.defectIds)
  }

  ghost function Matched(base: Cases, cand: Cases): set<string> {
    set k | k in base && k in cand && Comparable(base[k], cand[k])
  }

  ghost function Mismatched(base: Cases, cand: Cases): set<string> {
    set k | k in base && k in cand && !Comparable(base[k], cand[k])
  }

  predicate CaseAt(outcomes: seq<Outcome>, i: int, k: string) { 0 <= i < |outcomes| && outcomes[i].caseId == k }

  ghost predicate LastOf(outcomes: seq<Outcome>, i: int, k: string) {
    CaseAt(outcomes, i, k) && forall j :: i < j < |outcomes| ==> outcomes[j].caseId != k
  }

  lemma {:induction false} ByIdHas(outcomes: seq<Outcome>, k: string)
    ensures k in ById(outcomes) <==> exists i :: CaseAt(outcomes, i, k)
  {
    if outcomes != [] {
      var n := |outcomes| - 1;
      var front := outcomes[..n];
      ByIdHas(front, k);
      if i :| CaseAt(front, i, k) { assert CaseAt(outcomes, i, k); }
      if i :| CaseAt(outcomes, i, k) { assert i < n ==> CaseAt(front, i, k); }
      if outcomes[n].caseId == k { assert CaseAt(outcomes, n, k); }
    }
  }

  /** The last outcome of a case is the one compared. */
  lemma {:induction false} LastOutcomeCounts(outcomes: seq<Outcome>, i: int, k: string)
    requires LastOf(outcomes, i, k)
    ensures k in ById(outcomes) && ById(outcomes)[k] == outcomes[i]
  {
    var n := |outcomes| - 1;
    if i < n {
      assert outcomes[n].caseId != k;
      LastOutcomeCounts(outcomes[..n], i, k);
    }
  }

  lemma FilterIds(defects: seq<Scores.Defect>, keep: Scores.Defect -> bool, id: string)
    ensures id in Scores.Ids(Scores.Filter(defects, keep)) <==> exists d :: d in defects && keep(d) && d.id == id
  {
    var kept := Scores.Filter(defects, keep);
    forall d ensures d in kept <==> d in defects && keep(d) { Scores.FilterMembers(defects, keep, d); }
    if id in Scores.Ids(kept) {
      var i :| 0 <= i < |kept| && kept[i].id == id;
      assert kept[i] in kept;
    }
    if d :| d in defects && keep(d) && d.id == id {
      assert d in kept;
      var i :| 0 <= i < |kept| && kept[i] == d;
      assert Scores.Ids(kept)[i] == id;
    }
  }

  /** An outcome lists every defect of the case, those that were found, and the critical ones. */
  lemma OutcomeLists(caseId: string, review: Scores.Review, found: set<string>, passed: Option<bool>, id: string)
    ensures var o := OutcomeOf(caseId, review, found, passed);
      && |o.defectIds| == |review.defects|
      && (forall i :: 0 <= i < |o.defectIds| ==> o.defectIds[i] == review.defects[i].id)
      && (id in o.detected <==> id in found && exists d :: d in review.defects && d.id == id)
      && (id in o.critical <==> exists d :: d in review.defects && d.id == id && d.severity == Scores.Critical)
  {
    FilterIds(review.defects, (d: Scores.Defect) => d.id in found, id);
    FilterIds(review.defects, (d: Scores.Defect) => d.severity.Critical?, id);
    hide Scores.Filter;
  }

  /** Two outcomes are comparable exactly when they were scored against the same gold: the same known-good flag,
      the same defects with their severities and categories, and each as often. */
  lemma ComparableIff(
    k: string, x: Scores.Review, found: set<string>, passed: Option<bool>, y: Scores.Review, later: set<string>,
    verdict: Option<bool>
  )
    ensures Comparable(OutcomeOf(k, x, found, passed), OutcomeOf(k, y, later, verdict)) <==>
      && x.knownGood == y.knownGood
      && (set d | d in x.defects :: Gold(d.id, d.severity, d.category))
         == (set d | d in y.defects :: Gold(d.id, d.severity, d.category))
      && multiset(Scores.Ids(x.defects)) == multiset(Scores.Ids(y.defects))
  {
    hide Scores.Filter, Scores.Ids;
  }

  // ---------------------------------------------------------------- counting discordant pairs

  datatype Metric = CriticalDetection | Detection | KnownGoodPass

  function Kept(ids: seq<string>, wanted: seq<string>): seq<string> {
    if ids == [] then []
    else Kept(ids[..|ids| - 1], wanted) + (if ids[|ids| - 1] in wanted then [ids[|ids| - 1]] else [])
  }

  /** What the metric pairs up in one case: its defects, its critical defects, or the case itself. */
  function Units(m: Metric, truth: Outcome): seq<string> {
    match m
    case CriticalDetection => Kept(truth.defectIds, truth.critical)
    case Detection => truth.defectIds
    case KnownGoodPass => if truth.knownGood then [truth.caseId] else []
  }

  predicate Hit(m: Metric, o: Outcome, unit: string) {
    if m.KnownGoodPass? then o.passed == Some(true) else unit in o.detected
  }

  /** Units where `up` succeeded and `down` failed. */
  function Discordant(m: Metric, units: seq<string>, up: Outcome, down: Outcome): nat {
    if units == [] then 0
    else
      Discordant(m, units[..|units| - 1], up, down)
      + if Hit(m, up, units[|units| - 1]) && !Hit(m, down, units[|units| - 1]) then 1 else 0
  }

  /** The discordant pairs of a set of cases, whatever order they are visited in. */
  ghost function Total(m: Metric, keys: set<string>, truth: Cases, up: Cases, down: Cases): nat
    requires keys <= truth.Keys && keys <= up.Keys && keys <= down.Keys
  {
    if keys == {} then 0
    else
      var k :| k in keys;
      Discordant(m, Units(m, truth[k]), up[k], down[k]) + Total(m, keys - {k}, truth, up, down)
  }

  lemma {:induction false} TotalStep(m: Metric, keys: set<string>, truth: Cases, up: Cases, down: Cases, k: string)
    requires keys <= truth.Keys && keys <= up.Keys && keys <= down.Keys && k in keys
    ensures Total(m, keys, truth, up, down)
         == Discordant(m, Units(m, truth[k]), up[k], down[k]) + Total(m, keys - {k}, truth, up, down)
    decreases keys
  {
    hide Discordant, Units;
    var j :| j in keys
      && Total(m, keys, truth, up, down)
      == Discordant(m, Units(m, truth[j]), up[j], down[j]) + Total(m, keys - {j}, truth, up, down);
    if j != k {
      TotalStep(m, keys - {j}, truth, up, down, k);
      TotalStep(m, keys - {k}, truth, up, down, j);
      assert keys - {j} - {k} == keys - {k} - {j};
    }
  }

  // ---------------------------------------------------------------- statuses

  datatype Status = InsufficientEvidence | NoSignificantChange | AdvisoryRegression | AdvisoryImprovement

  datatype Limits = Limits(minMatched: int, minDiscordant: int, alpha: real)

  const DEFAULTS := Limits(20, 5, 0.05)

  function PairedStatus(matched: nat, worse: nat, better: nat, limits: Limits): Status {
    if matched < limits.minMatched || worse + better < limits.minDiscordant then
      if worse + better == 0 && matched >= limits.minMatched then NoSignificantChange else InsufficientEvidence
    else if SignTest.PValue(worse, better) >= limits.alpha then NoSignificantChange
    else if worse > better then AdvisoryRegression
    else AdvisoryImprovement
  }

  ghost function MetricStatus(m: Metric, base: Cases, cand: Cases, limits: Limits): Status {
    var matched := Matched(base, cand);
    PairedStatus(|matched|, Total(m, matched, base, base, cand), Total(m, matched, base, cand, base), limits)
  }

  /** Some metric has the given status. */
  ghost predicate Some3(s: Status, base: Cases, cand: Cases, limits: Limits) {
    || MetricStatus(CriticalDetection, base, cand, limits) == s
    || MetricStatus(Detection, base, cand, limits) == s
    || MetricStatus(KnownGoodPass, base, cand, limits) == s
  }

  ghost function Overall(base: Cases, cand: Cases, limits: Limits): Status {
    if Mismatched(base, cand) != {} then InsufficientEvidence
    else if Some3(AdvisoryRegression, base, cand, limits) then AdvisoryRegression
    else if Some3(InsufficientEvidence, base, cand, limits) then InsufficientEvidence
    else if Some3(AdvisoryImprovement, base, cand, limits) then AdvisoryImprovement
    else NoSignificantChange
  }

  // ---------------------------------------------------------------- the comparison

  method Paired(
    m: Metric, units: seq<(bool, bool)>, matched: nat, limits: Limits
  ) returns (worse: nat, better: nat, status: Status)
    ensures worse == CountPairs(units, true) && better == CountPairs(units, false)
    ensures status == PairedStatus(matched, worse, better, limits)
  {
    worse, better := 0, 0;
    for n := 0 to |units|
      invariant worse == CountPairs(units[..n], true) && better == CountPairs(units[..n], false)
    {
      assert units[..n + 1][..n] == units[..n];
      var (baselineHit, candidateHit) := units[n];
      if baselineHit && !candidateHit { worse := worse + 1; }
      if !baselineHit && candidateHit { better := better + 1; }
    }
    assert units[..|units|] == units;
    var pValue := SignTest.SignTestPValue(worse, better);
    if matched < limits.minMatched || worse + better < limits.minDiscordant {
      status := if worse + better == 0 && matched >= limits.minMatched then NoSignificantChange
        else InsufficientEvidence;
    } else if pValue >= limits.alpha {
      status := NoSignificantChange;
    } else {
      status := if worse > better then AdvisoryRegression else AdvisoryImprovement;
    }
  }

  function CountPairs(units: seq<(bool, bool)>, first: bool): nat {
    if units == [] then 0
    else
      CountPairs(units[..|units| - 1], first)
      + if units[|units| - 1] == (first, !first) then 1 else 0
  }

  lemma {:induction false} CountPairsAppend(s: seq<(bool, bool)>, t: seq<(bool, bool)>, first: bool)
    ensures CountPairs(s + t, first) == CountPairs(s, first) + CountPairs(t, first)
  {
    if t == [] {
      assert s + t == s;
    } else {
      CountPairsAppend(s, t[..|t| - 1], first);
      assert (s + t)[..|s + t| - 1] == s + t[..|t| - 1];
    }
  }

  function PairsOf(m: Metric, units: seq<string>, b: Outcome, c: Outcome): seq<(bool, bool)> {
    seq(|units|, i requires 0 <= i < |units| => (Hit(m, b, units[i]), Hit(m, c, units[i])))
  }

  lemma {:induction false} PairsCount(m: Metric, units: seq<string>, b: Outcome, c: Outcome)
    ensures CountPairs(PairsOf(m, units, b, c), true) == Discordant(m, units, b, c)
    ensures CountPairs(PairsOf(m, units, b, c), false) == Discordant(m, units, c, b)
  {
    if units != [] {
      var n := |units| - 1;
      PairsCount(m, units[..n], b, c);
      assert PairsOf(m, units, b, c)[..n] == PairsOf(m, units[..n], b, c);
    }
  }

  lemma PairsAppend(m: Metric, units: seq<string>, unit: string, b: Outcome, c: Outcome)
    ensures PairsOf(m, units + [unit], b, c) == PairsOf(m, units, b, c) + [(Hit(m, b, unit), Hit(m, c, unit))]
  {}

  lemma KeptStep(ids: seq<string>, wanted: seq<string>, n: nat)
    requires n < |ids|
    ensures ids[..n + 1] == ids[..n] + [ids[n]]
    ensures Kept(ids[..n + 1], wanted) == if ids[n] in wanted then Kept(ids[..n], wanted) + [ids[n]]
      else Kept(ids[..n], wanted)
  {
    assert ids[..n + 1][..n] == ids[..n];
  }

  /** The pairs of one case, in the order of its defects; critical ones are also kept apart. */
  method CaseUnits(
    b: Outcome, c: Outcome
  ) returns (defects: seq<(bool, bool)>, critical: seq<(bool, bool)>, good: seq<(bool, bool)>)
    ensures defects == PairsOf(Detection, Units(Detection, b), b, c)
    ensures critical == PairsOf(CriticalDetection, Units(CriticalDetection, b), b, c)
    ensures good == PairsOf(KnownGoodPass, Units(KnownGoodPass, b), b, c)
  {
    defects, critical, good := [], [], [];
    for n := 0 to |b.defectIds|
      invariant defects == PairsOf(Detection, b.defectIds[..n], b, c)
      invariant critical == PairsOf(CriticalDetection, Kept(b.defectIds[..n], b.critical), b, c)
    {
      hide PairsOf, Kept;
      var defectId := b.defectIds[n];
      KeptStep(b.defectIds, b.critical, n);
      PairsAppend(Detection, b.defectIds[..n], defectId, b, c);
      PairsAppend(CriticalDetection, Kept(b.defectIds[..n], b.critical), defectId, b, c);
      var unit := (defectId in b.detected, defectId in c.detected);
      defects := defects + [unit];
      if defectId in b.critical {
        critical := critical + [unit];
      }
    }
    assert b.defectIds[..|b.defectIds|] == b.defectIds;
    if b.knownGood {
      good := [(b.passed == Some(true), c.passed == Some(true))];
    }
  }

  ghost predicate Counted(m: Metric, units: seq<(bool, bool)>, keys: set<string>, base: Cases, cand: Cases)
    requires keys <= base.Keys && keys <= cand.Keys
  {
    CountPairs(units, true) == Total(m, keys, base, base, cand)
      && CountPairs(units, false) == Total(m, keys, base, cand, base)
  }

  lemma CountedStep(m: Metric, units: seq<(bool, bool)>, keys: set<string>, base: Cases, cand: Cases, k: string)
    requires keys <= base.Keys && keys <= cand.Keys && k in base && k in cand && k !in keys
    requires Counted(m, units, keys, base, cand)
    ensures Counted(m, units + PairsOf(m, Units(m, base[k]), base[k], cand[k]), keys + {k}, base, cand)
  {
    hide Units, CountPairs, PairsOf, Discordant, Total;
    var more := PairsOf(m, Units(m, base[k]), base[k], cand[k]);
    PairsCount(m, Units(m, base[k]), base[k], cand[k]);
    CountPairsAppend(units, more, true);
    CountPairsAppend(units, more, false);
    TotalStep(m, keys + {k}, base, base, cand, k);
    TotalStep(m, keys + {k}, base, cand, base, k);
    assert keys + {k} - {k} == keys;
  }

  datatype Report = Report(
    matched: set<string>, mismatched: set<string>, unmatched: set<string>,
    critical: Status, detection: Status, knownGood: Status, status: Status)

  method MatchCases(
    base: Cases, cand: Cases
  ) returns (matched: set<string>, mismatched: set<string>, unmatched: set<string>)
    ensures matched == Matched(base, cand) && mismatched == Mismatched(base, cand)
    ensures unmatched == base.Keys + cand.Keys - matched
  {
    matched, mismatched, unmatched := {}, {}, {};
    var left := base.Keys;
    while left != {}
      invariant left <= base.Keys
      invariant matched == Matched(base, cand) - left && mismatched == Mismatched(base, cand) - left
      invariant unmatched == base.Keys - left - matched
      decreases left
    {
      var caseId :| caseId in left;
      left := left - {caseId};
      if caseId !in cand {
        unmatched := unmatched + {caseId};
      } else if !Comparable(base[caseId], cand[caseId]) {
        unmatched, mismatched := unmatched + {caseId}, mismatched + {caseId};
      } else {
        matched := matched + {caseId};
      }
    }
    unmatched := unmatched + (cand.Keys - base.Keys);
  }

  method CompareScorecards(baseline: seq<Outcome>, candidate: seq<Outcome>, limits: Limits) returns (r: Report)
    ensures var base, cand := ById(baseline), ById(candidate);
      && r.matched == Matched(base, cand) && r.mismatched == Mismatched(base, cand)
      && r.unmatched == base.Keys + cand.Keys - r.matched
      && r.critical == MetricStatus(CriticalDetection, base, cand, limits)
      && r.detection == MetricStatus(Detection, base, cand, limits)
      && r.knownGood == MetricStatus(KnownGoodPass, base, cand, limits)
      && r.status == Overall(base, cand, limits)
  {
    hide CountPairs, PairsOf, Units, PairedStatus, Comparable, ById;
    var base, cand := ById(baseline), ById(candidate);
    var matched, mismatched, unmatched := MatchCases(base, cand);
    var defectUnits, criticalUnits, knownGoodUnits := [], [], [];
    var left := matched;
    assert matched - left == {};
    assert CountPairs([], true) == 0 && CountPairs([], false) == 0 by { NoPairs(); }
    while left != {}
      invariant left <= matched
      invariant Counted(Detection, defectUnits, matched - left, base, cand)
      invariant Counted(CriticalDetection, criticalUnits, matched - left, base, cand)
      invariant Counted(KnownGoodPass, knownGoodUnits, matched - left, base, cand)
      decreases left
    {
      hide Counted;
      var caseId :| caseId in left;
      var defects, critical, good := CaseUnits(base[caseId], cand[caseId]);
      CountedStep(Detection, defectUnits, matched - left, base, cand, caseId);
      CountedStep(CriticalDetection, criticalUnits, matched - left, base, cand, caseId);
      CountedStep(KnownGoodPass, knownGoodUnits, matched - left, base, cand, caseId);
      assert matched - left + {caseId} == matched - (left - {caseId});
      left := left - {caseId};
      defectUnits, criticalUnits, knownGoodUnits := defectUnits + defects, criticalUnits + critical,
        knownGoodUnits + good;
    }
    assert matched - left == matched;
    var _, _, c := Paired(CriticalDetection, criticalUnits, |matched|, limits);
    var _, _, d := Paired(Detection, defectUnits, |matched|, limits);
    var _, _, g := Paired(KnownGoodPass, knownGoodUnits, |matched|, limits);
    var status;
    if mismatched != {} {
      status := InsufficientEvidence;
    } else if c == AdvisoryRegression || d == AdvisoryRegression || g == AdvisoryRegression {
      status := AdvisoryRegression;
    } else if c == InsufficientEvidence || d == InsufficientEvidence || g == InsufficientEvidence {
      status := InsufficientEvidence;
    } else if c == AdvisoryImprovement || d == AdvisoryImprovement || g == AdvisoryImprovement {
      status := AdvisoryImprovement;
    } else {
      status := NoSignificantChange;
    }
    r := Report(matched, mismatched, unmatched, c, d, g, status);
  }

  lemma NoPairs()
    ensures CountPairs([], true) == 0 && CountPairs([], false) == 0
  {}

  // ---------------------------------------------------------------- what the statuses mean

  /** Success turns into failure from one side to the other at a unit of a case: at one of its defects, at a critical
      one, or at the verdict of a known-good case. */
  predicate Drops(m: Metric, truth: Outcome, from: Outcome, to: Outcome, i: nat) {
    match m
    case Detection =>
      i < |truth.defectIds| && truth.defectIds[i] in from.detected && truth.defectIds[i] !in to.detected
    case CriticalDetection =>
      && i < |truth.defectIds| && truth.defectIds[i] in from.detected && truth.defectIds[i] !in to.detected
      && truth.defectIds[i] in truth.critical
    case KnownGoodPass => i == 0 && truth.knownGood && from.passed == Some(true) && to.passed != Some(true)
  }

  function DropsOf(m: Metric, truth: Outcome, from: Outcome, to: Outcome, n: nat): set<nat> {
    set i: nat | i < n && Drops(m, truth, from, to, i)
  }

  /** All drops, each with its case. */
  ghost function AllDrops(m: Metric, keys: set<string>, truth: Cases, from: Cases, to: Cases): set<(string, nat)>
    requires keys <= truth.Keys && keys <= from.Keys && keys <= to.Keys
  {
    set k, i: nat | k in keys && i < |truth[k].defectIds| + 1 && Drops(m, truth[k], from[k], to[k], i) :: (k, i)
  }

  lemma DropsMore(m: Metric, truth: Outcome, from: Outcome, to: Outcome, n: nat)
    ensures |DropsOf(m, truth, from, to, n + 1)|
         == |DropsOf(m, truth, from, to, n)| + if Drops(m, truth, from, to, n) then 1 else 0
  {
    hide Drops;
    assert DropsOf(m, truth, from, to, n + 1)
        == DropsOf(m, truth, from, to, n) + (if Drops(m, truth, from, to, n) then {n} else {});
  }

  function DefectUnits(m: Metric, truth: Outcome, n: nat): seq<string>
    requires n <= |truth.defectIds|
  {
    if m.Detection? then truth.defectIds[..n] else Kept(truth.defectIds[..n], truth.critical)
  }

  lemma DefectUnitsMore(m: Metric, truth: Outcome, n: nat)
    requires n < |truth.defectIds|
    ensures var id := truth.defectIds[n];
      DefectUnits(m, truth, n + 1)
        == if m.Detection? || id in truth.critical then DefectUnits(m, truth, n) + [id] else DefectUnits(m, truth, n)
  {
    KeptStep(truth.defectIds, truth.critical, n);
    hide Kept;
  }

  lemma {:induction false} DefectDrops(m: Metric, truth: Outcome, from: Outcome, to: Outcome, n: nat)
    requires n <= |truth.defectIds| && !m.KnownGoodPass?
    ensures Discordant(m, DefectUnits(m, truth, n), from, to) == |DropsOf(m, truth, from, to, n)|
  {
    if n == 0 {
      assert DropsOf(m, truth, from, to, 0) == {};
    } else {
      DefectDrops(m, truth, from, to, n - 1);
      DropsMore(m, truth, from, to, n - 1);
      DefectUnitsMore(m, truth, n - 1);
      hide DefectUnits, Discordant, DropsOf;
      DiscordantAppend(m, DefectUnits(m, truth, n - 1), truth.defectIds[n - 1], from, to);
    }
  }

  lemma CaseDrops(m: Metric, truth: Outcome, from: Outcome, to: Outcome)
    ensures Discordant(m, Units(m, truth), from, to) == |DropsOf(m, truth, from, to, |truth.defectIds| + 1)|
  {
    var n := |truth.defectIds|;
    if m.KnownGoodPass? {
      assert DropsOf(m, truth, from, to, n + 1) == if Drops(m, truth, from, to, 0) then {0} else {};
      DiscordantAppend(m, [], truth.caseId, from, to);
      assert [] + [truth.caseId] == [truth.caseId];
    } else {
      DefectDrops(m, truth, from, to, n);
      assert truth.defectIds[..n] == truth.defectIds;
      assert DefectUnits(m, truth, n) == Units(m, truth);
      DropsMore(m, truth, from, to, n);
    }
  }

  function PairedWith(k: string, indices: set<nat>): set<(string, nat)> {
    set i: nat | i in indices :: (k, i)
  }

  lemma {:induction false} PairUp(k: string, indices: set<nat>)
    ensures |PairedWith(k, indices)| == |indices|
    decreases indices
  {
    if indices == {} {
      assert PairedWith(k, indices) == {};
    } else {
      var j :| j in indices;
      PairUp(k, indices - {j});
      assert (k, j) !in PairedWith(k, indices - {j});
      assert PairedWith(k, indices) == PairedWith(k, indices - {j}) + {(k, j)};
    }
  }

  lemma AllDropsStep(m: Metric, keys: set<string>, truth: Cases, from: Cases, to: Cases, k: string)
    requires keys <= truth.Keys && keys <= from.Keys && keys <= to.Keys && k in keys
    ensures |AllDrops(m, keys, truth, from, to)|
         == |DropsOf(m, truth[k], from[k], to[k], |truth[k].defectIds| + 1)|
           + |AllDrops(m, keys - {k}, truth, from, to)|
  {
    hide Drops;
    var here := DropsOf(m, truth[k], from[k], to[k], |truth[k].defectIds| + 1);
    PairUp(k, here);
    var rest := AllDrops(m, keys - {k}, truth, from, to);
    assert AllDrops(m, keys, truth, from, to) == PairedWith(k, here) + rest && PairedWith(k, here) !! rest;
  }

  /** The discordant pairs are the drops from one scorecard to the other, each counted once. */
  lemma {:induction false} TotalIsDrops(m: Metric, keys: set<string>, truth: Cases, from: Cases, to: Cases)
    requires keys <= truth.Keys && keys <= from.Keys && keys <= to.Keys
    ensures Total(m, keys, truth, from, to) == |AllDrops(m, keys, truth, from, to)|
    decreases keys
  {
    hide AllDrops, DropsOf, Discordant, Units, Total;
    if keys == {} {
      NoDrops(m, keys, truth, from, to);
    } else {
      var k :| k in keys;
      TotalIsDrops(m, keys - {k}, truth, from, to);
      TotalStep(m, keys, truth, from, to, k);
      CaseDrops(m, truth[k], from[k], to[k]);
      AllDropsStep(m, keys, truth, from, to, k);
    }
  }

  lemma NoDrops(m: Metric, keys: set<string>, truth: Cases, from: Cases, to: Cases)
    requires keys == {}
    ensures Total(m, keys, truth, from, to) == 0 && AllDrops(m, keys, truth, from, to) == {}
  {}

  /** A metric's status from its numbers: how many units the candidate lost and gained on the matched cases. */
  lemma StatusMeans(m: Metric, base: Cases, cand: Cases, limits: Limits)
    ensures var matched, status := Matched(base, cand), MetricStatus(m, base, cand, limits);
      var lost, gained := |AllDrops(m, matched, base, base, cand)|, |AllDrops(m, matched, base, cand, base)|;
      var enough := |matched| >= limits.minMatched && lost + gained >= limits.minDiscordant;
      var significant := SignTest.PValue(lost, gained) < limits.alpha;
      && (status.AdvisoryRegression? <==> enough && significant && lost > gained)
      && (status.AdvisoryImprovement? <==> enough && significant && lost <= gained)
      && (status.NoSignificantChange? <==>
            if enough then !significant else lost + gained == 0 && |matched| >= limits.minMatched)
  {
    var matched := Matched(base, cand);
    TotalIsDrops(m, matched, base, base, cand);
    TotalIsDrops(m, matched, base, cand, base);
    hide Total, AllDrops, Matched;
  }

  /** The whole report: any regression on agreeing ground truth decides; an improvement needs every metric to have
      enough evidence and none to be worse; mismatched ground truth leaves nothing to say. */
  lemma OverallMeans(base: Cases, cand: Cases, limits: Limits)
    ensures var status := Overall(base, cand, limits);
      && (status.AdvisoryRegression? <==>
            Mismatched(base, cand) == {}
              && exists m: Metric :: MetricStatus(m, base, cand, limits) == AdvisoryRegression)
      && (status.AdvisoryImprovement? <==>
            && Mismatched(base, cand) == {}
            && (exists m: Metric :: MetricStatus(m, base, cand, limits) == AdvisoryImprovement)
            && forall m: Metric :: MetricStatus(m, base, cand, limits) in {AdvisoryImprovement, NoSignificantChange})
      && (status.NoSignificantChange? <==>
            && Mismatched(base, cand) == {}
            && forall m: Metric :: MetricStatus(m, base, cand, limits) == NoSignificantChange)
  {
    hide MetricStatus, Mismatched;
    forall m: Metric, s: Status ensures MetricStatus(m, base, cand, limits) == s ==> Some3(s, base, cand, limits) {
      match m case CriticalDetection => case Detection => case KnownGoodPass =>
    }
  }

  /** The candidate succeeds nowhere that the baseline failed. */
  ghost predicate GainsNothing(b: Outcome, c: Outcome) {
    && (forall id :: id in b.defectIds && id in c.detected ==> id in b.detected)
    && (b.knownGood && c.passed == Some(true) ==> b.passed == Some(true))
  }

  /** At the default limits, a candidate that gains nothing on any matched case is never reported as an improvement, in
      any metric or over all. */
  lemma NoGainNoImprovement(base: Cases, cand: Cases)
    requires forall k :: k in Matched(base, cand) ==> GainsNothing(base[k], cand[k])
    ensures forall m: Metric :: MetricStatus(m, base, cand, DEFAULTS) != AdvisoryImprovement
    ensures Overall(base, cand, DEFAULTS) != AdvisoryImprovement
  {
    var matched := Matched(base, cand);
    forall m: Metric ensures MetricStatus(m, base, cand, DEFAULTS) != AdvisoryImprovement {
      StatusMeans(m, base, cand, DEFAULTS);
      assert AllDrops(m, matched, base, cand, base) == {};
      hide AllDrops, MetricStatus, Matched;
      SignTest.PValueLaws(|AllDrops(m, matched, base, base, cand)|, 0);
    }
    OverallMeans(base, cand, DEFAULTS);
  }

  // ---------------------------------------------------------------- swapping baseline and candidate

  function Mirror(s: Status): Status {
    match s
    case AdvisoryRegression => AdvisoryImprovement
    case AdvisoryImprovement => AdvisoryRegression
    case _ => s
  }

  /** The direction would be reported although neither side was better more often: only a significance above one
      lets the p-value of such a tie, which is one, through. */
  predicate TieReported(matched: nat, worse: nat, better: nat, limits: Limits) {
    matched >= limits.minMatched && worse + better >= limits.minDiscordant && worse == better && limits.alpha > 1.0
  }

  lemma PairedMirror(matched: nat, worse: nat, better: nat, limits: Limits)
    ensures PairedStatus(matched, better, worse, limits) == Mirror(PairedStatus(matched, worse, better, limits))
       <==> !TieReported(matched, worse, better, limits)
  {
    SignTest.PValueLaws(worse, better);
  }

  lemma {:induction false} KeptCount(ids: seq<string>, wanted: seq<string>, id: string)
    ensures multiset(Kept(ids, wanted))[id] == if id in wanted then multiset(ids)[id] else 0
  {
    if ids != [] {
      KeptCount(ids[..|ids| - 1], wanted, id);
      assert ids == ids[..|ids| - 1] + [ids[|ids| - 1]];
    }
  }

  /** Counting does not depend on the order of the units. */
  lemma {:induction false} DiscordantPermuted(m: Metric, s: seq<string>, t: seq<string>, up: Outcome, down: Outcome)
    requires multiset(s) == multiset(t)
    ensures Discordant(m, s, up, down) == Discordant(m, t, up, down)
    decreases |s|
  {
    if s == [] {
      assert |multiset(t)| == 0;
    } else {
      var n := |s| - 1;
      var i := PositionOfLast(s, t);
      DiscordantPermuted(m, s[..n], t[..i] + t[i + 1..], up, down);
      hide Hit;
      DiscordantWithout(m, t, i, up, down);
    }
  }

  /** Where the last element of one sequence sits in another with the same elements. */
  lemma PositionOfLast(s: seq<string>, t: seq<string>) returns (i: nat)
    requires s != [] && multiset(s) == multiset(t)
    ensures i < |t| && t[i] == s[|s| - 1]
    ensures multiset(s[..|s| - 1]) == multiset(t[..i] + t[i + 1..])
  {
    var n, unit := |s| - 1, s[|s| - 1];
    assert s == s[..n] + [unit];
    assert unit in multiset(s);
    assert unit in t;
    i :| 0 <= i < |t| && t[i] == unit;
    assert t == t[..i] + [unit] + t[i + 1..];
    calc {
      multiset(s[..n]);
      multiset(s) - multiset{unit};
      multiset(t[..i]) + multiset{unit} + multiset(t[i + 1..]) - multiset{unit};
      multiset(t[..i] + t[i + 1..]);
    }
  }

  lemma {:induction false} DiscordantWithout(m: Metric, t: seq<string>, i: nat, up: Outcome, down: Outcome)
    requires i < |t|
    ensures Discordant(m, t, up, down) == Discordant(m, t[..i] + t[i + 1..], up, down)
      + if Hit(m, up, t[i]) && !Hit(m, down, t[i]) then 1 else 0
  {
    hide Hit;
    var n := |t| - 1;
    var rest := t[..i] + t[i + 1..];
    if i == n {
      assert rest == t[..n];
    } else {
      DiscordantWithout(m, t[..n], i, up, down);
      assert t[..n][i] == t[i];
      assert rest == t[..n][..i] + t[..n][i + 1..] + [t[n]];
      DiscordantAppend(m, t[..n][..i] + t[..n][i + 1..], t[n], up, down);
    }
  }

  lemma DiscordantAppend(m: Metric, units: seq<string>, unit: string, up: Outcome, down: Outcome)
    ensures Discordant(m, units + [unit], up, down) == Discordant(m, units, up, down)
      + if Hit(m, up, unit) && !Hit(m, down, unit) then 1 else 0
  {
    assert (units + [unit])[..|units|] == units;
  }

  lemma CriticalAreGold(review: Scores.Review, found: set<string>, caseId: string, passed: Option<bool>, id: string)
    ensures id in OutcomeOf(caseId, review, found, passed).critical
       <==> exists g :: g in TruthOf(review).defects && g.id == id && g.severity.Critical?
  {
    OutcomeLists(caseId, review, found, passed, id);
    hide OutcomeOf;
    if d :| d in review.defects && d.id == id && d.severity == Scores.Critical {
      assert Gold(d.id, d.severity, d.category) in TruthOf(review).defects;
    }
  }

  /** Outcomes scored against the same ground truth agree on what is critical. */
  lemma TruthBindsSeverity(b: Outcome, c: Outcome, id: string)
    requires Genuine(b) && Genuine(c) && Comparable(b, c)
    ensures id in b.critical <==> id in c.critical
  {
    var x, m :| b == OutcomeOf(b.caseId, x, m, b.passed);
    var y, n :| c == OutcomeOf(c.caseId, y, n, c.passed);
    CriticalAreGold(x, m, b.caseId, b.passed, id);
    CriticalAreGold(y, n, c.caseId, c.passed, id);
  }

  lemma UnitsPermuted(m: Metric, b: Outcome, c: Outcome)
    requires Comparable(b, c) && b.caseId == c.caseId && Genuine(b) && Genuine(c)
    ensures multiset(Units(m, b)) == multiset(Units(m, c))
  {
    if m.CriticalDetection? {
      forall id ensures multiset(Kept(b.defectIds, b.critical))[id] == multiset(Kept(c.defectIds, c.critical))[id] {
        KeptCount(b.defectIds, b.critical, id);
        KeptCount(c.defectIds, c.critical, id);
        TruthBindsSeverity(b, c, id);
        assert id in multiset(b.defectIds) <==> id in b.defectIds;
      }
    }
  }

  /** Outcomes are filed under their own case id. */
  ghost predicate Filed(cases: Cases) {
    forall k :: k in cases ==> cases[k].caseId == k && Genuine(cases[k])
  }

  lemma {:induction false} ByIdFiled(outcomes: seq<Outcome>)
    requires forall o :: o in outcomes ==> Genuine(o)
    ensures Filed(ById(outcomes))
  {
    if outcomes != [] { ByIdFiled(outcomes[..|outcomes| - 1]); }
  }

  lemma {:induction false} TotalSwapped(m: Metric, keys: set<string>, base: Cases, cand: Cases, up: Cases, down: Cases)
    requires keys <= Matched(base, cand) && keys <= up.Keys && keys <= down.Keys
    requires Filed(base) && Filed(cand)
    ensures Total(m, keys, base, up, down) == Total(m, keys, cand, up, down)
    decreases keys
  {
    if keys != {} {
      var k :| k in keys;
      UnitsPermuted(m, base[k], cand[k]);
      DiscordantPermuted(m, Units(m, base[k]), Units(m, cand[k]), up[k], down[k]);
      TotalSwapped(m, keys - {k}, base, cand, up, down);
      hide Units, Discordant, Total;
      TotalStep(m, keys, base, up, down, k);
      TotalStep(m, keys, cand, up, down, k);
    }
  }

  lemma MatchedSwapped(base: Cases, cand: Cases)
    ensures Matched(cand, base) == Matched(base, cand) && Mismatched(cand, base) == Mismatched(base, cand)
    ensures Matched(base, cand) <= base.Keys && Matched(base, cand) <= cand.Keys
  {}

  /** With a significance of at most one, swapping the scorecards mirrors every metric. */
  lemma MetricMirror(m: Metric, base: Cases, cand: Cases, limits: Limits)
    requires Filed(base) && Filed(cand)
    ensures var matched := Matched(base, cand);
      MetricStatus(m, cand, base, limits) == Mirror(MetricStatus(m, base, cand, limits))
      <==> !TieReported(|matched|, Total(m, matched, base, base, cand), Total(m, matched, base, cand, base), limits)
  {
    var matched := Matched(base, cand);
    MatchedSwapped(base, cand);
    hide PairedStatus, TieReported, Total, Matched, Units;
    TotalSwapped(m, matched, base, cand, base, cand);
    TotalSwapped(m, matched, base, cand, cand, base);
    PairedMirror(|matched|, Total(m, matched, base, base, cand), Total(m, matched, base, cand, base), limits);
  }

  /** The overall status is mirrored exactly when the metrics do not pull in different directions: at most one of
      regression, improvement and missing evidence occurs among them, or the ground truths disagree. */
  lemma OverallMirror(base: Cases, cand: Cases, limits: Limits)
    requires Filed(base) && Filed(cand) && limits.alpha <= 1.0
    ensures var worse, better, unsure := Some3(AdvisoryRegression, base, cand, limits),
      Some3(AdvisoryImprovement, base, cand, limits), Some3(InsufficientEvidence, base, cand, limits);
      Overall(cand, base, limits) == Mirror(Overall(base, cand, limits))
      <==> Mismatched(base, cand) != {} || !((worse && better) || (worse && unsure) || (better && unsure))
  {
    MatchedSwapped(base, cand);
    hide Filed, MetricStatus, Matched, Mismatched;
    forall m: Metric ensures MetricStatus(m, cand, base, limits) == Mirror(MetricStatus(m, base, cand, limits)) {
      MetricMirror(m, base, cand, limits);
    }
  }

  /** At the default limits a direction is reported only on at least 20 matched cases, with agreeing ground truth
      and at least six discordant pairs in some metric; an improvement leaves no metric worse or unsure. */
  lemma DirectionNeedsEvidence(base: Cases, cand: Cases)
    ensures var s, matched := Overall(base, cand, DEFAULTS), Matched(base, cand);
      s.AdvisoryRegression? || s.AdvisoryImprovement? ==>
        && |matched| >= 20 && Mismatched(base, cand) == {}
        && exists m: Metric :: Total(m, matched, base, base, cand) + Total(m, matched, base, cand, base) >= 6
    ensures Overall(base, cand, DEFAULTS).AdvisoryImprovement? ==>
      forall m: Metric :: MetricStatus(m, base, cand, DEFAULTS) in {AdvisoryImprovement, NoSignificantChange}
  {
    var matched := Matched(base, cand);
    forall m: Metric
      ensures MetricStatus(m, base, cand, DEFAULTS) in {AdvisoryRegression, AdvisoryImprovement} ==>
        |matched| >= 20 && Total(m, matched, base, base, cand) + Total(m, matched, base, cand, base) >= 6
    {
      SignTest.SixPairsNeeded(Total(m, matched, base, base, cand), Total(m, matched, base, cand, base));
    }
    hide MetricStatus, Total, Matched, Mismatched;
    forall m: Metric
      ensures MetricStatus(m, base, cand, DEFAULTS) == AdvisoryRegression ==>
        Some3(AdvisoryRegression, base, cand, DEFAULTS)
      ensures MetricStatus(m, base, cand, DEFAULTS) == InsufficientEvidence ==>
        Some3(InsufficientEvidence, base, cand, DEFAULTS)
    {
      match m case CriticalDetection => case Detection => case KnownGoodPass =>
    }
  }
}
