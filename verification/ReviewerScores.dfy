/** Scoring reviewer findings against gold defects, and adding scores up into a scorecard. */
module ReviewerScores {
  import opened Text
  import Wilson

  datatype Severity = Critical | High | Medium | Low

  datatype Defect = Defect(id: string, category: string, severity: Severity, file: Option<string>,
    requirement: Option<string>)

  datatype Review = Review(knownGood: bool, defects: seq<Defect>)

  datatype Finding = Finding(id: string, category: string, file: Option<string>, requirement: Option<string>)

  datatype MatchMethod = ExactId | PathCategory | Path | Category

  datatype Match = Matched(defectId: string, how: MatchMethod) | Ambiguous | Unmatched

  /** Guaranteed by the manifest schema. */
  ghost predicate UniqueIds(defects: seq<Defect>) {
    forall i, j :: 0 <= i < j < |defects| ==> defects[i].id != defects[j].id
  }

  function Filter<T>(s: seq<T>, keep: T -> bool): seq<T> {
    if s == [] then []
    else Filter(s[..|s| - 1], keep) + (if keep(s[|s| - 1]) then [s[|s| - 1]] else [])
  }

  lemma {:induction false} FilterMembers<T>(s: seq<T>, keep: T -> bool, x: T)
    ensures x in Filter(s, keep) <==> x in s && keep(x)
    ensures |Filter(s, keep)| <= |s|
  {
    if s != [] {
      FilterMembers(s[..|s| - 1], keep, x);
      assert s == s[..|s| - 1] + [s[|s| - 1]];
    }
  }

  // ---------------------------------------------------------------- one finding

  predicate PathMatches(f: Finding, d: Defect) { f.file.Some? && f.file == d.file }

  predicate CategoryMatches(f: Finding, d: Defect) { f.category != "unspecified" && f.category == d.category }

  predicate Hints(f: Finding, d: Defect) {
    PathMatches(f, d) || CategoryMatches(f, d) || (f.requirement.Some? && f.requirement == d.requirement)
  }

  /** The unclaimed defects a finding hints at, in order. */
  function Candidates(f: Finding, defects: seq<Defect>, claimed: set<string>): seq<Defect> {
    Filter(defects, d => Hints(f, d) && d.id !in claimed)
  }

  function MatchOne(f: Finding, defects: seq<Defect>, claimed: set<string>): Match {
    if f.id !in claimed && exists i :: 0 <= i < |defects| && defects[i].id == f.id then Matched(f.id, ExactId)
    else
      var candidates := Candidates(f, defects, claimed);
      if |candidates| > 1 then Ambiguous
      else if |candidates| == 1 then
        var d := candidates[0];
        Matched(d.id, if PathMatches(f, d) && CategoryMatches(f, d) then PathCategory
                      else if PathMatches(f, d) then Path else Category)
      else Unmatched
  }

  function DetectedIds(matches: seq<Match>): set<string> {
    set i | 0 <= i < |matches| && matches[i].Matched? :: matches[i].defectId
  }

  /** Findings claim defects from first to last. */
  function MatchAll(findings: seq<Finding>, defects: seq<Defect>): (matches: seq<Match>)
    ensures |matches| == |findings|
  {
    if findings == [] then []
    else
      var before := MatchAll(findings[..|findings| - 1], defects);
      before + [MatchOne(findings[|findings| - 1], defects, DetectedIds(before))]
  }

  lemma DetectedMore(matches: seq<Match>, m: Match)
    ensures DetectedIds(matches + [m]) == DetectedIds(matches) + (if m.Matched? then {m.defectId} else {})
  {
    var more := matches + [m];
    forall i | 0 <= i < |matches| && matches[i].Matched? ensures matches[i].defectId in DetectedIds(more) {
      assert more[i] == matches[i];
    }
    if m.Matched? { assert more[|matches|] == m; }
  }

  method MatchFindings(findings: seq<Finding>, defects: seq<Defect>) returns (matches: seq<Match>)
    ensures matches == MatchAll(findings, defects)
  {
    var matched: set<string> := {};
    matches := [];
    for n := 0 to |findings|
      invariant matches == MatchAll(findings[..n], defects)
      invariant matched == DetectedIds(matches)
    {
      assert findings[..n + 1][..n] == findings[..n];
      var finding := findings[n];
      var result;
      var candidates := Candidates(finding, defects, matched);
      if finding.id !in matched && exists i :: 0 <= i < |defects| && defects[i].id == finding.id {
        result := Matched(finding.id, ExactId);
      } else if |candidates| > 1 {
        result := Ambiguous;
      } else if |candidates| == 1 {
        var d := candidates[0];
        var path, category := PathMatches(finding, d), CategoryMatches(finding, d);
        result := Matched(d.id, if path && category then PathCategory else if path then Path else Category);
      } else {
        result := Unmatched;
      }
      DetectedMore(matches, result);
      if result.Matched? {
        matched := matched + {result.defectId};
      }
      matches := matches + [result];
    }
    assert findings[..|findings|] == findings;
  }

  /** A finding claims only a real defect that nobody claimed before; it ends unmatched only when every defect it
      names or hints at was claimed already. */
  lemma MatchOneLaws(f: Finding, defects: seq<Defect>, claimed: set<string>)
    ensures var m := MatchOne(f, defects, claimed);
      && (m.Matched? ==> m.defectId !in claimed && exists d :: d in defects && d.id == m.defectId)
      && (m.Unmatched? <==> forall d :: d in defects && (d.id == f.id || Hints(f, d)) ==> d.id in claimed)
      && (m.Ambiguous? ==> exists d :: d in defects && Hints(f, d) && d.id !in claimed)
  {
    var keep := (d: Defect) => Hints(f, d) && d.id !in claimed;
    var candidates := Candidates(f, defects, claimed);
    forall d ensures d in candidates <==> d in defects && keep(d) {
      FilterMembers(defects, keep, d);
    }
    if candidates != [] { assert candidates[0] in candidates; }
    if i :| 0 <= i < |defects| && defects[i].id == f.id { assert defects[i] in defects; }
  }

  /** The finding shares the file, the category, or the requirement of the defect; an unspecified category says
      nothing. */
  predicate PointsAt(f: Finding, d: Defect) {
    || (f.file.Some? && d.file.Some? && f.file.value == d.file.value)
    || (f.category == d.category && f.category != "unspecified")
    || (f.requirement.Some? && d.requirement.Some? && f.requirement.value == d.requirement.value)
  }

  lemma {:induction false} OneOrMore<T>(s: seq<T>, keep: T -> bool)
    ensures |Filter(s, keep)| > 1 <==> exists i, j :: 0 <= i < j < |s| && keep(s[i]) && keep(s[j])
    ensures |Filter(s, keep)| > 0 <==> exists i :: 0 <= i < |s| && keep(s[i])
  {
    if s != [] {
      var n := |s| - 1;
      var front := s[..n];
      OneOrMore(front, keep);
      if i, j :| 0 <= i < j < |front| && keep(front[i]) && keep(front[j]) { assert keep(s[i]) && keep(s[j]); }
      if i, j :| 0 <= i < j < |s| && keep(s[i]) && keep(s[j]) {
        assert front[i] == s[i];
        if j < n { assert front[j] == s[j]; }
      }
      if i :| 0 <= i < |front| && keep(front[i]) { assert keep(s[i]); }
      if i :| 0 <= i < |s| && keep(s[i]) && i < n { assert front[i] == s[i]; }
    }
  }

  /** A finding that names an unclaimed defect matches it; otherwise the unclaimed defects it points at decide: one is a
      match, told by file and category, two are ambiguous, none leaves it unmatched. */
  lemma HowMatched(f: Finding, defects: seq<Defect>, claimed: set<string>)
    ensures var m := MatchOne(f, defects, claimed);
      var named := f.id !in claimed && exists d :: d in defects && d.id == f.id;
      var free := (d: Defect) => PointsAt(f, d) && d.id !in claimed;
      && (m == Matched(f.id, ExactId) <==> named)
      && (m.Ambiguous? <==> !named && exists i, j :: 0 <= i < j < |defects| && free(defects[i]) && free(defects[j]))
      && (m.Unmatched? <==> !named && forall d :: d in defects ==> !free(d))
      && (m.Matched? && !named ==> exists d ::
            && d in defects && free(d) && m.defectId == d.id
            && var file := f.file.Some? && f.file == d.file;
            var category := f.category == d.category && f.category != "unspecified";
            m.how == if file && category then PathCategory else if file then Path else Category)
  {
    var keep := (d: Defect) => Hints(f, d) && d.id !in claimed;
    var candidates := Candidates(f, defects, claimed);
    assert forall d :: keep(d) <==> PointsAt(f, d) && d.id !in claimed;
    OneOrMore(defects, keep);
    if i :| 0 <= i < |defects| && defects[i].id == f.id { assert defects[i] in defects; }
    if candidates != [] {
      FilterMembers(defects, keep, candidates[0]);
      assert candidates[0] in candidates;
    }
    hide Filter;
  }

  /** No defect is claimed twice. */
  ghost predicate Injective(m: seq<Match>) {
    forall i, j :: 0 <= i < j < |m| && m[i].Matched? && m[j].Matched? ==> m[i].defectId != m[j].defectId
  }

  lemma {:induction false} MatchesInjective(findings: seq<Finding>, defects: seq<Defect>)
    ensures Injective(MatchAll(findings, defects))
  {
    if findings != [] {
      var n := |findings| - 1;
      var before := MatchAll(findings[..n], defects);
      var last := MatchOne(findings[n], defects, DetectedIds(before));
      MatchesInjective(findings[..n], defects);
      MatchOneLaws(findings[n], defects, DetectedIds(before));
      hide MatchAll, MatchOne;
      forall i | 0 <= i < n && before[i].Matched? && last.Matched? ensures before[i].defectId != last.defectId {
        assert before[i].defectId in DetectedIds(before);
      }
    }
  }

  /** What the match at one position knew: the defects claimed by the findings before it. */
  lemma {:induction false} MatchAt(findings: seq<Finding>, defects: seq<Defect>, i: nat)
    requires i < |findings|
    ensures var m := MatchAll(findings, defects);
            m[i] == MatchOne(findings[i], defects, DetectedIds(m[..i]))
  {
    var n := |findings| - 1;
    var m := MatchAll(findings, defects);
    assert m[..n] == MatchAll(findings[..n], defects);
    if i < n {
      MatchAt(findings[..n], defects, i);
      assert m[..n][..i] == m[..i];
    }
  }

  /** Matching is injective, stays within the defects, and is greedy: nothing an unmatched finding could have
      taken was free when its turn came. */
  lemma MatchAllLaws(findings: seq<Finding>, defects: seq<Defect>)
    ensures var m := MatchAll(findings, defects);
      && Injective(m)
      && (forall i :: 0 <= i < |m| && m[i].Matched? ==> exists d :: d in defects && d.id == m[i].defectId)
      && (forall i, d :: 0 <= i < |m| && m[i].Unmatched? && d in defects ==>
            (d.id == findings[i].id || Hints(findings[i], d)) ==> d.id in DetectedIds(m[..i]))
  {
    MatchesInjective(findings, defects);
    hide MatchAll, MatchOne, DetectedIds, Hints;
    var m := MatchAll(findings, defects);
    forall i | 0 <= i < |m|
      ensures m[i].Matched? ==> exists d :: d in defects && d.id == m[i].defectId
      ensures forall d :: m[i].Unmatched? && d in defects && (d.id == findings[i].id || Hints(findings[i], d)) ==>
                d.id in DetectedIds(m[..i])
    {
      MatchAt(findings, defects, i);
      MatchOneLaws(findings[i], defects, DetectedIds(m[..i]));
    }
  }

  // ---------------------------------------------------------------- one case

  datatype CaseScore = CaseScore(
    knownGood: bool, verdict: Option<string>, findings: nat, matches: seq<Match>, missed: seq<string>,
    criticalDefects: nat, criticalDetected: nat, defects: nat, detected: nat, falsePositives: nat)

  function Missed(defects: seq<Defect>, detected: set<string>): seq<Defect> {
    Filter(defects, (d: Defect) => d.id !in detected)
  }

  function Ids(defects: seq<Defect>): (r: seq<string>)
    ensures |r| == |defects|
  {
    seq(|defects|, i requires 0 <= i < |defects| => defects[i].id)
  }

  function ScoreOf(review: Review, findings: seq<Finding>, verdict: Option<string>): CaseScore {
    var matches := MatchAll(findings, review.defects);
    var detected := DetectedIds(matches);
    CaseScore(review.knownGood, verdict, |findings|, matches, Ids(Missed(review.defects, detected)),
      |Filter(review.defects, (d: Defect) => d.severity.Critical?)|,
      |Filter(review.defects, (d: Defect) => d.severity.Critical? && d.id in detected)|,
      |review.defects|, |detected|, |Filter(matches, (m: Match) => !m.Matched?)|)
  }

  lemma LastIsNew(matches: seq<Match>)
    requires Injective(matches) && matches != []
    ensures var front, last := matches[..|matches| - 1], matches[|matches| - 1];
      Injective(front) && (last.Matched? ==> last.defectId !in DetectedIds(front))
  {}

  lemma {:induction false} MatchedPlusOthers(matches: seq<Match>)
    requires Injective(matches)
    ensures |DetectedIds(matches)| + |Filter(matches, (m: Match) => !m.Matched?)| == |matches|
  {
    if matches != [] {
      var front, last := matches[..|matches| - 1], matches[|matches| - 1];
      LastIsNew(matches);
      hide DetectedIds, Injective;
      MatchedPlusOthers(front);
      DetectedMore(front, last);
      assert matches == front + [last];
    } else {
      assert DetectedIds(matches) == {};
    }
  }

  lemma {:induction false} DetectedPlusMissed(defects: seq<Defect>, detected: set<string>)
    requires UniqueIds(defects)
    ensures |Missed(defects, detected)| + |set d | d in defects && d.id in detected :: d.id| == |defects|
  {
    if defects != [] {
      var n := |defects| - 1;
      DetectedPlusMissed(defects[..n], detected);
      assert defects == defects[..n] + [defects[n]];
      var before := set d | d in defects[..n] && d.id in detected :: d.id;
      var after := set d | d in defects && d.id in detected :: d.id;
      assert after == before + (if defects[n].id in detected then {defects[n].id} else {});
      assert defects[n].id !in before;
    } else {
      assert (set d | d in defects && d.id in detected :: d.id) == {};
    }
  }

  /** Every finding is a match or a false positive, and every gold defect is detected or missed. */
  lemma ScoreAddsUp(review: Review, findings: seq<Finding>, verdict: Option<string>)
    requires UniqueIds(review.defects)
    ensures var s := ScoreOf(review, findings, verdict);
      && s.detected + s.falsePositives == s.findings
      && s.detected + |s.missed| == s.defects
      && s.criticalDetected <= s.criticalDefects <= s.defects
  {
    var matches := MatchAll(findings, review.defects);
    var detected := DetectedIds(matches);
    MatchAllLaws(findings, review.defects);
    MatchedPlusOthers(matches);
    DetectedPlusMissed(review.defects, detected);
    assert (set d | d in review.defects && d.id in detected :: d.id) == detected by {
      forall id | id in detected ensures exists d :: d in review.defects && d.id == id {
        var i :| 0 <= i < |matches| && matches[i].Matched? && matches[i].defectId == id;
      }
    }
    FilterWeaker(review.defects,
      (d: Defect) => d.severity.Critical? && d.id in detected, (d: Defect) => d.severity.Critical?);
  }

  lemma {:induction false} FilterWeaker<T>(s: seq<T>, strong: T -> bool, weak: T -> bool)
    requires forall x :: x in s && strong(x) ==> weak(x)
    ensures |Filter(s, strong)| <= |Filter(s, weak)| <= |s|
  {
    if s != [] { FilterWeaker(s[..|s| - 1], strong, weak); }
  }

  // ---------------------------------------------------------------- scorecards

  /** A case of the benchmark; the score is absent when the reviewer produced nothing. */
  datatype Case = Case(review: Review, score: Option<CaseScore>)

  ghost predicate Built(c: Case) {
    c.score.Some? ==> exists findings, verdict :: c.score.value == ScoreOf(c.review, findings, verdict)
  }

  function CollapseSeparators(s: string): string {
    if s == "" then ""
    else if s[0] != ' ' && s[0] != '-' then [s[0]] + CollapseSeparators(s[1..])
    else if |s| > 1 && (s[1] == ' ' || s[1] == '-') then CollapseSeparators(s[1..])
    else "_" + CollapseSeparators(s[1..])
  }

  function PassedVerdict(verdict: Option<string>): Option<bool> {
    if verdict.None? then None
    else
      var v := CollapseSeparators(Lower(verdict.value));
      Some(v == "pass" || v == "passed" || v == "approved")
  }

  function Found(c: Case): set<string> {
    if c.score.Some? then DetectedIds(c.score.value.matches) else {}
  }

  function Passed(c: Case): Option<bool> {
    if c.score.Some? then PassedVerdict(c.score.value.verdict) else None
  }

  /** The six proportions of a scorecard. */
  datatype Metric = P0Recall | P01Recall | OverallRecall | FalsePositives | PassOnDefective | FailOnKnownGood

  predicate Serious(m: Metric, d: Defect) {
    m.OverallRecall? || d.severity.Critical? || (m.P01Recall? && d.severity.High?)
  }

  function Bit(b: bool): nat { if b then 1 else 0 }

  /** Defects of a case that count for a recall, and those of them that were found. */
  function SeriousCount(m: Metric, c: Case): nat {
    |Filter(c.review.defects, d => Serious(m, d))|
  }

  function SeriousFound(m: Metric, c: Case): nat {
    |Filter(c.review.defects, d => Serious(m, d) && d.id in Found(c))|
  }

  /** What one case adds to the denominator of a proportion. */
  function Trials(m: Metric, c: Case): nat {
    match m
    case FalsePositives => if c.score.Some? then c.score.value.findings else 0
    case PassOnDefective => Bit(!c.review.knownGood)
    case FailOnKnownGood => Bit(c.review.knownGood)
    case _ => SeriousCount(m, c)
  }

  /** What one case adds to the numerator: no verdict on a known-good case is a failure, no output on a
      defective one lets the defect pass. */
  function Successes(m: Metric, c: Case): nat {
    match m
    case FalsePositives => if c.score.Some? then c.score.value.falsePositives else 0
    case PassOnDefective => Bit(!c.review.knownGood && (Passed(c) == Some(true) || c.score.None?))
    case FailOnKnownGood => Bit(c.review.knownGood && Passed(c) != Some(true))
    case _ => SeriousFound(m, c)
  }

  function TotalTrials(m: Metric, cases: seq<Case>): nat {
    if cases == [] then 0 else TotalTrials(m, cases[..|cases| - 1]) + Trials(m, cases[|cases| - 1])
  }

  function TotalSuccesses(m: Metric, cases: seq<Case>): nat {
    if cases == [] then 0 else TotalSuccesses(m, cases[..|cases| - 1]) + Successes(m, cases[|cases| - 1])
  }

  lemma TotalStep(m: Metric, cases: seq<Case>, n: nat)
    requires n < |cases|
    ensures TotalTrials(m, cases[..n + 1]) == TotalTrials(m, cases[..n]) + Trials(m, cases[n])
    ensures TotalSuccesses(m, cases[..n + 1]) == TotalSuccesses(m, cases[..n]) + Successes(m, cases[n])
  {
    hide Trials, Successes;
    assert cases[..n + 1][..n] == cases[..n];
  }

  /** Successes and trials of each proportion. */
  datatype Counts = Counts(
    p0: (nat, nat), p01: (nat, nat), overall: (nat, nat), falsePositives: (nat, nat),
    passOnDefective: (nat, nat), failOnKnownGood: (nat, nat))

  /** What one case adds to every counter. */
  lemma Contributions(c: Case)
    ensures Trials(P0Recall, c) == SeriousCount(P0Recall, c) && Successes(P0Recall, c) == SeriousFound(P0Recall, c)
    ensures Trials(P01Recall, c) == SeriousCount(P01Recall, c) && Successes(P01Recall, c) == SeriousFound(P01Recall, c)
    ensures Trials(OverallRecall, c) == SeriousCount(OverallRecall, c)
    ensures Successes(OverallRecall, c) == SeriousFound(OverallRecall, c)
    ensures Trials(FalsePositives, c) == (if c.score.Some? then c.score.value.findings else 0)
    ensures Successes(FalsePositives, c) == (if c.score.Some? then c.score.value.falsePositives else 0)
    ensures Trials(PassOnDefective, c) == Bit(!c.review.knownGood)
      && Trials(FailOnKnownGood, c) == Bit(c.review.knownGood)
    ensures Successes(PassOnDefective, c) == Bit(!c.review.knownGood && (Passed(c) == Some(true) || c.score.None?))
    ensures Successes(FailOnKnownGood, c) == Bit(c.review.knownGood && Passed(c) != Some(true))
  {
    hide SeriousCount, SeriousFound, Passed, Bit;
  }

  method CountScorecard(cases: seq<Case>) returns (counts: Counts)
    ensures counts.p0 == (TotalSuccesses(P0Recall, cases), TotalTrials(P0Recall, cases))
    ensures counts.p01 == (TotalSuccesses(P01Recall, cases), TotalTrials(P01Recall, cases))
    ensures counts.overall == (TotalSuccesses(OverallRecall, cases), TotalTrials(OverallRecall, cases))
    ensures counts.falsePositives == (TotalSuccesses(FalsePositives, cases), TotalTrials(FalsePositives, cases))
    ensures counts.passOnDefective == (TotalSuccesses(PassOnDefective, cases), TotalTrials(PassOnDefective, cases))
    ensures counts.failOnKnownGood == (TotalSuccesses(FailOnKnownGood, cases), TotalTrials(FailOnKnownGood, cases))
  {
    var p0Total, p0Hit, p01Total, p01Hit, defectTotal, defectHit := 0, 0, 0, 0, 0, 0;
    var findingTotal, falsePositiveTotal := 0, 0;
    var defectiveCases, defectivePasses, knownGoodCases, knownGoodFailures := 0, 0, 0, 0;
    for n := 0 to |cases|
      invariant p0Total == TotalTrials(P0Recall, cases[..n]) && p0Hit == TotalSuccesses(P0Recall, cases[..n])
      invariant p01Total == TotalTrials(P01Recall, cases[..n]) && p01Hit == TotalSuccesses(P01Recall, cases[..n])
      invariant defectTotal == TotalTrials(OverallRecall, cases[..n])
      invariant defectHit == TotalSuccesses(OverallRecall, cases[..n])
      invariant findingTotal == TotalTrials(FalsePositives, cases[..n])
      invariant falsePositiveTotal == TotalSuccesses(FalsePositives, cases[..n])
      invariant defectiveCases == TotalTrials(PassOnDefective, cases[..n])
      invariant defectivePasses == TotalSuccesses(PassOnDefective, cases[..n])
      invariant knownGoodCases == TotalTrials(FailOnKnownGood, cases[..n])
      invariant knownGoodFailures == TotalSuccesses(FailOnKnownGood, cases[..n])
    {
      hide SeriousCount, SeriousFound, Passed, TotalTrials, TotalSuccesses, Trials, Successes;
      var entry := cases[n];
      Contributions(entry);
      TotalStep(P0Recall, cases, n);
      TotalStep(P01Recall, cases, n);
      TotalStep(OverallRecall, cases, n);
      TotalStep(FalsePositives, cases, n);
      TotalStep(PassOnDefective, cases, n);
      TotalStep(FailOnKnownGood, cases, n);
      p0Total := p0Total + SeriousCount(P0Recall, entry);
      p0Hit := p0Hit + SeriousFound(P0Recall, entry);
      p01Total := p01Total + SeriousCount(P01Recall, entry);
      p01Hit := p01Hit + SeriousFound(P01Recall, entry);
      defectTotal := defectTotal + SeriousCount(OverallRecall, entry);
      defectHit := defectHit + SeriousFound(OverallRecall, entry);
      var passed := Passed(entry);
      if entry.score.Some? {
        falsePositiveTotal := falsePositiveTotal + entry.score.value.falsePositives;
        findingTotal := findingTotal + entry.score.value.findings;
      }
      if entry.review.knownGood {
        knownGoodCases := knownGoodCases + 1;
        if passed != Some(true) {
          knownGoodFailures := knownGoodFailures + 1;
        }
      } else {
        defectiveCases := defectiveCases + 1;
        if passed == Some(true) || entry.score.None? {
          defectivePasses := defectivePasses + 1;
        }
      }
    }
    assert cases[..|cases|] == cases;
    return Counts((p0Hit, p0Total), (p01Hit, p01Total), (defectHit, defectTotal), (falsePositiveTotal, findingTotal),
                  (defectivePasses, defectiveCases), (knownGoodFailures, knownGoodCases));
  }

  lemma CaseInRange(m: Metric, c: Case)
    requires Built(c) && UniqueIds(c.review.defects)
    ensures Successes(m, c) <= Trials(m, c)
  {
    match m
    case FalsePositives =>
      if c.score.Some? {
        var findings, verdict :| c.score.value == ScoreOf(c.review, findings, verdict);
        ScoreAddsUp(c.review, findings, verdict);
      }
    case PassOnDefective =>
    case FailOnKnownGood =>
    case _ =>
      FilterWeaker(c.review.defects, d => Serious(m, d) && d.id in Found(c), d => Serious(m, d));
  }

  /** On scores built from reviewer output, no proportion of a scorecard has more successes than trials. */
  lemma {:induction false} ProportionsInRange(cases: seq<Case>, m: Metric)
    requires forall i :: 0 <= i < |cases| ==> Built(cases[i]) && UniqueIds(cases[i].review.defects)
    ensures TotalSuccesses(m, cases) <= TotalTrials(m, cases)
    ensures Wilson.InRange(TotalSuccesses(m, cases), TotalTrials(m, cases))
  {
    if cases != [] {
      ProportionsInRange(cases[..|cases| - 1], m);
      CaseInRange(m, cases[|cases| - 1]);
    }
  }

  lemma {:induction false} FilterComplement(defects: seq<Defect>, keep: Defect -> bool, drop: Defect -> bool)
    requires forall d :: d in defects ==> keep(d) == !drop(d)
    ensures |Filter(defects, keep)| + |Filter(defects, drop)| == |defects|
  {
    if defects != [] { FilterComplement(defects[..|defects| - 1], keep, drop); }
  }

  lemma {:induction false} FilterSame(defects: seq<Defect>, f: Defect -> bool, g: Defect -> bool)
    requires forall d :: d in defects ==> f(d) == g(d)
    ensures Filter(defects, f) == Filter(defects, g)
  {
    if defects != [] { FilterSame(defects[..|defects| - 1], f, g); }
  }

  /** The scorecard counts a case as its score did: the defects its recalls lack are the missed ones, and its critical
      defects are the critical ones of the score. A case without a score lacks all of them. */
  lemma ScorecardAgreesWithScore(c: Case)
    requires Built(c)
    ensures Trials(OverallRecall, c) == Successes(OverallRecall, c)
      + if c.score.Some? then |c.score.value.missed| else |c.review.defects|
    ensures c.score.Some? ==>
      Trials(P0Recall, c) == c.score.value.criticalDefects && Successes(P0Recall, c) == c.score.value.criticalDetected
  {
    var defects, found := c.review.defects, Found(c);
    if c.score.Some? {
      var findings, verdict :| c.score.value == ScoreOf(c.review, findings, verdict);
      hide MatchAll, DetectedIds;
      FilterComplement(defects, d => Serious(OverallRecall, d) && d.id in found, (d: Defect) => d.id !in found);
      FilterSame(defects, d => Serious(P0Recall, d), (d: Defect) => d.severity.Critical?);
      FilterSame(defects,
        d => Serious(P0Recall, d) && d.id in found, (d: Defect) => d.severity.Critical? && d.id in found);
    } else {
      FilterComplement(defects, d => Serious(OverallRecall, d) && d.id in found, (d: Defect) => true);
      FilterSame(defects, (d: Defect) => true, d => Serious(OverallRecall, d));
    }
    FilterComplement(defects, d => Serious(OverallRecall, d), (d: Defect) => false);
    NoneKept(defects);
  }

  lemma {:induction false} NoneKept(defects: seq<Defect>)
    ensures Filter(defects, (d: Defect) => false) == []
  {
    if defects != [] { NoneKept(defects[..|defects| - 1]); }
  }

  // ---------------------------------------------------------------- what the proportions count

  ghost function KeptAt<T>(s: seq<T>, keep: T -> bool): set<int> { set i | 0 <= i < |s| && keep(s[i]) }

  lemma {:induction false} FilterCounts<T>(s: seq<T>, keep: T -> bool)
    ensures |Filter(s, keep)| == |KeptAt(s, keep)|
  {
    if s == [] {
      assert KeptAt(s, keep) == {};
    } else {
      var n := |s| - 1;
      FilterCounts(s[..n], keep);
      assert KeptAt(s, keep) == KeptAt(s[..n], keep) + if keep(s[n]) then {n} else {};
    }
  }

  /** The defects of a case that a recall is about: the critical ones, those and the high ones, or all. */
  ghost function About(m: Metric, c: Case): set<int> {
    set i | 0 <= i < |c.review.defects| &&
      match m
      case P0Recall => c.review.defects[i].severity == Critical
      case P01Recall => c.review.defects[i].severity in {Critical, High}
      case _ => true
  }

  /** Those of them that a finding was matched with. */
  ghost function Hits(m: Metric, c: Case): set<int> {
    set i | i in About(m, c) && c.score.Some?
      && exists k :: 0 <= k < |c.score.value.matches| && c.score.value.matches[k].Matched?
           && c.score.value.matches[k].defectId == c.review.defects[i].id
  }

  /** A recall counts the defects it is about and those of them that were found; a case without a score found none. */
  lemma RecallsMean(m: Metric, c: Case)
    requires m in {P0Recall, P01Recall, OverallRecall}
    ensures Trials(m, c) == |About(m, c)| && Successes(m, c) == |Hits(m, c)|
  {
    var defects := c.review.defects;
    FilterCounts(defects, d => Serious(m, d));
    FilterCounts(defects, d => Serious(m, d) && d.id in Found(c));
    assert KeptAt(defects, d => Serious(m, d)) == About(m, c);
    assert KeptAt(defects, d => Serious(m, d) && d.id in Found(c)) == Hits(m, c);
  }

  /** A defective case counts as passed when the reviewer passed it or produced nothing, a known-good one as failed
      unless the reviewer passed it; false positives are counted over the findings. */
  lemma VerdictsMean(c: Case)
    ensures Trials(PassOnDefective, c) == (if c.review.knownGood then 0 else 1)
    ensures Trials(FailOnKnownGood, c) == (if c.review.knownGood then 1 else 0)
    ensures Successes(PassOnDefective, c)
      == if !c.review.knownGood && (c.score.None? || PassedVerdict(c.score.value.verdict) == Some(true)) then 1 else 0
    ensures Successes(FailOnKnownGood, c)
      == if c.review.knownGood && (c.score.None? || PassedVerdict(c.score.value.verdict) != Some(true)) then 1 else 0
    ensures Trials(FalsePositives, c) == (if c.score.Some? then c.score.value.findings else 0)
    ensures Successes(FalsePositives, c) == (if c.score.Some? then c.score.value.falsePositives else 0)
  {}

  /** The three words that pass, in any case; nothing that is separated does. */
  lemma PassingWords(verdict: string)
    ensures PassedVerdict(Some(verdict)) == Some(Lower(verdict) in {"pass", "passed", "approved"})
  {
    if exists i :: 0 <= i < |verdict| && Separates(verdict[i]) {
      LowerSeparated(verdict);
      SeparatorsStay(Lower(verdict));
    } else {
      LowerSame(verdict);
      NothingCollapsed(Lower(verdict));
    }
  }

  predicate Separates(c: char) { c == ' ' || c == '-' }

  lemma {:induction false} LowerSeparated(s: string)
    requires exists i :: 0 <= i < |s| && Separates(s[i])
    ensures exists i :: 0 <= i < |Lower(s)| && Separates(Lower(s)[i])
  {
    if Separates(s[0]) {
      assert Separates(Lower(s)[0]);
    } else {
      var i :| 0 <= i < |s| && Separates(s[i]);
      assert Separates(s[1..][i - 1]);
      LowerSeparated(s[1..]);
      var j :| 0 <= j < |Lower(s[1..])| && Separates(Lower(s[1..])[j]);
      assert Separates(Lower(s)[j + 1]);
    }
  }

  /** Separators are collapsed into one character that no passing word has. */
  lemma {:induction false} SeparatorsStay(s: string)
    requires exists i :: 0 <= i < |s| && Separates(s[i])
    ensures '_' in CollapseSeparators(s)
  {
    if !Separates(s[0]) {
      var i :| 0 <= i < |s| && Separates(s[i]);
      assert Separates(s[1..][i - 1]);
      SeparatorsStay(s[1..]);
    } else if |s| > 1 && Separates(s[1]) {
      assert Separates(s[1..][0]);
      SeparatorsStay(s[1..]);
    }
  }

  lemma {:induction false} LowerSame(s: string)
    requires forall i :: 0 <= i < |s| ==> s[i] != ' ' && s[i] != '-'
    ensures forall i :: 0 <= i < |Lower(s)| ==> Lower(s)[i] != ' ' && Lower(s)[i] != '-'
  {
    if s != "" { LowerSame(s[1..]); }
  }

  lemma {:induction false} NothingCollapsed(s: string)
    requires forall i :: 0 <= i < |s| ==> s[i] != ' ' && s[i] != '-'
    ensures CollapseSeparators(s) == s
  {
    if s != "" {
      NothingCollapsed(s[1..]);
      assert s == [s[0]] + s[1..];
    }
  }
}
