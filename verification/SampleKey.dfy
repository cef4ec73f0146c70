/** The stable text of a sample, and that it tells samples apart. */
module SampleKey {
  import opened Text
  import opened CohortReport
  import opened ReviewerTotals
  import J = CanonicalJson

  // ---------------------------------------------------------------- records

  /** A field of a record; absent ones are not printed. */
  datatype Column = Column(key: string, value: Option<J.Json>)

  function Present(cols: seq<Column>): seq<J.Field> {
    if cols == [] then []
    else
      var last := cols[|cols| - 1];
      Present(cols[..|cols| - 1]) + if last.value.Some? then [J.Field(last.key, last.value.value)] else []
  }

  function Record(cols: seq<Column>): J.Json { J.Object(Present(cols)) }

  /** Length and first character tell the keys of one record apart. */
  function Rank(key: string): nat { if key == "" then 0 else |key| * 0x1_0000 + key[0] as int }

  /** Columns are listed by rank. */
  ghost predicate Ascending(cols: seq<Column>) {
    forall i, j :: 0 <= i < j < |cols| ==> Rank(cols[i].key) < Rank(cols[j].key)
  }

  lemma KeysDiffer(cols: seq<Column>, i: nat, j: nat)
    requires Ascending(cols) && i < |cols| && j < |cols| && cols[i].key == cols[j].key
    ensures i == j
  {}

  ghost predicate Holds(cols: seq<Column>, i: int, f: J.Field) {
    0 <= i < |cols| && cols[i] == Column(f.key, Some(f.value))
  }

  lemma {:induction false} PresentMembers(cols: seq<Column>, f: J.Field)
    ensures f in Present(cols) <==> exists i :: Holds(cols, i, f)
  {
    if cols != [] {
      var n := |cols| - 1;
      PresentMembers(cols[..n], f);
      if f in Present(cols[..n]) {
        var i :| Holds(cols[..n], i, f);
        assert Holds(cols, i, f);
      } else if f in Present(cols) {
        assert Holds(cols, n, f);
      }
      if i :| Holds(cols, i, f) && i < n { assert Holds(cols[..n], i, f); }
    }
  }

  lemma {:induction false} PresentDistinct(cols: seq<Column>)
    requires Ascending(cols)
    ensures J.Distinct(J.KeySeq(Present(cols)))
  {
    if cols != [] {
      var n := |cols| - 1;
      PresentDistinct(cols[..n]);
      forall i | 0 <= i < |Present(cols[..n])| ensures Present(cols[..n])[i].key != cols[n].key {
        var f := Present(cols[..n])[i];
        PresentMembers(cols[..n], f);
        var k :| Holds(cols[..n], k, f);
        }
    }
  }

  lemma RecordValid(cols: seq<Column>)
    requires Ascending(cols)
    requires forall i :: 0 <= i < |cols| && cols[i].value.Some? ==> J.Valid(cols[i].value.value)
    ensures J.Valid(Record(cols))
  {
    PresentDistinct(cols);
    forall i | 0 <= i < |Present(cols)| ensures J.Valid(Present(cols)[i].value) {
      PresentMembers(cols, Present(cols)[i]);
      var k :| Holds(cols, k, Present(cols)[i]);
    }
  }

  ghost predicate SameKeys(a: seq<Column>, b: seq<Column>) {
    |a| == |b| && forall i :: 0 <= i < |a| ==> a[i].key == b[i].key
  }

  /** Both are absent, or both are present and equal up to key order. */
  ghost predicate SameValue(a: Option<J.Json>, b: Option<J.Json>) {
    (a.Some? <==> b.Some?) && (a.Some? ==> J.Same(a.value, b.value))
  }

  /** A record tells what is in its columns. */
  lemma RecordTells(a: seq<Column>, b: seq<Column>, i: nat)
    requires Ascending(a) && Ascending(b) && SameKeys(a, b) && i < |a| && J.Same(Record(a), Record(b))
    ensures SameValue(a[i].value, b[i].value)
  {
    if a[i].value.Some? { RecordHas(a, b, i); }
    if b[i].value.Some? { RecordHas(b, a, i); }
    if a[i].value.Some? {
      var f, g := J.Field(a[i].key, a[i].value.value), J.Field(b[i].key, b[i].value.value);
      assert Holds(a, i, f) && Holds(b, i, g);
      PresentMembers(a, f);
      PresentMembers(b, g);
    }
  }

  lemma RecordHas(a: seq<Column>, b: seq<Column>, i: nat)
    requires Ascending(a) && Ascending(b) && SameKeys(a, b) && i < |a| && a[i].value.Some?
    requires forall k :: J.HasKey(Present(a), k) <==> J.HasKey(Present(b), k)
    ensures b[i].value.Some?
  {
    var f := J.Field(a[i].key, a[i].value.value);
    assert Holds(a, i, f);
    PresentMembers(a, f);
    assert J.HasKey(Present(a), f.key);
    var k :| 0 <= k < |Present(b)| && Present(b)[k].key == f.key;
    PresentMembers(b, Present(b)[k]);
    var j :| Holds(b, j, Present(b)[k]);
    KeysDiffer(b, i, j);
  }

  // ---------------------------------------------------------------- samples as records

  /** How the number of an amount is printed. */
  type Numeral = real -> string

  function Str(s: string): Option<J.Json> { Some(J.Str(s)) }

  function Flag(b: bool): Option<J.Json> { Some(J.Bool(b)) }

  function Whole(n: nat): Option<J.Json> { Some(J.Number(Decimal(n))) }

  function Amount(x: Option<real>, numeral: Numeral): Option<J.Json> {
    if x.Some? then Some(J.Number(numeral(x.value))) else None
  }

  function StatusText(t: Terminal): string {
    match t
    case Completed => "completed"
    case Failed => "failed"
    case Blocked => "blocked"
    case Cancelled => "cancelled"
  }

  function FindingRecord(category: string): J.Json { Record([Column("category", Str(category))]) }

  function MetricColumns(r: CaseReview): seq<Column> {
    [Column("defectCount", Whole(r.defects)), Column("defectsDetected", Whole(r.detected)),
     Column("failOnKnownGood", Flag(r.failOnKnownGood)), Column("passOnDefective", Flag(r.passOnDefective)),
     Column("falsePositiveCount", Whole(r.falsePositives)), Column("criticalDefectCount", Whole(r.criticals)),
     Column("criticalDefectsDetected", Whole(r.criticalsDetected))]
  }

  function FindingRecords(categories: seq<string>): seq<J.Json> {
    seq(|categories|, i requires 0 <= i < |categories| => FindingRecord(categories[i]))
  }

  function ReviewColumns(r: CaseReview): seq<Column> {
    [Column("metrics", Some(Record(MetricColumns(r)))),
     Column("findings", Some(J.Array(FindingRecords(r.categories)))), Column("knownGood", Flag(r.knownGood))]
  }

  function UsageColumns(s: Sample, numeral: Numeral): seq<Column> {
    [Column("totalTokens", Amount(s.tokens, numeral)), Column("actualCostUsd", Amount(s.actual, numeral)),
     Column("knownAttempts", Whole(s.known)), Column("unknownAttempts", Whole(s.unknown)),
     Column("estimatedCostUsd", Amount(s.estimated, numeral))]
  }

  function SampleColumns(s: Sample, numeral: Numeral): seq<Column> {
    [Column("runId", Str(s.runId)), Column("usage", Some(Record(UsageColumns(s, numeral)))),
     Column("caseId", Str(s.caseId)), Column("retries", Whole(s.retries)), Column("cohortId", Str(s.cohortId)),
     Column("reviewer", if s.reviewer.Some? then Some(Record(ReviewColumns(s.reviewer.value))) else None),
     Column("latencyMs", Amount(s.latency, numeral)), Column("humanRework", Whole(s.rework)),
     Column("reviewablePr", Flag(s.reviewablePr)), Column("scoringPassed", Flag(s.scoringPassed)),
     Column("terminalStatus", if s.terminal.Some? then Str(StatusText(s.terminal.value)) else None),
     Column("expectedGatesPassed", Flag(s.gatesPassed))]
  }

  /** Runs come first in the order of keys, then the rest of the record. */
  function StableKey(s: Sample, numeral: Numeral): string {
    s.runId + "\0" + J.Print(Record(SampleColumns(s, numeral)))
  }

  // ---------------------------------------------------------------- the key tells samples apart

  lemma {:induction false} AscendingByStep(cols: seq<Column>)
    requires forall i :: 0 < i < |cols| ==> Rank(cols[i - 1].key) < Rank(cols[i].key)
    ensures Ascending(cols)
  {
    if cols != [] {
      var n := |cols| - 1;
      AscendingByStep(cols[..n]);
      forall i | 0 <= i < n ensures Rank(cols[i].key) < Rank(cols[n].key) {
        if i < n - 1 { assert Rank(cols[..n][i].key) < Rank(cols[..n][n - 1].key); }
      }
      forall i, j | 0 <= i < j < |cols| ensures Rank(cols[i].key) < Rank(cols[j].key) {
        if j < n { assert cols[..n][i] == cols[i] && cols[..n][j] == cols[j]; }
      }
    }
  }

  lemma MetricsAscend(r: CaseReview)
    ensures Ascending(MetricColumns(r))
  {
    AscendingByStep(MetricColumns(r));
  }

  lemma ReviewAscends(r: CaseReview, category: string)
    ensures Ascending(ReviewColumns(r)) && Ascending([Column("category", Str(category))])
  {
    AscendingByStep(ReviewColumns(r));
  }

  lemma UsageAscends(s: Sample, numeral: Numeral)
    ensures Ascending(UsageColumns(s, numeral))
  {
    AscendingByStep(UsageColumns(s, numeral));
  }

  lemma SampleAscends(s: Sample, numeral: Numeral)
    ensures Ascending(SampleColumns(s, numeral))
  {
    AscendingByStep(SampleColumns(s, numeral));
  }

  ghost predicate Amounts(s: Sample, xs: set<real>) {
    && (s.latency.Some? ==> s.latency.value in xs) && (s.tokens.Some? ==> s.tokens.value in xs)
    && (s.actual.Some? ==> s.actual.value in xs) && (s.estimated.Some? ==> s.estimated.value in xs)
  }

  /** Different numbers print differently. */
  ghost predicate Prints(numeral: Numeral, xs: set<real>) {
    && (forall x :: x in xs ==> J.NumberText(numeral(x)))
    && forall x, y :: x in xs && y in xs && numeral(x) == numeral(y) ==> x == y
  }

  lemma WholeTells(m: nat, n: nat)
    requires SameValue(Whole(m), Whole(n))
    ensures m == n
  {
    DecimalRoundTrip(m);
    DecimalRoundTrip(n);
  }

  lemma AmountTells(x: Option<real>, y: Option<real>, numeral: Numeral, xs: set<real>)
    requires Prints(numeral, xs) && (x.Some? ==> x.value in xs) && (y.Some? ==> y.value in xs)
    requires SameValue(Amount(x, numeral), Amount(y, numeral))
    ensures x == y
  {
    if x.Some? {
      assert y.Some?;
      var p, q := x.value, y.value;
      assert J.Same(J.Number(numeral(p)), J.Number(numeral(q)));
      assert p == q;
    }
  }

  lemma MetricsTell(a: CaseReview, b: CaseReview)
    requires J.Same(Record(MetricColumns(a)), Record(MetricColumns(b)))
    ensures b == a.(knownGood := b.knownGood, categories := b.categories)
  {
    var x, y := MetricColumns(a), MetricColumns(b);
    MetricsAscend(a);
    MetricsAscend(b);
    hide J.Same, Record, Whole, Flag, Ascending;
    RecordTells(x, y, 0);
    WholeTells(a.defects, b.defects);
    RecordTells(x, y, 1);
    WholeTells(a.detected, b.detected);
    RecordTells(x, y, 2);
    FlagTells(a.failOnKnownGood, b.failOnKnownGood);
    RecordTells(x, y, 3);
    FlagTells(a.passOnDefective, b.passOnDefective);
    RecordTells(x, y, 4);
    WholeTells(a.falsePositives, b.falsePositives);
    RecordTells(x, y, 5);
    WholeTells(a.criticals, b.criticals);
    RecordTells(x, y, 6);
    WholeTells(a.criticalsDetected, b.criticalsDetected);
  }

  lemma FlagTells(a: bool, b: bool)
    requires SameValue(Flag(a), Flag(b))
    ensures a == b
  {}

  lemma StrTells(a: string, b: string)
    requires SameValue(Str(a), Str(b))
    ensures a == b
  {}

  lemma FindingsTell(a: seq<string>, b: seq<string>)
    requires J.Same(J.Array(FindingRecords(a)), J.Array(FindingRecords(b)))
    ensures a == b
  {
    forall i | 0 <= i < |a| ensures i < |b| && a[i] == b[i] {
      assert J.Same(FindingRecords(a)[i], FindingRecords(b)[i]);
      FindingTells(a[i], b[i]);
    }
  }

  lemma FindingTells(a: string, b: string)
    requires J.Same(FindingRecord(a), FindingRecord(b))
    ensures a == b
  {
    RecordTells([Column("category", Str(a))], [Column("category", Str(b))], 0);
    StrTells(a, b);
  }

  lemma ReviewTells(a: CaseReview, b: CaseReview)
    requires J.Same(Record(ReviewColumns(a)), Record(ReviewColumns(b)))
    ensures a == b
  {
    var x, y := ReviewColumns(a), ReviewColumns(b);
    ReviewAscends(a, "");
    ReviewAscends(b, "");
    hide J.Same, Record, Flag, Ascending, FindingRecords, MetricColumns;
    RecordTells(x, y, 0);
    MetricsTell(a, b);
    RecordTells(x, y, 1);
    FindingsTell(a.categories, b.categories);
    RecordTells(x, y, 2);
    FlagTells(a.knownGood, b.knownGood);
  }

  lemma UsageTells(s: Sample, t: Sample, numeral: Numeral, xs: set<real>)
    requires Prints(numeral, xs) && Amounts(s, xs) && Amounts(t, xs)
    requires J.Same(Record(UsageColumns(s, numeral)), Record(UsageColumns(t, numeral)))
    ensures s.tokens == t.tokens && s.actual == t.actual && s.estimated == t.estimated
    ensures s.known == t.known && s.unknown == t.unknown
  {
    var x, y := UsageColumns(s, numeral), UsageColumns(t, numeral);
    UsageAscends(s, numeral);
    UsageAscends(t, numeral);
    hide J.Same, Record, Whole, Amount, Ascending, Prints;
    RecordTells(x, y, 0);
    AmountTells(s.tokens, t.tokens, numeral, xs);
    RecordTells(x, y, 1);
    AmountTells(s.actual, t.actual, numeral, xs);
    RecordTells(x, y, 2);
    WholeTells(s.known, t.known);
    RecordTells(x, y, 3);
    WholeTells(s.unknown, t.unknown);
    RecordTells(x, y, 4);
    AmountTells(s.estimated, t.estimated, numeral, xs);
  }

  lemma StatusTells(a: Option<Terminal>, b: Option<Terminal>)
    requires SameValue(
      if a.Some? then Str(StatusText(a.value)) else None, if b.Some? then Str(StatusText(b.value)) else None)
    ensures a == b
  {
    if a.Some? {
      StrTells(StatusText(a.value), StatusText(b.value));
      StatusTextTells(a.value, b.value);
    }
  }

  lemma StatusTextTells(a: Terminal, b: Terminal)
    requires StatusText(a) == StatusText(b)
    ensures a == b
  {
    assert |StatusText(Completed)| == 9 && |StatusText(Failed)| == 6;
    assert StatusText(Blocked)[0] == 'b' && StatusText(Cancelled)[1] == 'a' && StatusText(Completed)[1] == 'o';
  }

  lemma ReviewerTells(a: Option<CaseReview>, b: Option<CaseReview>)
    requires SameValue(
      if a.Some? then Some(Record(ReviewColumns(a.value))) else None,
      if b.Some? then Some(Record(ReviewColumns(b.value))) else None)
    ensures a == b
  {
    if a.Some? { ReviewTells(a.value, b.value); }
  }

  ghost predicate SameRecord(s: Sample, t: Sample, numeral: Numeral, xs: set<real>) {
    && Prints(numeral, xs) && Amounts(s, xs) && Amounts(t, xs)
    && J.Same(Record(SampleColumns(s, numeral)), Record(SampleColumns(t, numeral)))
  }

  lemma ColumnTells(s: Sample, t: Sample, numeral: Numeral, xs: set<real>, i: nat)
    requires SameRecord(s, t, numeral, xs) && i < 12
    ensures SameValue(SampleColumns(s, numeral)[i].value, SampleColumns(t, numeral)[i].value)
  {
    SampleAscends(s, numeral);
    SampleAscends(t, numeral);
    hide J.Same, Record, Whole, Amount, Str, Flag, StatusText, Ascending, Prints, UsageColumns, ReviewColumns;
    RecordTells(SampleColumns(s, numeral), SampleColumns(t, numeral), i);
  }

  lemma TextsTell(s: Sample, t: Sample, numeral: Numeral, xs: set<real>)
    requires SameRecord(s, t, numeral, xs)
    ensures s.runId == t.runId && s.caseId == t.caseId && s.cohortId == t.cohortId
    ensures s.terminal == t.terminal && s.reviewer == t.reviewer
  {
    hide J.Same, Record, Whole, Amount, Str, Flag, StatusText, Prints, UsageColumns, ReviewColumns, SameRecord;
    ColumnTells(s, t, numeral, xs, 0);
    StrTells(s.runId, t.runId);
    ColumnTells(s, t, numeral, xs, 2);
    StrTells(s.caseId, t.caseId);
    ColumnTells(s, t, numeral, xs, 4);
    StrTells(s.cohortId, t.cohortId);
    ColumnTells(s, t, numeral, xs, 5);
    ReviewerTells(s.reviewer, t.reviewer);
    ColumnTells(s, t, numeral, xs, 10);
    StatusTells(s.terminal, t.terminal);
  }

  lemma NumbersTell(s: Sample, t: Sample, numeral: Numeral, xs: set<real>)
    requires SameRecord(s, t, numeral, xs)
    ensures s.retries == t.retries && s.rework == t.rework && s.latency == t.latency
    ensures s.tokens == t.tokens && s.actual == t.actual && s.estimated == t.estimated
    ensures s.known == t.known && s.unknown == t.unknown
  {
    assert Prints(numeral, xs) && Amounts(s, xs) && Amounts(t, xs);
    hide J.Same, Record, Whole, Amount, Str, Flag, StatusText, Prints, UsageColumns, ReviewColumns, SameRecord;
    ColumnTells(s, t, numeral, xs, 1);
    UsageTells(s, t, numeral, xs);
    ColumnTells(s, t, numeral, xs, 3);
    WholeTells(s.retries, t.retries);
    ColumnTells(s, t, numeral, xs, 6);
    AmountTells(s.latency, t.latency, numeral, xs);
    ColumnTells(s, t, numeral, xs, 7);
    WholeTells(s.rework, t.rework);
  }

  lemma FlagsTell(s: Sample, t: Sample, numeral: Numeral, xs: set<real>)
    requires SameRecord(s, t, numeral, xs)
    ensures s.reviewablePr == t.reviewablePr && s.scoringPassed == t.scoringPassed && s.gatesPassed == t.gatesPassed
  {
    hide J.Same, Record, Whole, Amount, Str, Flag, StatusText, Prints, UsageColumns, ReviewColumns, SameRecord;
    ColumnTells(s, t, numeral, xs, 8);
    FlagTells(s.reviewablePr, t.reviewablePr);
    ColumnTells(s, t, numeral, xs, 9);
    FlagTells(s.scoringPassed, t.scoringPassed);
    ColumnTells(s, t, numeral, xs, 11);
    FlagTells(s.gatesPassed, t.gatesPassed);
  }

  /** Records of samples equal up to key order belong to equal samples. */
  lemma SampleTells(s: Sample, t: Sample, numeral: Numeral, xs: set<real>)
    requires SameRecord(s, t, numeral, xs)
    ensures s == t
  {
    hide SameRecord;
    TextsTell(s, t, numeral, xs);
    NumbersTell(s, t, numeral, xs);
    FlagsTell(s, t, numeral, xs);
  }

  // ---------------------------------------------------------------- the key

  ghost predicate Printable(s: string) { forall i :: 0 <= i < |s| ==> s[i] != '\0' }

  lemma EscapePrintable(c: char)
    ensures Printable(J.Escape(c))
  {}

  lemma {:induction false} EscapeAllPrintable(s: string)
    ensures Printable(J.EscapeAll(s))
  {
    if s != "" {
      EscapePrintable(s[0]);
      EscapeAllPrintable(s[1..]);
      hide J.Escape;
    }
  }

  lemma QuotePrintable(s: string)
    ensures Printable(J.Quote(s))
  {
    EscapeAllPrintable(s);
    hide J.EscapeAll;
  }

  /** A printed value has no NUL in it. */
  lemma {:induction false} PrintPrintable(v: J.Json)
    requires J.Valid(v)
    ensures Printable(J.Print(v))
    decreases v, 1, 0
  {
    match v
    case Str(s) => QuotePrintable(s);
    case Array(items) => ItemsPrintable(items);
    case Object(fields) =>
      J.SortedAreOwn(fields);
      FieldsPrintable(v, J.SortKeys(J.KeySeq(fields)));
      hide J.PrintFields;
    case _ =>
  }

  lemma {:induction false} ItemsPrintable(items: seq<J.Json>)
    requires forall i :: 0 <= i < |items| ==> J.Valid(items[i])
    ensures Printable(J.PrintItems(items))
    decreases items, 0, 0
  {
    hide J.Print, J.Valid;
    if items != [] {
      PrintPrintable(items[0]);
      ItemsPrintable(items[1..]);
    }
  }

  lemma {:induction false} FieldsPrintable(v: J.Json, keys: seq<string>)
    requires v.Object? && J.Valid(v) && J.OwnKeys(v.fields, keys)
    ensures Printable(J.PrintFields(v, keys))
    decreases v, 0, |keys|
  {
    if keys != [] {
      hide J.PrintField, J.HasKey, J.Valid;
      FieldPrintable(v, keys[0]);
      FieldsPrintable(v, keys[1..]);
    }
  }

  lemma {:induction false} FieldPrintable(v: J.Json, key: string)
    requires v.Object? && J.Valid(v) && J.HasKey(v.fields, key)
    ensures Printable(J.PrintField(v, key))
    decreases v, 0, 0
  {
    J.GetSmaller(v, key);
    QuotePrintable(key);
    hide J.Print, J.Valid, J.Quote, J.Get, J.HasKey;
    PrintPrintable(J.Get(v.fields, key));
  }

  lemma OnlyNul(a: string, x: string)
    requires Printable(x)
    ensures forall k :: |a| < k < |a| + 1 + |x| ==> (a + "\0" + x)[k] != '\0'
  {
    forall k | |a| < k < |a| + 1 + |x| ensures (a + "\0" + x)[k] != '\0' {
      assert (a + "\0" + x)[k] == x[k - |a| - 1];
    }
  }

  /** What follows the last NUL is determined. */
  lemma AfterNul(a: string, b: string, x: string, y: string)
    requires Printable(x) && Printable(y) && a + "\0" + x == b + "\0" + y
    ensures x == y
  {
    var u, v := a + "\0" + x, b + "\0" + y;
    OnlyNul(a, x);
    OnlyNul(b, y);
    assert u[|a|] == '\0' && v[|b|] == '\0';
    assert u[|a| + 1..] == x && v[|b| + 1..] == y;
  }

  lemma DecimalIsNumber(n: nat)
    ensures J.NumberText(Decimal(n))
  {
    DecimalRoundTrip(n);
  }

  lemma MetricsValid(r: CaseReview)
    ensures J.Valid(Record(MetricColumns(r)))
  {
    MetricsAscend(r);
    forall n: nat ensures J.Valid(J.Number(Decimal(n))) { DecimalIsNumber(n); }
    hide J.Valid, J.NumberText, Decimal;
    RecordValid(MetricColumns(r));
  }

  lemma ReviewValid(r: CaseReview)
    ensures J.Valid(Record(ReviewColumns(r)))
  {
    MetricsValid(r);
    forall i | 0 <= i < |r.categories| ensures J.Valid(FindingRecords(r.categories)[i]) {
      RecordValid([Column("category", Str(r.categories[i]))]);
    }
    assert J.Valid(J.Array(FindingRecords(r.categories)));
    ReviewAscends(r, "");
    hide FindingRecords, MetricColumns;
    RecordValid(ReviewColumns(r));
  }

  ghost predicate Printed(v: Option<J.Json>) { v.Some? ==> J.Valid(v.value) }

  lemma AmountPrinted(x: Option<real>, numeral: Numeral, xs: set<real>)
    requires Prints(numeral, xs) && (x.Some? ==> x.value in xs)
    ensures Printed(Amount(x, numeral))
  {
    if x.Some? {
      var p := x.value;
      assert J.NumberText(numeral(p));
    }
  }

  lemma WholePrinted(n: nat)
    ensures Printed(Whole(n))
  {
    DecimalIsNumber(n);
  }

  lemma UsageValid(s: Sample, numeral: Numeral, xs: set<real>)
    requires Prints(numeral, xs) && Amounts(s, xs)
    ensures J.Valid(Record(UsageColumns(s, numeral)))
  {
    AmountPrinted(s.tokens, numeral, xs);
    AmountPrinted(s.actual, numeral, xs);
    AmountPrinted(s.estimated, numeral, xs);
    WholePrinted(s.known);
    WholePrinted(s.unknown);
    UsageAscends(s, numeral);
    hide J.Valid, Amount, Whole;
    RecordValid(UsageColumns(s, numeral));
  }

  lemma SampleValid(s: Sample, numeral: Numeral, xs: set<real>)
    requires Prints(numeral, xs) && Amounts(s, xs)
    ensures J.Valid(Record(SampleColumns(s, numeral)))
  {
    if s.reviewer.Some? { ReviewValid(s.reviewer.value); }
    UsageValid(s, numeral, xs);
    AmountPrinted(s.latency, numeral, xs);
    WholePrinted(s.retries);
    WholePrinted(s.rework);
    SampleAscends(s, numeral);
    assert (forall t :: Printed(Str(t))) && (forall b :: Printed(Flag(b)));
    hide J.Valid, Amount, Whole, Str, Flag, UsageColumns, ReviewColumns;
    RecordValid(SampleColumns(s, numeral));
  }

  /** Two samples have the same stable key only if they are the same sample. */
  lemma StableKeyTells(s: Sample, t: Sample, numeral: Numeral, xs: set<real>)
    requires Prints(numeral, xs) && Amounts(s, xs) && Amounts(t, xs)
    requires StableKey(s, numeral) == StableKey(t, numeral)
    ensures s == t
  {
    var x, y := Record(SampleColumns(s, numeral)), Record(SampleColumns(t, numeral));
    SampleValid(s, numeral, xs);
    SampleValid(t, numeral, xs);
    PrintPrintable(x);
    PrintPrintable(y);
    hide SampleColumns, Record, J.Print, J.Same, J.Valid, Printable;
    AfterNul(s.runId, t.runId, J.Print(x), J.Print(y));
    J.CanonicalExact(x, y);
    SampleTells(s, t, numeral, xs);
  }

  /** Permuting or repeating samples changes no summary under the stable key. */
  lemma StableAggregate(
    cohortId: string, a: seq<Sample>, b: seq<Sample>, numeral: Numeral, xs: set<real>, largest: real
  )
    requires Elements(a) == Elements(b) && Prints(numeral, xs) && forall s :: s in a ==> Amounts(s, xs)
    ensures var key := (s: Sample) => StableKey(s, numeral);
      Aggregate(cohortId, a, key, largest) == Aggregate(cohortId, b, key, largest)
  {
    var key := (s: Sample) => StableKey(s, numeral);
    forall s, t | s in a && t in a && key(s) == key(t) ensures s == t { StableKeyTells(s, t, numeral, xs); }
    AggregateIgnoresOrder(cohortId, a, b, key, largest);
  }
}
