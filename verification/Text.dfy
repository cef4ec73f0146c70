/** Strings the way the stores use them: decimal numerals, cursors, heads, and the code-unit order. */
module Text {

  datatype Option<+T> = None | Some(value: T)

  function Lookup<K, V>(m: map<K, V>, k: K): Option<V> {
    if k in m then Some(m[k]) else None
  }

  function GetOr<T>(o: Option<T>, default: T): T {
    if o.Some? then o.value else default
  }

  // ---------------------------------------------------------------- decimal numerals

  const DIGITS: string := "0123456789"

  function Decimal(n: nat): string {
    if n < 10 then [DIGITS[n]] else Decimal(n / 10) + [DIGITS[n % 10]]
  }

  /** Reads a numeral back; characters that are not digits count as zero. */
  function Value(s: string): nat {
    if s == "" then 0
    else 10 * Value(s[..|s| - 1]) + DigitValue(s[|s| - 1])
  }

  function DigitValue(c: char): nat {
    if '0' <= c <= '9' then (c - '0') as nat else 0
  }

  lemma {:induction false} DecimalRoundTrip(n: nat)
    ensures Value(Decimal(n)) == n
    ensures forall i :: 0 <= i < |Decimal(n)| ==> '0' <= Decimal(n)[i] <= '9'
  {
    var s := Decimal(n);
    if n < 10 {
      assert s[..|s| - 1] == "";
    } else {
      DecimalRoundTrip(n / 10);
      assert s[..|s| - 1] == Decimal(n / 10);
    }
  }

  // ---------------------------------------------------------------- cursors

  function CursorText(revision: nat, head: string): string {
    Decimal(revision) + ":" + head
  }

  /** What `split(":").slice(1).join(":")` yields: everything after the first colon, or nothing. */
  function AfterColon(s: string): string {
    if s == "" then "" else if s[0] == ':' then s[1..] else AfterColon(s[1..])
  }

  lemma {:induction false} AfterColonSkips(prefix: string, rest: string)
    requires forall i :: 0 <= i < |prefix| ==> prefix[i] != ':'
    ensures AfterColon(prefix + ":" + rest) == rest
  {
    var s := prefix + ":" + rest;
    if prefix == "" {
      assert s[1..] == rest;
    } else {
      assert s[1..] == prefix[1..] + ":" + rest;
      AfterColonSkips(prefix[1..], rest);
    }
  }

  lemma CursorHead(revision: nat, head: string)
    ensures AfterColon(CursorText(revision, head)) == head
  {
    DecimalRoundTrip(revision);
    AfterColonSkips(Decimal(revision), head);
  }

  /** The printed form determines the revision and the head. */
  lemma CursorTextInjective(r1: nat, h1: string, r2: nat, h2: string)
    requires CursorText(r1, h1) == CursorText(r2, h2)
    ensures r1 == r2 && h1 == h2
  {
    CursorHead(r1, h1);
    CursorHead(r2, h2);
    var s := CursorText(r1, h1);
    assert s[..|s| - |h1| - 1] == Decimal(r1);
    assert s[..|s| - |h2| - 1] == Decimal(r2);
    DecimalRoundTrip(r1);
    DecimalRoundTrip(r2);
  }

  // ---------------------------------------------------------------- heads

  predicate IsSpace(c: char) {
    c == ' ' || '\t' <= c <= '\r' || c == '\U{A0}' || c == '\U{FEFF}'
    || c == '\U{1680}' || '\U{2000}' <= c <= '\U{200A}' || c == '\U{2028}' || c == '\U{2029}'
    || c == '\U{202F}' || c == '\U{205F}' || c == '\U{3000}'
  }

  function TrimLeft(s: string): string {
    if s != "" && IsSpace(s[0]) then TrimLeft(s[1..]) else s
  }

  function TrimRight(s: string): string {
    if s != "" && IsSpace(s[|s| - 1]) then TrimRight(s[..|s| - 1]) else s
  }

  function LowerChar(c: char): char {
    if 'A' <= c <= 'Z' then c + ('a' - 'A') else c
  }

  function Lower(s: string): string {
    seq(|s|, i requires 0 <= i < |s| => LowerChar(s[i]))
  }

  predicate HeadChar(c: char) {
    'a' <= c <= 'z' || '0' <= c <= '9' || c == '.' || c == '_' || c == '-'
  }

  predicate ValidHead(h: string) {
    1 <= |h| <= 64 && forall i :: 0 <= i < |h| ==> HeadChar(h[i])
  }

  function NormalizeHead(head: string): (r: string)
    ensures ValidHead(r)
    ensures ValidHead(head) ==> r == head
  {
    var token := Lower(TrimRight(TrimLeft(head)));
    if ValidHead(token) then token else "none"
  }

  /** The head part of a cursor a caller presents; a missing cursor reads as "none". */
  function HeadOf(seen: Option<string>): (r: string)
    ensures ValidHead(r)
  {
    NormalizeHead(match seen case None => "none" case Some(s) => AfterColon(s))
  }

  // ---------------------------------------------------------------- bounded text

  const STRING_LIMIT := 160

  function Bound(value: string): string {
    var clean := seq(|value|, i requires 0 <= i < |value| => if value[i] < ' ' then ' ' else value[i]);
    if |clean| <= STRING_LIMIT then clean else clean[..STRING_LIMIT]
  }

  // ---------------------------------------------------------------- code-unit order

  predicate Less(a: string, b: string) {
    b != "" && (a == "" || a[0] < b[0] || (a[0] == b[0] && Less(a[1..], b[1..])))
  }

  lemma {:induction false} LessIrreflexive(a: string)
    ensures !Less(a, a)
  {
    if a != "" { LessIrreflexive(a[1..]); }
  }

  lemma {:induction false} LessTotal(a: string, b: string)
    ensures Less(a, b) || a == b || Less(b, a)
    ensures !(Less(a, b) && Less(b, a))
  {
    LessIrreflexive(a);
    if a != "" && b != "" && a[0] == b[0] {
      LessTotal(a[1..], b[1..]);
      assert a == [a[0]] + a[1..] && b == [b[0]] + b[1..];
    }
  }

  lemma {:induction false} LessTransitive(a: string, b: string, c: string)
    requires Less(a, b) && Less(b, c)
    ensures Less(a, c)
  {
    if a != "" && a[0] == b[0] == c[0] {
      LessTransitive(a[1..], b[1..], c[1..]);
    }
  }
}
