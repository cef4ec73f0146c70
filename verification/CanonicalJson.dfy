/** Canonical JSON: objects are printed with sorted keys, and the text determines the value up to key order. */
module CanonicalJson {
  import Text

  /** A number is given by its shortest decimal text, an object by its fields in insertion order. */
  datatype Json =
    | Null
    | Bool(b: bool)
    | Number(text: string)
    | Str(s: string)
    | Array(items: seq<Json>)
    | Object(fields: seq<Field>)

  datatype Field = Field(key: string, value: Json)

  predicate NumberChar(c: char) { '0' <= c <= '9' || c in "+-.eE" }

  predicate NumberText(s: string) {
    s != "" && ('0' <= s[0] <= '9' || s[0] == '-') && forall i :: 0 <= i < |s| ==> NumberChar(s[i])
  }

  function KeySeq(fields: seq<Field>): (keys: seq<string>)
    ensures |keys| == |fields|
    ensures forall i :: 0 <= i < |fields| ==> keys[i] == fields[i].key
  {
    seq(|fields|, i requires 0 <= i < |fields| => fields[i].key)
  }

  predicate Distinct(keys: seq<string>) { forall i, j :: 0 <= i < j < |keys| ==> keys[i] != keys[j] }

  /** Every number is a number text and no object has a key twice. */
  predicate Valid(v: Json)
    decreases v
  {
    match v
    case Number(text) => NumberText(text)
    case Array(items) => forall i :: 0 <= i < |items| ==> Valid(items[i])
    case Object(fields) => Distinct(KeySeq(fields)) && forall i :: 0 <= i < |fields| ==> Valid(fields[i].value)
    case _ => true
  }

  // ---------------------------------------------------------------- sorted keys

  function InsertKey(key: string, sorted: seq<string>): seq<string> {
    if sorted == [] || Text.Less(key, sorted[0]) then [key] + sorted
    else [sorted[0]] + InsertKey(key, sorted[1..])
  }

  function SortKeys(keys: seq<string>): seq<string> {
    if keys == [] then [] else InsertKey(keys[0], SortKeys(keys[1..]))
  }

  ghost function Elements(s: seq<string>): set<string> { set x | x in s }

  ghost predicate Ascending(s: seq<string>) {
    forall i, j :: 0 <= i < j < |s| ==> Text.Less(s[i], s[j])
  }

  lemma {:induction false} InsertKeyLaws(key: string, sorted: seq<string>)
    requires Ascending(sorted) && key !in sorted
    ensures Ascending(InsertKey(key, sorted))
    ensures Elements(InsertKey(key, sorted)) == Elements(sorted) + {key}
  {
    if sorted == [] {
    } else if Text.Less(key, sorted[0]) {
      forall j | 0 <= j < |sorted| ensures Text.Less(key, sorted[j]) {
        if j > 0 { Text.LessTransitive(key, sorted[0], sorted[j]); }
      }
    } else {
      InsertKeyLaws(key, sorted[1..]);
      var rest := InsertKey(key, sorted[1..]);
      Text.LessTotal(key, sorted[0]);
      assert sorted == [sorted[0]] + sorted[1..];
      forall x | x in rest ensures Text.Less(sorted[0], x) {
        assert x in Elements(rest);
        if x != key { var i :| 0 <= i < |sorted[1..]| && sorted[1..][i] == x; }
      }
    }
  }

  lemma {:induction false} SortKeysLaws(keys: seq<string>)
    requires Distinct(keys)
    ensures Ascending(SortKeys(keys)) && Elements(SortKeys(keys)) == Elements(keys)
  {
    if keys != [] {
      SortKeysLaws(keys[1..]);
      assert keys == [keys[0]] + keys[1..];
      assert Elements(keys[1..]) == Elements(SortKeys(keys[1..]));
      assert keys[0] !in Elements(keys[1..]);
      InsertKeyLaws(keys[0], SortKeys(keys[1..]));
    }
  }

  /** A set of keys has one ascending listing. */
  lemma {:induction false} AscendingUnique(s: seq<string>, t: seq<string>)
    requires Ascending(s) && Ascending(t) && Elements(s) == Elements(t)
    ensures s == t
  {
    assert s != [] ==> s[0] in Elements(s);
    assert t != [] ==> t[0] in Elements(t);
    if s != [] {
      assert s[0] in t && t[0] in s;
      var i :| 0 <= i < |t| && t[i] == s[0];
      var j :| 0 <= j < |s| && s[j] == t[0];
      Text.LessTotal(s[0], t[0]);
      assert s[0] == t[0];
      TailElements(s);
      TailElements(t);
      AscendingUnique(s[1..], t[1..]);
      assert s == [s[0]] + s[1..] && t == [t[0]] + t[1..];
    }
  }

  lemma TailElements(s: seq<string>)
    requires s != [] && Ascending(s)
    ensures Elements(s[1..]) == Elements(s) - {s[0]}
  {
    Text.LessIrreflexive(s[0]);
    forall x ensures x in s[1..] <==> x in s && x != s[0] {
      if x in s && x != s[0] {
        var i :| 0 <= i < |s| && s[i] == x;
        assert s[1..][i - 1] == x;
      }
    }
  }

  // ---------------------------------------------------------------- printing

  function HexDigit(n: nat): char
    requires n < 16
  {
    if n < 10 then '0' + n as char else 'a' + (n - 10) as char
  }

  function Escape(c: char): string {
    if c == '"' then "\\\""
    else if c == '\\' then "\\\\"
    else if c as int == 8 then "\\b"
    else if c as int == 9 then "\\t"
    else if c as int == 10 then "\\n"
    else if c as int == 12 then "\\f"
    else if c as int == 13 then "\\r"
    else if c as int < 32 then "\\u00" + [HexDigit(c as int / 16), HexDigit(c as int % 16)]
    else [c]
  }

  function EscapeAll(s: string): string {
    if s == "" then "" else Escape(s[0]) + EscapeAll(s[1..])
  }

  function Quote(s: string): string { "\"" + EscapeAll(s) + "\"" }

  predicate HasKey(fields: seq<Field>, key: string) { exists i :: 0 <= i < |fields| && fields[i].key == key }

  function Get(fields: seq<Field>, key: string): (v: Json)
    requires HasKey(fields, key)
    ensures exists i :: 0 <= i < |fields| && fields[i] == Field(key, v)
  {
    if fields[0].key == key then assert fields[0] == Field(key, fields[0].value); fields[0].value
    else
      assert HasKey(fields[1..], key) by {
        var i :| 0 <= i < |fields| && fields[i].key == key;
        assert fields[1..][i - 1].key == key;
      }
      var v := Get(fields[1..], key);
      assert exists i :: 0 <= i < |fields| && fields[i] == Field(key, v) by {
        var i :| 0 <= i < |fields[1..]| && fields[1..][i] == Field(key, v);
        assert fields[i + 1] == Field(key, v);
      }
      v
  }

  lemma GetSmaller(v: Json, key: string)
    requires v.Object? && HasKey(v.fields, key)
    ensures Get(v.fields, key) < v
    ensures Valid(v) ==> Valid(Get(v.fields, key))
  {
    var i :| 0 <= i < |v.fields| && v.fields[i] == Field(key, Get(v.fields, key));
  }

  /** The keys are among the object's own. */
  ghost predicate OwnKeys(fields: seq<Field>, keys: seq<string>) {
    forall k :: k in keys ==> HasKey(fields, k)
  }

  lemma SortedAreOwn(fields: seq<Field>)
    ensures OwnKeys(fields, SortKeys(KeySeq(fields)))
  {
    SortMembers(KeySeq(fields));
    forall k | k in SortKeys(KeySeq(fields)) ensures HasKey(fields, k) {
      var i :| 0 <= i < |KeySeq(fields)| && KeySeq(fields)[i] == k;
    }
  }

  lemma {:induction false} InsertMembers(key: string, sorted: seq<string>)
    ensures forall k :: k in InsertKey(key, sorted) ==> k == key || k in sorted
  {
    if sorted != [] { InsertMembers(key, sorted[1..]); }
  }

  lemma {:induction false} SortMembers(keys: seq<string>)
    ensures forall k :: k in SortKeys(keys) ==> k in keys
  {
    if keys != [] {
      SortMembers(keys[1..]);
      InsertMembers(keys[0], SortKeys(keys[1..]));
    }
  }

  function Print(v: Json): string
    decreases v, 1, 0
  {
    match v
    case Null => "null"
    case Bool(b) => if b then "true" else "false"
    case Number(text) => text
    case Str(s) => Quote(s)
    case Array(items) => "[" + PrintItems(items) + "]"
    case Object(fields) =>
      SortedAreOwn(fields);
      "{" + PrintFields(v, SortKeys(KeySeq(fields))) + "}"
  }

  function PrintItems(items: seq<Json>): string
    decreases items, 0, 0
  {
    if items == [] then ""
    else if |items| == 1 then Print(items[0])
    else Print(items[0]) + "," + PrintItems(items[1..])
  }

  function PrintField(v: Json, key: string): string
    requires v.Object? && HasKey(v.fields, key)
    decreases v, 0, 0
  {
    GetSmaller(v, key);
    Quote(key) + ":" + Print(Get(v.fields, key))
  }

  function PrintFields(v: Json, keys: seq<string>): string
    requires v.Object? && OwnKeys(v.fields, keys)
    decreases v, 0, |keys|
  {
    if keys == [] then ""
    else if |keys| == 1 then PrintField(v, keys[0])
    else PrintField(v, keys[0]) + "," + PrintFields(v, keys[1..])
  }

  /** Equal up to the order of object keys. */
  ghost predicate Same(a: Json, b: Json)
    decreases a
  {
    match a
    case Array(items) =>
      b.Array? && |b.items| == |items| && forall i :: 0 <= i < |items| ==> Same(items[i], b.items[i])
    case Object(fields) =>
      && b.Object?
      && (forall k :: HasKey(fields, k) <==> HasKey(b.fields, k))
      && forall i, j :: 0 <= i < |fields| && 0 <= j < |b.fields| && fields[i].key == b.fields[j].key ==>
           Same(fields[i].value, b.fields[j].value)
    case _ => a == b
  }

  // ---------------------------------------------------------------- reading the text back

  lemma EscapeShape(c: char)
    ensures var e := Escape(c);
      && |e| in {1, 2, 6} && e[0] != '"'
      && (e[0] == '\\' <==> |e| > 1)
      && (|e| > 1 ==> (e[1] == 'u' <==> |e| == 6))
  {}

  lemma EscapeInjective(c: char, d: char)
    requires Escape(c) == Escape(d)
    ensures c == d
  {
    EscapeShape(c);
    EscapeShape(d);
    if |Escape(c)| == 6 {
      assert Escape(c)[4] == HexDigit(c as int / 16) && Escape(c)[5] == HexDigit(c as int % 16);
      assert Escape(d)[4] == HexDigit(d as int / 16) && Escape(d)[5] == HexDigit(d as int % 16);
      assert c as int == d as int;
    } else if |Escape(c)| == 2 {
      assert Escape(c)[1] == Escape(d)[1];
    } else {
      assert Escape(c)[0] == c && Escape(d)[0] == d;
    }
  }

  lemma SamePrefix(a: string, b: string, s: string, t: string)
    requires a + s == b + t && |a| == |b|
    ensures a == b && s == t
  {
    assert a == (a + s)[..|a|] && b == (b + t)[..|b|];
    assert s == (a + s)[|a|..] && t == (b + t)[|b|..];
  }

  lemma UnescapeOne(c: char, d: char, s: string, t: string)
    requires Escape(c) + s == Escape(d) + t
    ensures c == d && s == t
  {
    EscapeShape(c);
    EscapeShape(d);
    var e, f := Escape(c), Escape(d);
    hide Escape;
    assert (e + s)[0] == e[0] && (f + t)[0] == f[0];
    if |e| > 1 { assert (e + s)[1] == e[1] && (f + t)[1] == f[1]; }
    SamePrefix(e, f, s, t);
    EscapeInjective(c, d);
  }

  /** The rest of a quoted string from inside the quotes. */
  function Inside(x: string, s: string): string { EscapeAll(x) + "\"" + s }

  lemma InsideSplit(x: string, s: string)
    ensures Inside(x, s) == if x == "" then "\"" + s else Escape(x[0]) + Inside(x[1..], s)
    ensures Inside(x, s)[0] == if x == "" then '"' else Escape(x[0])[0]
  {
    if x != "" {
      EscapeShape(x[0]);
      hide Escape;
      assert Escape(x[0]) + EscapeAll(x[1..]) + "\"" + s == Escape(x[0]) + (EscapeAll(x[1..]) + "\"" + s);
    }
  }

  /** A quoted string ends at its closing quote. */
  lemma {:induction false} UnquoteOne(x: string, y: string, s: string, t: string)
    requires Inside(x, s) == Inside(y, t)
    ensures x == y && s == t
  {
    if x != "" { EscapeShape(x[0]); }
    if y != "" { EscapeShape(y[0]); }
    InsideSplit(x, s);
    InsideSplit(y, t);
    hide Escape, Inside;
    if x == "" {
      SamePrefix("\"", "\"", s, t);
    } else {
      UnescapeOne(x[0], y[0], Inside(x[1..], s), Inside(y[1..], t));
      UnquoteOne(x[1..], y[1..], s, t);
      assert x == [x[0]] + x[1..] && y == [y[0]] + y[1..];
    }
  }

  lemma QuoteInside(x: string, s: string)
    ensures Quote(x) + s == "\"" + Inside(x, s)
  {
    hide EscapeAll;
  }

  lemma UnquoteKey(x: string, y: string, s: string, t: string)
    requires Quote(x) + s == Quote(y) + t
    ensures x == y && s == t
  {
    QuoteInside(x, s);
    QuoteInside(y, t);
    hide Quote, Inside;
    SamePrefix("\"", "\"", Inside(x, s), Inside(y, t));
    UnquoteOne(x, y, s, t);
  }

  /** What may follow a value: nothing, a comma or a closing bracket. */
  predicate Delimited(s: string) { s == "" || s[0] in ",]}" }

  lemma NumberEndsBy(a: string, b: string, s: string, t: string)
    requires NumberText(b) && Delimited(s) && a + s == b + t
    ensures |b| <= |a|
  {
    var whole := a + s;
    assert |a| < |whole| ==> whole[|a|] == s[0];
    assert forall i :: 0 <= i < |b| ==> (b + t)[i] == b[i];
  }

  lemma NumberEnds(a: string, b: string, s: string, t: string)
    requires NumberText(a) && NumberText(b) && Delimited(s) && Delimited(t) && a + s == b + t
    ensures a == b && s == t
  {
    NumberEndsBy(a, b, s, t);
    NumberEndsBy(b, a, t, s);
    SamePrefix(a, b, s, t);
  }

  /** The first character of a printed value tells what kind of value it is. */
  lemma PrintHead(v: Json)
    requires Valid(v)
    ensures Print(v) != ""
    ensures var c := Print(v)[0];
      && (v.Null? <==> c == 'n') && (v.Bool? <==> c in "tf") && (v.Number? <==> NumberChar(c)) && (v.Str? <==> c == '"')
      && (v.Array? <==> c == '[') && (v.Object? <==> c == '{')
    ensures Print(v)[0] !in ",]}"
  {
    hide PrintItems, PrintFields, Quote;
    if v.Str? { assert Quote(v.s)[0] == '"' by { QuoteHead(v.s); } }
  }

  lemma QuoteHead(s: string)
    ensures Quote(s) != "" && Quote(s)[0] == '"'
  {}

  /** Unique readability: a printed value cannot be continued in two ways. */
  lemma {:induction false} PrintUnique(a: Json, b: Json, s: string, t: string)
    requires Valid(a) && Valid(b) && Delimited(s) && Delimited(t) && Print(a) + s == Print(b) + t
    ensures Same(a, b) && s == t
    decreases a, 1, 0
  {
    PrintHead(a);
    PrintHead(b);
    assert (Print(a) + s)[0] == Print(a)[0] && (Print(b) + t)[0] == Print(b)[0];
    hide PrintItems, PrintFields, Quote, NumberText;
    match a
    case Null => SamePrefix("null", "null", s, t);
    case Bool(x) => SamePrefix(Print(a), Print(b), s, t);
    case Number(text) => NumberEnds(text, b.text, s, t);
    case Str(x) => UnquoteKey(x, b.s, s, t);
    case Array(items) =>
      var u, v := PrintItems(items) + "]" + s, PrintItems(b.items) + "]" + t;
      assert Print(a) + s == "[" + u && Print(b) + t == "[" + v;
      SamePrefix("[", "[", u, v);
      ItemsUnique(items, b.items, s, t);
    case Object(fields) =>
      ObjectUnique(a, b, s, t);
  }

  lemma {:induction false} ItemsUnique(a: seq<Json>, b: seq<Json>, s: string, t: string)
    requires (forall i :: 0 <= i < |a| ==> Valid(a[i])) && forall i :: 0 <= i < |b| ==> Valid(b[i])
    requires PrintItems(a) + "]" + s == PrintItems(b) + "]" + t
    ensures |a| == |b| && s == t && forall i :: 0 <= i < |a| ==> Same(a[i], b[i])
    decreases a, 0, 0
  {
    hide Print, Valid, Same;
    ItemsHead(a, s);
    ItemsHead(b, t);
    if a == [] {
      assert PrintItems(a) + "]" + s == "]" + s && PrintItems(b) + "]" + t == "]" + t;
      SamePrefix("]", "]", s, t);
    } else {
      PrintUnique(a[0], b[0], AfterItem(a, s), AfterItem(b, t));
      if |a| > 1 {
        SamePrefix(",", ",", PrintItems(a[1..]) + "]" + s, PrintItems(b[1..]) + "]" + t);
        ItemsUnique(a[1..], b[1..], s, t);
        assert forall i :: 0 < i < |a| ==> a[i] == a[1..][i - 1] && b[i] == b[1..][i - 1];
      } else {
        SamePrefix("]", "]", s, t);
      }
    }
  }

  /** What follows the first item of a list. */
  function AfterItem(a: seq<Json>, s: string): (r: string)
    requires a != []
    ensures Delimited(r) && r != "" && (r[0] == ']' <==> |a| == 1)
  {
    if |a| == 1 then "]" + s else "," + (PrintItems(a[1..]) + "]" + s)
  }

  lemma Regroup(x: string, comma: string, y: string, close: string, s: string)
    ensures x + comma + y + close + s == x + (comma + (y + close + s))
  {}

  lemma HeadStays(x: string, s: string)
    requires x != ""
    ensures (x + s)[0] == x[0]
  {}

  lemma ItemsSplit(a: seq<Json>, s: string)
    requires a != []
    ensures PrintItems(a) + "]" + s == Print(a[0]) + AfterItem(a, s)
  {}

  lemma ItemsHead(a: seq<Json>, s: string)
    requires forall i :: 0 <= i < |a| ==> Valid(a[i])
    ensures (PrintItems(a) + "]" + s)[0] == ']' <==> a == []
    ensures a != [] ==> PrintItems(a) + "]" + s == Print(a[0]) + AfterItem(a, s)
  {
    if a == [] {
      assert PrintItems(a) == "";
    } else {
      PrintHead(a[0]);
      ItemsSplit(a, s);
      hide Print, Valid, PrintItems, AfterItem;
      HeadStays(Print(a[0]), AfterItem(a, s));
    }
  }

  lemma PrintObject(a: Json, s: string)
    requires a.Object?
    ensures OwnKeys(a.fields, SortKeys(KeySeq(a.fields)))
    ensures Print(a) + s == "{" + (PrintFields(a, SortKeys(KeySeq(a.fields))) + "}" + s)
  {
    SortedAreOwn(a.fields);
    hide PrintFields, SortKeys;
  }

  lemma {:induction false} ObjectUnique(a: Json, b: Json, s: string, t: string)
    requires a.Object? && b.Object? && Valid(a) && Valid(b) && Print(a) + s == Print(b) + t
    ensures Same(a, b) && s == t
    decreases a, 0, |a.fields| + 1
  {
    var ka, kb := SortKeys(KeySeq(a.fields)), SortKeys(KeySeq(b.fields));
    PrintObject(a, s);
    PrintObject(b, t);
    var u, v := PrintFields(a, ka) + "}" + s, PrintFields(b, kb) + "}" + t;
    SortedLength(KeySeq(a.fields));
    hide PrintFields, Print, Valid, Same, SortKeys;
    SamePrefix("{", "{", u, v);
    FieldsUnique(a, b, ka, kb, s, t);
    SameFromKeys(a, b);
  }

  lemma {:induction false} SortedLength(keys: seq<string>)
    ensures |SortKeys(keys)| == |keys|
  {
    if keys != [] {
      SortedLength(keys[1..]);
      InsertLength(keys[0], SortKeys(keys[1..]));
    }
  }

  lemma {:induction false} InsertLength(key: string, sorted: seq<string>)
    ensures |InsertKey(key, sorted)| == |sorted| + 1
  {
    if sorted != [] { InsertLength(key, sorted[1..]); }
  }

  lemma {:induction false} FieldsUnique(a: Json, b: Json, ka: seq<string>, kb: seq<string>, s: string, t: string)
    requires a.Object? && b.Object? && Valid(a) && Valid(b) && OwnKeys(a.fields, ka) && OwnKeys(b.fields, kb)
    requires PrintFields(a, ka) + "}" + s == PrintFields(b, kb) + "}" + t
    ensures ka == kb && s == t
    ensures forall k :: k in ka && k in kb ==> Same(Get(a.fields, k), Get(b.fields, k))
    decreases a, 0, |ka|
  {
    hide Print, Same, Get, HasKey;
    FieldsHead(a, ka, s);
    FieldsHead(b, kb, t);
    if ka == [] {
      assert PrintFields(a, ka) + "}" + s == "}" + s && PrintFields(b, kb) + "}" + t == "}" + t;
      SamePrefix("}", "}", s, t);
    } else {
      GetSmaller(a, ka[0]);
      GetSmaller(b, kb[0]);
      hide Valid, PrintFields;
      var x, y := Print(Get(a.fields, ka[0])) + AfterField(a, ka, s),
        Print(Get(b.fields, kb[0])) + AfterField(b, kb, t);
      UnquoteKey(ka[0], kb[0], ":" + x, ":" + y);
      SamePrefix(":", ":", x, y);
      PrintUnique(Get(a.fields, ka[0]), Get(b.fields, kb[0]), AfterField(a, ka, s), AfterField(b, kb, t));
      if |ka| > 1 {
        SamePrefix(",", ",", PrintFields(a, ka[1..]) + "}" + s, PrintFields(b, kb[1..]) + "}" + t);
        FieldsUnique(a, b, ka[1..], kb[1..], s, t);
      } else {
        SamePrefix("}", "}", s, t);
      }
      assert ka == [ka[0]] + ka[1..] && kb == [kb[0]] + kb[1..];
    }
  }

  /** What follows the first field of an object. */
  function AfterField(a: Json, keys: seq<string>, s: string): (r: string)
    requires a.Object? && OwnKeys(a.fields, keys) && keys != []
    ensures Delimited(r) && r != "" && (r[0] == '}' <==> |keys| == 1)
  {
    if |keys| == 1 then "}" + s else "," + (PrintFields(a, keys[1..]) + "}" + s)
  }

  lemma FieldsHead(a: Json, keys: seq<string>, s: string)
    requires a.Object? && OwnKeys(a.fields, keys)
    ensures (PrintFields(a, keys) + "}" + s)[0] == '}' <==> keys == []
    ensures keys != [] ==>
      PrintFields(a, keys) + "}" + s
        == Quote(keys[0]) + (":" + (Print(Get(a.fields, keys[0])) + AfterField(a, keys, s)))
  {
    hide Print, Get, HasKey, Quote;
    if keys != [] {
      QuoteHead(keys[0]);
      var key, value := Quote(keys[0]), Print(Get(a.fields, keys[0]));
      var field := PrintField(a, keys[0]);
      if |keys| > 1 {
        Regroup(field, ",", PrintFields(a, keys[1..]), "}", s);
      } else {
        assert PrintFields(a, keys) + "}" + s == field + ("}" + s);
      }
      assert PrintFields(a, keys) + "}" + s == field + AfterField(a, keys, s);
      hide PrintFields, AfterField;
      Regroup3(key, value, AfterField(a, keys, s));
      HeadStays(key, ":" + (value + AfterField(a, keys, s)));
    }
  }

  lemma Regroup3(key: string, value: string, rest: string)
    ensures key + ":" + value + rest == key + (":" + (value + rest))
  {}

  lemma {:induction false} GetIs(fields: seq<Field>, i: nat)
    requires i < |fields| && Distinct(KeySeq(fields))
    ensures HasKey(fields, fields[i].key) && Get(fields, fields[i].key) == fields[i].value
  {}

  lemma SortedHasKeys(fields: seq<Field>, k: string)
    requires Distinct(KeySeq(fields))
    ensures k in SortKeys(KeySeq(fields)) <==> HasKey(fields, k)
  {
    SortKeysLaws(KeySeq(fields));
    assert k in SortKeys(KeySeq(fields)) <==> k in Elements(SortKeys(KeySeq(fields)));
    assert k in KeySeq(fields) <==> k in Elements(KeySeq(fields));
    if HasKey(fields, k) {
      var i :| 0 <= i < |fields| && fields[i].key == k;
      assert KeySeq(fields)[i] == k;
    }
  }

  lemma SameFromKeys(a: Json, b: Json)
    requires a.Object? && b.Object? && Distinct(KeySeq(a.fields)) && Distinct(KeySeq(b.fields))
    requires SortKeys(KeySeq(a.fields)) == SortKeys(KeySeq(b.fields))
    requires forall k :: k in SortKeys(KeySeq(a.fields)) && HasKey(a.fields, k) && HasKey(b.fields, k) ==>
      Same(Get(a.fields, k), Get(b.fields, k))
    ensures Same(a, b)
  {
    hide SortKeys, Get, Same, Valid;
    forall k ensures HasKey(a.fields, k) <==> HasKey(b.fields, k) {
      SortedHasKeys(a.fields, k);
      SortedHasKeys(b.fields, k);
    }
    forall i, j | 0 <= i < |a.fields| && 0 <= j < |b.fields| && a.fields[i].key == b.fields[j].key
      ensures Same(a.fields[i].value, b.fields[j].value)
    {
      GetIs(a.fields, i);
      GetIs(b.fields, j);
      SortedHasKeys(a.fields, a.fields[i].key);
      hide HasKey;
    }
    SameObjects(a, b);
  }

  lemma SameObjects(a: Json, b: Json)
    requires a.Object? && b.Object? && forall k :: HasKey(a.fields, k) <==> HasKey(b.fields, k)
    requires forall i, j :: 0 <= i < |a.fields| && 0 <= j < |b.fields| && a.fields[i].key == b.fields[j].key ==>
      Same(a.fields[i].value, b.fields[j].value)
    ensures Same(a, b)
  {
    hide HasKey;
  }

  // ---------------------------------------------------------------- key order does not matter

  lemma {:induction false} SamePrints(a: Json, b: Json)
    requires Valid(a) && Valid(b) && Same(a, b)
    ensures Print(a) == Print(b)
    decreases a, 1, 0
  {
    match a
    case Array(items) => SameItemsPrint(items, b.items);
    case Object(fields) =>
      var ka, kb := SortKeys(KeySeq(fields)), SortKeys(KeySeq(b.fields));
      SortKeysLaws(KeySeq(fields));
      SortKeysLaws(KeySeq(b.fields));
      forall k ensures k in Elements(ka) <==> k in Elements(kb) {
        SortedHasKeys(fields, k);
        SortedHasKeys(b.fields, k);
      }
      hide SortKeys, PrintFields;
      AscendingUnique(ka, kb);
      SortedAreOwn(fields);
      SortedAreOwn(b.fields);
      SameFieldsPrint(a, b, ka);
    case _ =>
  }

  lemma {:induction false} SameItemsPrint(a: seq<Json>, b: seq<Json>)
    requires (forall i :: 0 <= i < |a| ==> Valid(a[i])) && forall i :: 0 <= i < |b| ==> Valid(b[i])
    requires |a| == |b| && forall i :: 0 <= i < |a| ==> Same(a[i], b[i])
    ensures PrintItems(a) == PrintItems(b)
    decreases a, 0, 0
  {
    hide Print, Valid, Same;
    if a != [] {
      SamePrints(a[0], b[0]);
      SameItemsPrint(a[1..], b[1..]);
    }
  }

  lemma {:induction false} SameFieldsPrint(a: Json, b: Json, keys: seq<string>)
    requires a.Object? && b.Object? && Valid(a) && Valid(b) && Same(a, b)
    requires OwnKeys(a.fields, keys) && OwnKeys(b.fields, keys)
    ensures PrintFields(a, keys) == PrintFields(b, keys)
    decreases a, 0, |keys|
  {
    if keys != [] {
      SameFieldPrints(a, b, keys[0]);
      SameFieldsPrint(a, b, keys[1..]);
      hide PrintField, HasKey, Valid, Same;
    }
  }

  lemma {:induction false} SameFieldPrints(a: Json, b: Json, key: string)
    requires a.Object? && b.Object? && Valid(a) && Valid(b) && Same(a, b) && HasKey(a.fields, key)
      && HasKey(b.fields, key)
    ensures PrintField(a, key) == PrintField(b, key)
    decreases a, 0, 0
  {
    var i :| 0 <= i < |a.fields| && a.fields[i].key == key;
    var j :| 0 <= j < |b.fields| && b.fields[j].key == key;
    GetIs(a.fields, i);
    GetIs(b.fields, j);
    assert Valid(a.fields[i].value) && Valid(b.fields[j].value);
    hide Print, Get, Valid, Same;
    SamePrints(a.fields[i].value, b.fields[j].value);
  }

  /** Two values have the same canonical document exactly when they are equal up to the order of object keys. */
  lemma CanonicalExact(a: Json, b: Json)
    requires Valid(a) && Valid(b)
    ensures Print(a) == Print(b) <==> Same(a, b)
  {
    if Print(a) == Print(b) {
      assert Print(a) + "" == Print(b) + "";
      PrintUnique(a, b, "", "");
    } else if Same(a, b) {
      SamePrints(a, b);
    }
  }
}
