/** Copying raw provider metadata within a budget of nodes, depth, entries and characters, whatever circles it
    contains. */
module RawMetadata {

  type Ref = nat

  datatype Raw =
    | Null
    | Bool(b: bool)
    | Number(n: real)
    | NonFinite(text: string)
    | Str(s: string)
    | BigInt(digits: string)
    | Undefined
    | SymbolOrFunction
    | Object(ref: Ref)

  datatype Entry = Entry(key: string, value: Raw)

  /** Listing the entries of an exotic object may throw. */
  datatype Node = Items(items: seq<Raw>) | Entries(entries: seq<Entry>) | Throws

  ghost predicate InGraph(g: map<Ref, Node>, raw: Raw) { raw.Object? ==> raw.ref in g }

  ghost predicate Closed(g: map<Ref, Node>) {
    forall r :: r in g ==>
      && (g[r].Items? ==> forall i :: 0 <= i < |g[r].items| ==> InGraph(g, g[r].items[i]))
      && (g[r].Entries? ==> forall i :: 0 <= i < |g[r].entries| ==> InGraph(g, g[r].entries[i].value))
  }

  /** No reference dangles. */
  type Graph = g: map<Ref, Node> | Closed(g) witness map[]

  lemma Reaches(g: Graph, ref: Ref, i: nat)
    requires ref in g
    ensures g[ref].Items? && i < |g[ref].items| ==> InGraph(g, g[ref].items[i])
    ensures g[ref].Entries? && i < |g[ref].entries| ==> InGraph(g, g[ref].entries[i].value)
  {
  }

  const DEPTH := 10
  const NODES := 512
  const ENTRIES := 128
  const CHARACTERS := 32768
  const TRUNCATED := "[TRUNCATED]"

  /** What stands in for something that was not copied. */
  datatype Mark = Truncated | Circular | Unsupported

  /** A key or text of the input, or a mark. */
  datatype Label = Own(s: string) | Marked(mark: Mark)

  /** `cut` says that a truncation entry follows. */
  datatype Out =
    | Scalar(raw: Raw)
    | Text(name: Label)
    | List(items: seq<Out>, cut: bool)
    | Record(fields: seq<Field>, cut: bool)

  datatype Field = Field(name: Label, value: Out)

  // ---------------------------------------------------------------- measuring a copy

  function Chars(l: Label): nat { if l.Own? then |l.s| else 0 }

  /** Characters of input keys and strings in the copy. */
  function Copied(out: Out): nat {
    match out
    case Scalar(_) => 0
    case Text(name) => Chars(name)
    case List(items, _) => CopiedItems(items)
    case Record(fields, _) => CopiedFields(fields)
  }

  function CopiedItems(items: seq<Out>): nat {
    if items == [] then 0 else CopiedItems(items[..|items| - 1]) + Copied(items[|items| - 1])
  }

  function CopiedFields(fields: seq<Field>): nat {
    if fields == [] then 0 else CopiedFields(fields[..|fields| - 1]) + CopiedField(fields[|fields| - 1])
  }

  function CopiedField(f: Field): nat { Chars(f.name) + Copied(f.value) }

  /** Values in the copy other than truncation marks. */
  function Values(out: Out): nat {
    match out
    case Scalar(_) => 1
    case Text(name) => if name == Marked(Truncated) then 0 else 1
    case List(items, _) => 1 + ValuesOfItems(items)
    case Record(fields, _) => 1 + ValuesOfFields(fields)
  }

  function ValuesOfItems(items: seq<Out>): nat {
    if items == [] then 0 else ValuesOfItems(items[..|items| - 1]) + Values(items[|items| - 1])
  }

  function ValuesOfFields(fields: seq<Field>): nat {
    if fields == [] then 0 else ValuesOfFields(fields[..|fields| - 1]) + ValuesOfField(fields[|fields| - 1])
  }

  function ValuesOfField(f: Field): nat { Values(f.value) }

  /** Collections are nested at most `height` deep, and none has more than the allowed entries and the truncation. */
  predicate Within(out: Out, height: nat)
    decreases out
  {
    match out
    case List(items, cut) =>
      && height > 0 && |items| <= ENTRIES
      && forall i :: 0 <= i < |items| ==> Within(items[i], height - 1)
    case Record(fields, cut) =>
      && height > 0 && |fields| <= ENTRIES
      && forall i :: 0 <= i < |fields| ==> Within(fields[i].value, height - 1)
    case _ => true
  }

  predicate IsScalar(raw: Raw) { raw.Null? || raw.Bool? || raw.Number? || raw.NonFinite? }

  /** The copy agrees with the input wherever it is not marked as truncated; a circular mark stands for one of the
      objects around it, which are never copied again. */
  predicate Agrees(g: Graph, raw: Raw, out: Out, around: set<Ref>)
    decreases out
  {
    match out
    case Scalar(v) => if raw.Undefined? then v.Null? else IsScalar(raw) && v == raw
    case Text(Own(s)) => raw == Str(s) || (raw.BigInt? && s == raw.digits + "n")
    case Text(Marked(mark)) =>
      (mark.Circular? ==> raw.Object? && raw.ref in around) && (mark.Unsupported? ==> raw.SymbolOrFunction?)
    case List(items, cut) =>
      && raw.Object? && raw.ref in g && raw.ref !in around && g[raw.ref].Items?
      && var all := g[raw.ref].items;
      && |items| == (if |all| <= ENTRIES then |all| else ENTRIES) && cut == (|all| > ENTRIES)
      && forall i :: 0 <= i < |items| ==> Agrees(g, all[i], items[i], around + {raw.ref})
    case Record(fields, cut) =>
      && raw.Object? && raw.ref in g && raw.ref !in around && g[raw.ref].Entries?
      && var all := g[raw.ref].entries;
      && |fields| <= |all| && (cut <==> |fields| < |all|)
      && forall i :: 0 <= i < |fields| ==> FieldAgrees(g, all[i], fields[i], around + {raw.ref})
  }

  predicate FieldAgrees(g: Graph, e: Entry, f: Field, around: set<Ref>)
    decreases f
  {
    (f.name.Own? ==> f.name == NameOf(e.key)) && Agrees(g, e.value, f.value, around)
  }

  // ---------------------------------------------------------------- the copy without limits

  /** A key that reads like the mark counts as one. */
  function NameOf(key: string): Label { if key == TRUNCATED then Marked(Truncated) else Own(key) }

  /** What a copier without limits would return: it stops only at circles, functions and objects that cannot list their
      entries. */
  function Whole(g: Graph, raw: Raw, around: set<Ref>): Out
    requires InGraph(g, raw)
    decreases g.Keys - around
  {
    match raw
    case Str(s) => Text(Own(s))
    case BigInt(digits) => Text(Own(digits + "n"))
    case Undefined => Scalar(Null)
    case SymbolOrFunction => Text(Marked(Unsupported))
    case Object(ref) =>
      if ref in around then Text(Marked(Circular)) else
      (match g[ref]
       case Items(all) => List(seq(|all|, i requires 0 <= i < |all| => Whole(g, all[i], around + {ref})), false)
       case Entries(all) =>
         Record(seq(|all|, i requires 0 <= i < |all| =>
           Field(NameOf(all[i].key), Whole(g, all[i].value, around + {ref}))), false)
       case Throws => Text(Marked(Truncated)))
    case _ => Scalar(raw)
  }

  predicate Untruncated(out: Out)
    decreases out
  {
    match out
    case Scalar(_) => true
    case Text(name) => name != Marked(Truncated)
    case List(items, cut) => !cut && forall i :: 0 <= i < |items| ==> Untruncated(items[i])
    case Record(fields, cut) => !cut && forall i :: 0 <= i < |fields| ==> WholeField(fields[i])
  }

  predicate WholeField(f: Field)
    decreases f
  {
    f.name.Own? && Untruncated(f.value)
  }

  /** Values lie at most `height` levels down, and no collection has more than the allowed entries. */
  predicate Shallow(out: Out, height: int)
    decreases out
  {
    && height >= 0
    && match out
       case List(items, _) =>
         |items| <= ENTRIES && forall i :: 0 <= i < |items| ==> Shallow(items[i], height - 1)
       case Record(fields, _) =>
         |fields| <= ENTRIES && forall i :: 0 <= i < |fields| ==> Shallow(fields[i].value, height - 1)
       case _ => true
  }

  predicate Fits(out: Out, nodes: nat, characters: nat, depth: nat) {
    Untruncated(out) && Shallow(out, DEPTH - depth) && Values(out) <= nodes && Copied(out) <= characters
  }

  /** A copy that agrees with the input and holds no truncation is the copy without limits. */
  lemma {:induction false} UntruncatedIsWhole(g: Graph, raw: Raw, out: Out, around: set<Ref>)
    requires InGraph(g, raw) && Agrees(g, raw, out, around) && Untruncated(out)
    ensures out == Whole(g, raw, around)
    decreases out
  {
    match out
    case List(items, _) =>
      var all := g[raw.ref].items;
      forall i | 0 <= i < |items| ensures items[i] == Whole(g, all[i], around + {raw.ref}) {
        UntruncatedIsWhole(g, all[i], items[i], around + {raw.ref});
      }
      WholeItems(g, raw.ref, around);
    case Record(fields, _) =>
      var all := g[raw.ref].entries;
      forall i | 0 <= i < |fields|
        ensures fields[i] == Field(NameOf(all[i].key), Whole(g, all[i].value, around + {raw.ref}))
      {
        assert FieldAgrees(g, all[i], fields[i], around + {raw.ref}) && WholeField(fields[i]);
        assert fields[i].value < out;
        UntruncatedIsWhole(g, all[i].value, fields[i].value, around + {raw.ref});
      }
      WholeEntries(g, raw.ref, around);
    case _ =>
  }

  // ---------------------------------------------------------------- spending along a collection

  lemma ItemAdded(items: seq<Out>, item: Out)
    ensures ValuesOfItems(items + [item]) == ValuesOfItems(items) + Values(item)
    ensures CopiedItems(items + [item]) == CopiedItems(items) + Copied(item)
  {
    assert (items + [item])[..|items|] == items;
  }

  lemma FieldAdded(fields: seq<Field>, f: Field)
    ensures ValuesOfFields(fields + [f]) == ValuesOfFields(fields) + ValuesOfField(f)
    ensures CopiedFields(fields + [f]) == CopiedFields(fields) + CopiedField(f)
  {
    assert (fields + [f])[..|fields|] == fields;
  }

  lemma {:induction false} ItemsCost(items: seq<Out>, i: nat)
    requires i < |items|
    ensures ValuesOfItems(items[..i]) + Values(items[i]) == ValuesOfItems(items[..i + 1]) <= ValuesOfItems(items)
    ensures CopiedItems(items[..i]) + Copied(items[i]) == CopiedItems(items[..i + 1]) <= CopiedItems(items)
    decreases |items| - i
  {
    assert items[..i + 1][..i] == items[..i];
    assert items[..i + 1][i] == items[i];
    if i + 1 < |items| { ItemsCost(items, i + 1); } else { assert items[..i + 1] == items; }
  }

  lemma {:induction false} FieldsCost(fields: seq<Field>, i: nat)
    requires i < |fields|
    ensures ValuesOfFields(fields[..i]) + ValuesOfField(fields[i]) == ValuesOfFields(fields[..i + 1])
    ensures CopiedFields(fields[..i]) + CopiedField(fields[i]) == CopiedFields(fields[..i + 1])
    ensures ValuesOfFields(fields[..i + 1]) <= ValuesOfFields(fields)
    ensures CopiedFields(fields[..i + 1]) <= CopiedFields(fields)
    decreases |fields| - i
  {
    assert fields[..i + 1][..i] == fields[..i];
    if i + 1 < |fields| { FieldsCost(fields, i + 1); } else { assert fields[..i + 1] == fields; }
  }

  /** What every visit at a depth promises of its result, whatever the budget. */
  ghost predicate Sound(g: Graph, raw: Raw, out: Out, around: set<Ref>, depth: nat) {
    && Within(out, Allowance(depth)) && Agrees(g, raw, out, around)
    && (Untruncated(out) ==> Shallow(out, DEPTH - depth))
  }

  ghost predicate SoundField(g: Graph, e: Entry, f: Field, around: set<Ref>, depth: nat) {
    (f.name.Own? ==> f.name == NameOf(e.key)) && Sound(g, e.value, f.value, around, depth)
  }

  ghost predicate SoundItems(g: Graph, all: seq<Raw>, done: seq<Out>, around: set<Ref>, depth: nat) {
    |done| <= |all| && forall k :: 0 <= k < |done| ==> Sound(g, all[k], done[k], around, depth)
  }

  lemma SoundItemAdded(g: Graph, all: seq<Raw>, done: seq<Out>, item: Out, around: set<Ref>, depth: nat)
    requires |done| < |all| && SoundItems(g, all, done, around, depth)
    requires Sound(g, all[|done|], item, around, depth)
    ensures SoundItems(g, all, done + [item], around, depth)
  {
  }

  ghost predicate SoundFields(g: Graph, all: seq<Entry>, done: seq<Field>, around: set<Ref>, depth: nat) {
    |done| <= |all| && forall k :: 0 <= k < |done| ==> SoundField(g, all[k], done[k], around, depth)
  }

  lemma SoundFieldAdded(g: Graph, all: seq<Entry>, done: seq<Field>, f: Field, around: set<Ref>, depth: nat)
    requires |done| < |all| && SoundFields(g, all, done, around, depth)
    requires SoundField(g, all[|done|], f, around, depth)
    ensures SoundFields(g, all, done + [f], around, depth)
  {
  }

  lemma SoundList(g: Graph, ref: Ref, out: Out, around: set<Ref>, depth: nat)
    requires ref in g && g[ref].Items? && ref !in around && depth <= DEPTH && out.List?
    requires
      var all := g[ref].items;
      && |out.items| == (if |all| <= ENTRIES then |all| else ENTRIES) && out.cut == (|all| > ENTRIES)
      && SoundItems(g, all, out.items, around + {ref}, depth + 1)
    ensures Sound(g, Object(ref), out, around, depth)
  {
    var items := out.items;
    forall k | 0 <= k < |items|
      ensures Within(items[k], Allowance(depth + 1)) && Agrees(g, g[ref].items[k], items[k], around + {ref})
      ensures Untruncated(items[k]) ==> Shallow(items[k], DEPTH - depth - 1)
    {
      assert Sound(g, g[ref].items[k], items[k], around + {ref}, depth + 1);
    }
  }

  lemma SoundRecord(g: Graph, ref: Ref, out: Out, around: set<Ref>, depth: nat)
    requires ref in g && g[ref].Entries? && ref !in around && depth <= DEPTH && out.Record?
    requires
      var all := g[ref].entries;
      && |out.fields| <= ENTRIES && SoundFields(g, all, out.fields, around + {ref}, depth + 1)
      && (out.cut <==> |out.fields| < |all|)
    ensures Sound(g, Object(ref), out, around, depth)
  {
    var fields := out.fields;
    forall k | 0 <= k < |fields|
      ensures Within(fields[k].value, Allowance(depth + 1))
      ensures FieldAgrees(g, g[ref].entries[k], fields[k], around + {ref})
      ensures WholeField(fields[k]) ==> Shallow(fields[k].value, DEPTH - depth - 1)
    {
      assert SoundField(g, g[ref].entries[k], fields[k], around + {ref}, depth + 1);
    }
  }

  lemma WholeItems(g: Graph, ref: Ref, around: set<Ref>)
    requires ref in g && g[ref].Items? && ref !in around
    ensures
      var whole, all := Whole(g, Object(ref), around), g[ref].items;
      && whole.List? && !whole.cut && |whole.items| == |all|
      && forall k :: 0 <= k < |all| ==> whole.items[k] == Whole(g, all[k], around + {ref})
  {
  }

  lemma WholeEntries(g: Graph, ref: Ref, around: set<Ref>)
    requires ref in g && g[ref].Entries? && ref !in around
    ensures
      var whole, all := Whole(g, Object(ref), around), g[ref].entries;
      && whole.Record? && !whole.cut && |whole.fields| == |all|
      && forall k :: 0 <= k < |all| ==>
           whole.fields[k] == Field(NameOf(all[k].key), Whole(g, all[k].value, around + {ref}))
  {
  }

  lemma SomethingToPay(whole: Out)
    requires Untruncated(whole)
    ensures Values(whole) > 0
  {
  }

  /** While the copy without limits fits, the copier is on its way to it and has spent the cost of what it copied. */
  ghost predicate ItemsOnTrack(whole: Out, done: seq<Out>, nodes: nat, characters: nat, n: nat, c: nat, depth: nat)
    requires whole.List?
  {
    Fits(whole, nodes + 1, characters, depth) ==>
      && |done| <= |whole.items| && done == whole.items[..|done|]
      && n + ValuesOfItems(done) == nodes && c + CopiedItems(done) == characters
  }

  ghost predicate FieldsOnTrack(whole: Out, done: seq<Field>, nodes: nat, characters: nat, n: nat, c: nat, depth: nat)
    requires whole.Record?
  {
    Fits(whole, nodes + 1, characters, depth) ==>
      && |done| <= |whole.fields| && done == whole.fields[..|done|]
      && n + ValuesOfFields(done) == nodes && c + CopiedFields(done) == characters
  }

  lemma ItemStep(
    whole: Out, done: seq<Out>, item: Out,
    nodes: nat, characters: nat, n: nat, c: nat, n2: nat, c2: nat, depth: nat
  )
    requires whole.List? && |done| < |whole.items| && ItemsOnTrack(whole, done, nodes, characters, n, c, depth)
    requires
      Fits(whole.items[|done|], n, c, depth + 1) ==>
        item == whole.items[|done|] && n2 + Values(item) == n && c2 + Copied(item) == c
    ensures ItemsOnTrack(whole, done + [item], nodes, characters, n2, c2, depth)
  {
    if Fits(whole, nodes + 1, characters, depth) {
      var i := |done|;
      ItemsCost(whole.items, i);
      assert Shallow(whole.items[i], DEPTH - depth - 1) && Untruncated(whole.items[i]);
      assert whole.items[..i] + [whole.items[i]] == whole.items[..i + 1];
    }
  }

  ghost predicate FieldFits(f: Field, nodes: nat, characters: nat, depth: nat) {
    && f.name.Own? && Chars(f.name) <= characters
    && Fits(f.value, nodes, characters - Chars(f.name), depth)
  }

  lemma FieldStep(
    whole: Out, done: seq<Field>, f: Field,
    nodes: nat, characters: nat, n: nat, c: nat, n2: nat, c2: nat, depth: nat
  )
    requires whole.Record? && |done| < |whole.fields|
    requires FieldsOnTrack(whole, done, nodes, characters, n, c, depth)
    requires
      FieldFits(whole.fields[|done|], n, c, depth + 1) ==>
        f == whole.fields[|done|] && n2 + ValuesOfField(f) == n && c2 + CopiedField(f) == c
    ensures FieldsOnTrack(whole, done + [f], nodes, characters, n2, c2, depth)
  {
    if Fits(whole, nodes + 1, characters, depth) {
      var i := |done|;
      FieldsCost(whole.fields, i);
      assert Shallow(whole.fields[i].value, DEPTH - depth - 1) && WholeField(whole.fields[i]);
      assert whole.fields[..i] + [whole.fields[i]] == whole.fields[..i + 1];
    }
  }

  lemma ListDone(
    whole: Out, out: Out, nodes: nat, characters: nat, n: nat, c: nat, depth: nat
  )
    requires whole.List? && !whole.cut && out.List? && (out.cut <==> |whole.items| > ENTRIES)
    requires |out.items| == (if |whole.items| <= ENTRIES then |whole.items| else ENTRIES)
    requires ItemsOnTrack(whole, out.items, nodes, characters, n, c, depth)
    ensures
      Fits(whole, nodes + 1, characters, depth) ==>
        out == whole && n + Values(out) == nodes + 1 && c + Copied(out) == characters
  {
    if Fits(whole, nodes + 1, characters, depth) {
      assert out.items == whole.items;
    }
  }

  /** A record on its way to a copy that fits is not cut. */
  lemma RecordDone(
    whole: Out, out: Out, nodes: nat, characters: nat, n: nat, c: nat, depth: nat
  )
    requires whole.Record? && !whole.cut && out.Record? && |out.fields| <= |whole.fields|
    requires out.cut <==> |out.fields| < |whole.fields|
    requires out.cut ==> |out.fields| >= ENTRIES || n == 0
    requires FieldsOnTrack(whole, out.fields, nodes, characters, n, c, depth)
    ensures
      Fits(whole, nodes + 1, characters, depth) ==>
        out == whole && n + Values(out) == nodes + 1 && c + Copied(out) == characters
  {
    if Fits(whole, nodes + 1, characters, depth) {
      var i := |out.fields|;
      if i < |whole.fields| {
        FieldsCost(whole.fields, i);
        assert WholeField(whole.fields[i]);
        SomethingToPay(whole.fields[i].value);
      } else {
        assert out.fields == whole.fields;
      }
    }
  }

  // ---------------------------------------------------------------- the copier

  function Allowance(depth: nat): nat { if depth > DEPTH then 0 else DEPTH + 1 - depth }

  class Copier {
    var nodes: nat
    var characters: nat
    var active: set<Ref>

    constructor ()
      ensures nodes == NODES && characters == CHARACTERS && active == {}
    {
      nodes, characters, active := NODES, CHARACTERS, {};
    }

    /** What a visit spends is at least what it emits, and it leaves the set of objects around it as it was. */
    twostate predicate Spent(values: nat, copied: nat)
      reads this
    {
      && nodes + values <= old(nodes)
      && characters + copied <= old(characters)
      && active == old(active)
    }

    /** When the copy without limits fits, it is the result, and exactly its cost is spent; `paid` of it was spent
        before. */
    twostate predicate Complete(whole: Out, out: Out, depth: nat, paid: nat)
      reads this
    {
      Fits(whole, old(nodes) + paid, old(characters), depth) ==>
        && out == whole
        && nodes == old(nodes) + paid - Values(out)
        && characters == old(characters) - Copied(out)
    }

    method BoundedString(s: string) returns (name: Label)
      modifies this`characters
      ensures name == (if |s| > old(characters) then Marked(Truncated) else Own(s))
      ensures characters == (if |s| > old(characters) then 0 else old(characters) - |s|)
    {
      if |s| > characters {
        characters := 0;
        return Marked(Truncated);
      }
      characters := characters - |s|;
      return Own(s);
    }

    method Visit(g: Graph, raw: Raw, depth: nat) returns (out: Out)
      requires InGraph(g, raw)
      modifies this
      ensures Spent(Values(out), Copied(out))
      ensures Sound(g, raw, out, active, depth)
      ensures Complete(Whole(g, raw, active), out, depth, 0)
      ensures old(nodes) == 0 || depth > DEPTH ==> out == Text(Marked(Truncated))
      decreases Allowance(depth), 1
    {
      ghost var whole := Whole(g, raw, active);
      if nodes == 0 || depth > DEPTH {
        if Fits(whole, nodes, characters, depth) { SomethingToPay(whole); }
        return Text(Marked(Truncated));
      }
      nodes := nodes - 1;
      match raw
      case Str(s) =>
        var name := BoundedString(s);
        out := Text(name);
      case BigInt(digits) =>
        var name := BoundedString(digits + "n");
        out := Text(name);
      case Undefined => out := Scalar(Null);
      case SymbolOrFunction => out := Text(Marked(Unsupported));
      case Object(ref) =>
        if ref in active { return Text(Marked(Circular)); }
        active := active + {ref};
        assert active - {ref} == old(active);
        if g[ref].Items? {
          out := VisitItems(g, ref, depth);
        } else if g[ref].Entries? {
          out := VisitEntries(g, ref, depth);
        } else {
          out := Text(Marked(Truncated));
        }
        active := active - {ref};
      case _ => out := Scalar(raw);
    }

    method VisitItems(g: Graph, ref: Ref, depth: nat) returns (out: Out)
      requires ref in g && g[ref].Items? && depth <= DEPTH && ref in active
      modifies this
      ensures out.List? && Spent(ValuesOfItems(out.items), CopiedItems(out.items))
      ensures Sound(g, Object(ref), out, active - {ref}, depth)
      ensures Complete(Whole(g, Object(ref), active - {ref}), out, depth, 1)
      decreases Allowance(depth), 0
    {
      var all := g[ref].items;
      var bounded: seq<Out> := [];
      var length := if |all| <= ENTRIES then |all| else ENTRIES;
      ghost var whole, n, c := Whole(g, Object(ref), active - {ref}), nodes, characters;
      assert active - {ref} + {ref} == active;
      WholeItems(g, ref, active - {ref});
      assert SoundItems(g, all, bounded, active, depth + 1);
      assert ItemsOnTrack(whole, bounded, n, c, nodes, characters, depth);
      hide Sound, Whole, Fits, Closed, InGraph, SoundItems, ItemsOnTrack;
      for i := 0 to length
        invariant |bounded| == i && Spent(ValuesOfItems(bounded), CopiedItems(bounded))
        invariant SoundItems(g, all, bounded, active, depth + 1)
        invariant ItemsOnTrack(whole, bounded, n, c, nodes, characters, depth)
      {
        hide Values, Copied, ValuesOfItems, CopiedItems;
        ghost var before, left := nodes, characters;
        Reaches(g, ref, i);
        var item := Visit(g, all[i], depth + 1);
        ItemAdded(bounded, item);
        ItemStep(whole, bounded, item, n, c, before, left, nodes, characters, depth);
        SoundItemAdded(g, all, bounded, item, active, depth + 1);
        bounded := bounded + [item];
      }
      out := List(bounded, |all| > ENTRIES);
      SoundList(g, ref, out, active - {ref}, depth);
      ListDone(whole, out, n, c, nodes, characters, depth);
    }

    method VisitEntry(g: Graph, e: Entry, depth: nat) returns (f: Field)
      requires InGraph(g, e.value)
      modifies this
      ensures Spent(ValuesOfField(f), CopiedField(f)) && SoundField(g, e, f, active, depth)
      ensures
        var whole := Field(NameOf(e.key), Whole(g, e.value, active));
        FieldFits(whole, old(nodes), old(characters), depth) ==>
          && f == whole
          && nodes + ValuesOfField(f) == old(nodes) && characters + CopiedField(f) == old(characters)
      decreases Allowance(depth), 2
    {
      hide Sound, Whole, Fits, Closed, InGraph;
      var key := BoundedString(e.key);
      var name := if key == Own(TRUNCATED) then Marked(Truncated) else key;
      var value := Visit(g, e.value, depth);
      f := Field(name, value);
    }

    method VisitEntries(g: Graph, ref: Ref, depth: nat) returns (out: Out)
      requires ref in g && g[ref].Entries? && depth <= DEPTH && ref in active
      modifies this
      ensures out.Record? && Spent(ValuesOfFields(out.fields), CopiedFields(out.fields))
      ensures Sound(g, Object(ref), out, active - {ref}, depth)
      ensures Complete(Whole(g, Object(ref), active - {ref}), out, depth, 1)
      decreases Allowance(depth), 0
    {
      var all := g[ref].entries;
      var bounded: seq<Field> := [];
      var cut := false;
      ghost var whole, n, c := Whole(g, Object(ref), active - {ref}), nodes, characters;
      assert active - {ref} + {ref} == active;
      WholeEntries(g, ref, active - {ref});
      assert SoundFields(g, all, bounded, active, depth + 1);
      assert FieldsOnTrack(whole, bounded, n, c, nodes, characters, depth);
      hide Sound, Whole, Fits, Closed, InGraph, SoundFields, FieldsOnTrack;
      for i := 0 to |all|
        invariant !cut && |bounded| == i <= |all| && i <= ENTRIES
          && Spent(ValuesOfFields(bounded), CopiedFields(bounded))
        invariant SoundFields(g, all, bounded, active, depth + 1)
        invariant FieldsOnTrack(whole, bounded, n, c, nodes, characters, depth)
      {
        hide Values, Copied, ValuesOfFields, CopiedFields;
        if i >= ENTRIES || nodes == 0 {
          cut := true;
          break;
        }
        ghost var before, left := nodes, characters;
        Reaches(g, ref, i);
        var field := VisitEntry(g, all[i], depth + 1);
        FieldAdded(bounded, field);
        FieldStep(whole, bounded, field, n, c, before, left, nodes, characters, depth);
        SoundFieldAdded(g, all, bounded, field, active, depth + 1);
        bounded := bounded + [field];
      }
      out := Record(bounded, cut);
      SoundRecord(g, ref, out, active - {ref}, depth);
      RecordDone(whole, out, n, c, nodes, characters, depth);
    }
  }

  /** On any value the copier ends. The copy agrees with the input wherever it is not marked, is at most 11 collections
      deep with at most 128 entries and a truncation each, and holds at most 512 values and 32768 input characters. It
      is free of truncation exactly when the copy without limits keeps the limits, and is then that copy. */
  method BoundRawMetadata(g: Graph, raw: Raw) returns (out: Out)
    requires InGraph(g, raw)
    ensures Agrees(g, raw, out, {})
    ensures Within(out, 11) && Values(out) <= 512 && Copied(out) <= 32768
    ensures Untruncated(out) <==> Fits(Whole(g, raw, {}), 512, 32768, 0)
    ensures Untruncated(out) ==> out == Whole(g, raw, {})
  {
    var copier := new Copier();
    out := copier.Visit(g, raw, 0);
    if Untruncated(out) { UntruncatedIsWhole(g, raw, out, {}); }
  }
}
