/** Collecting the strings below sensitive keys of a value whose objects may refer to each other in circles. */
module SecretWalk {

  type Ref = nat

  datatype Value = Text(text: string) | Object(ref: Ref) | Other

  datatype Entry = Entry(key: string, value: Value)

  /** Listing the entries of an exotic object may throw. */
  datatype Node = Throws | Entries(entries: seq<Entry>)

  function EntriesOf(n: Node): seq<Entry> { if n.Throws? then [] else n.entries }

  ghost predicate Closed(nodes: map<Ref, Node>) {
    forall r, k :: r in nodes && 0 <= k < |EntriesOf(nodes[r])| && EntriesOf(nodes[r])[k].value.Object? ==>
      EntriesOf(nodes[r])[k].value.ref in nodes
  }

  /** No reference dangles. */
  type Graph = g: map<Ref, Node> | Closed(g) witness map[]

  /** The key is sensitive and the entry is not a harmless token count. */
  type Flag = Entry -> bool

  // ---------------------------------------------------------------- walks

  /** Taking the entry at an index of an object. */
  datatype Step = Step(ref: Ref, index: nat)

  predicate ValidStep(g: Graph, s: Step) { s.ref in g && s.index < |EntriesOf(g[s.ref])| }

  function EntryAt(g: Graph, s: Step): Entry
    requires ValidStep(g, s)
  {
    EntriesOf(g[s.ref])[s.index]
  }

  /** Each step starts at the object the step before led to. */
  ghost predicate Walk(g: Graph, root: Ref, walk: seq<Step>) {
    && (forall i :: 0 <= i < |walk| ==> ValidStep(g, walk[i]))
    && (walk != [] ==> walk[0].ref == root)
    && (forall i :: 0 <= i < |walk| - 1 ==> EntryAt(g, walk[i]).value == Object(walk[i + 1].ref))
  }

  ghost predicate Sensitive(g: Graph, flag: Flag, walk: seq<Step>) {
    exists i :: 0 <= i < |walk| && ValidStep(g, walk[i]) && flag(EntryAt(g, walk[i]))
  }

  /** A walk through some sensitive key ends at the string. */
  ghost predicate Secret(g: Graph, flag: Flag, root: Ref, text: string) {
    exists walk :: walk != [] && Walk(g, root, walk) && Sensitive(g, flag, walk)
      && EntryAt(g, walk[|walk| - 1]).value == Text(text)
  }

  /** A walk of the given sensitivity leads to the object. */
  ghost predicate LeadsTo(g: Graph, flag: Flag, root: Ref, walk: seq<Step>, r: Ref, sensitive: bool) {
    && Walk(g, root, walk)
    && (walk == [] ==> r == root)
    && (walk != [] ==> EntryAt(g, walk[|walk| - 1]).value == Object(r))
    && sensitive == Sensitive(g, flag, walk)
  }

  ghost predicate Reached(g: Graph, flag: Flag, root: Ref, r: Ref, sensitive: bool) {
    exists walk :: LeadsTo(g, flag, root, walk, r, sensitive)
  }

  lemma WalkExtends(g: Graph, flag: Flag, root: Ref, walk: seq<Step>, r: Ref, sensitive: bool, k: nat)
    requires LeadsTo(g, flag, root, walk, r, sensitive) && ValidStep(g, Step(r, k))
    ensures var longer, e := walk + [Step(r, k)], EntryAt(g, Step(r, k));
      && Walk(g, root, longer) && EntryAt(g, longer[|walk|]) == e
      && (Sensitive(g, flag, longer) <==> sensitive || flag(e))
  {
    var longer, e := walk + [Step(r, k)], EntryAt(g, Step(r, k));
    forall i | 0 <= i < |longer| ensures ValidStep(g, longer[i]) {
      if i < |walk| { assert longer[i] == walk[i]; }
    }
    forall i | 0 <= i < |longer| - 1 ensures EntryAt(g, longer[i]).value == Object(longer[i + 1].ref) {
      assert longer[i] == walk[i];
      if i < |walk| - 1 { assert longer[i + 1] == walk[i + 1]; }
    }
    if Sensitive(g, flag, walk) {
      var i :| 0 <= i < |walk| && ValidStep(g, walk[i]) && flag(EntryAt(g, walk[i]));
      assert longer[i] == walk[i];
    }
    if flag(e) { assert longer[|walk|] == Step(r, k); }
    if Sensitive(g, flag, longer) && !flag(e) {
      var i :| 0 <= i < |longer| && ValidStep(g, longer[i]) && flag(EntryAt(g, longer[i]));
      assert longer[i] == walk[i];
    }
  }

  lemma WalkShortens(g: Graph, flag: Flag, root: Ref, walk: seq<Step>)
    requires walk != [] && Walk(g, root, walk)
    ensures var n := |walk| - 1;
      LeadsTo(g, flag, root, walk[..n], walk[n].ref, Sensitive(g, flag, walk[..n]))
  {}

  // ---------------------------------------------------------------- the worklist

  datatype Pending = Pending(value: Value, sensitive: bool)

  type Seen = map<Ref, bool>

  /** The object was expanded at this sensitivity or a stronger one. */
  predicate Covered(seen: Seen, r: Ref, sensitive: bool) {
    r in seen && (seen[r] || !sensitive)
  }

  ghost predicate Waiting(pending: seq<Pending>, r: Ref, sensitive: bool) {
    exists i :: 0 <= i < |pending| && pending[i].value == Object(r) && (pending[i].sensitive || !sensitive)
  }

  /** What following one entry must have left behind. */
  ghost predicate Followed(e: Entry, sensitive: bool, seen: Seen, pending: seq<Pending>, secrets: set<string>) {
    && (e.value.Text? && sensitive ==> e.value.text in secrets)
    && (e.value.Object? ==> Covered(seen, e.value.ref, sensitive) || Waiting(pending, e.value.ref, sensitive))
  }

  ghost predicate Complete(g: Graph, flag: Flag, seen: Seen, pending: seq<Pending>, secrets: set<string>) {
    forall r, b, k :: Covered(seen, r, b) && ValidStep(g, Step(r, k)) ==>
      Followed(EntryAt(g, Step(r, k)), b || flag(EntryAt(g, Step(r, k))), seen, pending, secrets)
  }

  ghost predicate PendingSound(g: Graph, flag: Flag, root: Ref, pending: seq<Pending>) {
    forall i :: 0 <= i < |pending| ==>
      pending[i].value.Object? && pending[i].value.ref in g
        && Reached(g, flag, root, pending[i].value.ref, pending[i].sensitive)
  }

  /** Each object is listed at most twice: once for each sensitivity. */
  ghost predicate ExpandedOnce(expanded: seq<(Ref, bool)>, seen: Seen) {
    && (forall i, j :: 0 <= i < j < |expanded| ==> expanded[i] != expanded[j])
    && (forall i :: 0 <= i < |expanded| ==> Covered(seen, expanded[i].0, expanded[i].1))
  }

  ghost function Uncovered(g: Graph, seen: Seen): set<(Ref, bool)> {
    set r, b | r in g && b in {false, true} && !Covered(seen, r, b) :: (r, b)
  }

  lemma CoverMore(g: Graph, seen: Seen, r: Ref, sensitive: bool)
    requires r in g && !Covered(seen, r, sensitive)
    ensures Uncovered(g, seen[r := sensitive]) < Uncovered(g, seen)
  {
    assert (r, sensitive) in Uncovered(g, seen) && (r, sensitive) !in Uncovered(g, seen[r := sensitive]);
  }

  /** Follows the entries of one object from first to last. */
  method FollowEntries(
    g: Graph, flag: Flag, r: Ref, sensitiveAncestor: bool
  ) returns (texts: set<string>, objects: seq<Pending>)
    requires r in g
    ensures forall text :: text in texts <==>
      exists k :: ValidStep(g, Step(r, k)) && EntryAt(g, Step(r, k)).value == Text(text)
        && (sensitiveAncestor || flag(EntryAt(g, Step(r, k))))
    ensures forall i :: 0 <= i < |objects| ==> FoundAt(g, flag, r, sensitiveAncestor, objects[i])
    ensures forall k :: ValidStep(g, Step(r, k)) && EntryAt(g, Step(r, k)).value.Object? ==>
      Waiting(objects, EntryAt(g, Step(r, k)).value.ref, sensitiveAncestor || flag(EntryAt(g, Step(r, k))))
  {
    texts, objects := {}, [];
    var entries := EntriesOf(g[r]);
    for n := 0 to |entries|
      invariant forall text :: text in texts <==>
        exists k :: 0 <= k < n && entries[k].value == Text(text) && (sensitiveAncestor || flag(entries[k]))
      invariant forall i :: 0 <= i < |objects| ==> FoundAt(g, flag, r, sensitiveAncestor, objects[i])
      invariant forall k :: 0 <= k < n && entries[k].value.Object? ==>
        Waiting(objects, entries[k].value.ref, sensitiveAncestor || flag(entries[k]))
    {
      var entry := entries[n];
      var sensitive := sensitiveAncestor || flag(entry);
      if sensitive && entry.value.Text? {
        texts := texts + {entry.value.text};
      }
      if entry.value.Object? {
        assert EntryAt(g, Step(r, n)) == entry;
        WaitingMore(objects, [Pending(entry.value, sensitive)]);
        objects := objects + [Pending(entry.value, sensitive)];
        assert objects[|objects| - 1].value == Object(entry.value.ref);
      }
    }
    forall text ensures text in texts <==>
      exists k :: ValidStep(g, Step(r, k)) && EntryAt(g, Step(r, k)).value == Text(text)
        && (sensitiveAncestor || flag(EntryAt(g, Step(r, k))))
    {
      if text in texts {
        var k :| 0 <= k < |entries| && entries[k].value == Text(text) && (sensitiveAncestor || flag(entries[k]));
        assert EntryAt(g, Step(r, k)) == entries[k];
      }
    }
  }

  /** Some entry of the object holds this value, at this sensitivity. */
  ghost predicate FoundAt(g: Graph, flag: Flag, r: Ref, sensitiveAncestor: bool, p: Pending) {
    exists k :: ValidStep(g, Step(r, k)) && EntryAt(g, Step(r, k)).value == p.value && p.value.Object?
      && p.sensitive == (sensitiveAncestor || flag(EntryAt(g, Step(r, k))))
  }

  lemma WaitingMore(pending: seq<Pending>, more: seq<Pending>)
    ensures forall r, b :: Waiting(pending, r, b) ==> Waiting(pending + more, r, b)
    ensures forall r, b :: Waiting(more, r, b) ==> Waiting(pending + more, r, b)
  {
    forall r, b | Waiting(pending, r, b) ensures Waiting(pending + more, r, b) {
      var i :| 0 <= i < |pending| && pending[i].value == Object(r) && (pending[i].sensitive || !b);
      assert (pending + more)[i] == pending[i];
    }
    forall r, b | Waiting(more, r, b) ensures Waiting(pending + more, r, b) {
      var i :| 0 <= i < |more| && more[i].value == Object(r) && (more[i].sensitive || !b);
      assert (pending + more)[|pending| + i] == more[i];
    }
  }

  lemma ReachedNext(g: Graph, flag: Flag, root: Ref, r: Ref, sensitive: bool, k: nat)
    requires Reached(g, flag, root, r, sensitive) && ValidStep(g, Step(r, k))
    ensures var e := EntryAt(g, Step(r, k));
      && (e.value.Object? ==> e.value.ref in g && Reached(g, flag, root, e.value.ref, sensitive || flag(e)))
      && (e.value.Text? && (sensitive || flag(e)) ==> Secret(g, flag, root, e.value.text))
  {
    var walk :| LeadsTo(g, flag, root, walk, r, sensitive);
    WalkExtends(g, flag, root, walk, r, sensitive, k);
    var longer, e := walk + [Step(r, k)], EntryAt(g, Step(r, k));
    hide Walk, Sensitive;
    assert longer[|longer| - 1] == Step(r, k);
    if e.value.Object? {
      assert LeadsTo(g, flag, root, longer, e.value.ref, sensitive || flag(e));
    }
  }

  lemma ObjectsSound(g: Graph, flag: Flag, root: Ref, r: Ref, sensitive: bool, objects: seq<Pending>)
    requires Reached(g, flag, root, r, sensitive)
    requires forall i :: 0 <= i < |objects| ==> FoundAt(g, flag, r, sensitive, objects[i])
    ensures PendingSound(g, flag, root, objects)
  {
    hide Reached;
    forall i | 0 <= i < |objects|
      ensures objects[i].value.Object? && objects[i].value.ref in g
        && Reached(g, flag, root, objects[i].value.ref, objects[i].sensitive)
    {
      var k :| ValidStep(g, Step(r, k)) && EntryAt(g, Step(r, k)).value == objects[i].value && objects[i].value.Object?
        && objects[i].sensitive == (sensitive || flag(EntryAt(g, Step(r, k))));
      ReachedNext(g, flag, root, r, sensitive, k);
    }
  }

  /** Dropping a pending entry that is covered already loses nothing. */
  lemma SkipKeepsComplete(g: Graph, flag: Flag, seen: Seen, pending: seq<Pending>, secrets: set<string>, p: Pending)
    requires Complete(g, flag, seen, pending + [p], secrets)
    requires p.value.Object? && Covered(seen, p.value.ref, p.sensitive)
    ensures Complete(g, flag, seen, pending, secrets)
  {}

  lemma CompleteAt(
    g: Graph, flag: Flag, seen: Seen, pending: seq<Pending>, secrets: set<string>, r: Ref, b: bool, k: nat
  )
    requires Complete(g, flag, seen, pending, secrets) && Covered(seen, r, b) && ValidStep(g, Step(r, k))
    ensures Followed(EntryAt(g, Step(r, k)), b || flag(EntryAt(g, Step(r, k))), seen, pending, secrets)
  {}

  lemma CompleteFrom(g: Graph, flag: Flag, seen: Seen, pending: seq<Pending>, secrets: set<string>)
    requires forall r, b, k :: Covered(seen, r, b) && ValidStep(g, Step(r, k)) ==>
      Followed(EntryAt(g, Step(r, k)), b || flag(EntryAt(g, Step(r, k))), seen, pending, secrets)
    ensures Complete(g, flag, seen, pending, secrets)
  {}

  lemma LastOrBefore(pending: seq<Pending>, p: Pending, r: Ref, b: bool)
    requires Waiting(pending + [p], r, b)
    ensures Waiting(pending, r, b) || (p.value == Object(r) && (p.sensitive || !b))
  {}

  lemma ExpandKeepsComplete(g: Graph, flag: Flag, seen: Seen, pending: seq<Pending>, secrets: set<string>,
                            r: Ref, sensitive: bool, texts: set<string>, objects: seq<Pending>)
    requires Complete(g, flag, seen, pending + [Pending(Object(r), sensitive)], secrets) && !Covered(seen, r, sensitive)
    requires forall k :: ValidStep(g, Step(r, k)) ==>
      Followed(EntryAt(g, Step(r, k)), sensitive || flag(EntryAt(g, Step(r, k))), map[], objects, texts)
    ensures Complete(g, flag, seen[r := sensitive], pending + objects, secrets + texts)
  {
    hide Complete;
    var p, seen1, pending1, secrets1 := Pending(Object(r), sensitive), seen[r := sensitive], pending + objects,
      secrets + texts;
    forall q, b, k | Covered(seen1, q, b) && ValidStep(g, Step(q, k))
      ensures Followed(EntryAt(g, Step(q, k)), b || flag(EntryAt(g, Step(q, k))), seen1, pending1, secrets1)
    {
      var e, s := EntryAt(g, Step(q, k)), b || flag(EntryAt(g, Step(q, k)));
      WaitingMore(pending, objects);
      if q == r {
        var s1 := sensitive || flag(e);
        assert Followed(e, s1, map[], objects, texts);
        if e.value.Object? { WaitingWeaker(pending1, e.value.ref, s1, s); }
      } else {
        CompleteAt(g, flag, seen, pending + [p], secrets, q, b, k);
        if e.value.Object? && Waiting(pending + [p], e.value.ref, s) { LastOrBefore(pending, p, e.value.ref, s); }
      }
    }
    CompleteFrom(g, flag, seen1, pending1, secrets1);
  }

  lemma WaitingWeaker(pending: seq<Pending>, r: Ref, strong: bool, weak: bool)
    requires Waiting(pending, r, strong) && (weak ==> strong)
    ensures Waiting(pending, r, weak)
  {}

  /** What holds before every turn of the loop. */
  ghost predicate Inv(
    g: Graph, flag: Flag, root: Ref, pending: seq<Pending>, seen: Seen, secrets: set<string>, expanded: seq<(Ref, bool)>
  ) {
    && PendingSound(g, flag, root, pending)
    && Complete(g, flag, seen, pending, secrets)
    && (Covered(seen, root, false) || Waiting(pending, root, false))
    && (forall text :: text in secrets ==> Secret(g, flag, root, text))
    && ExpandedOnce(expanded, seen)
  }

  /** Returns exactly the strings that a walk through a sensitive key ends at, and lists each object at most once
      for each sensitivity, whatever circles the value contains. */
  method CollectSensitiveStrings(
    g: Graph, flag: Flag, root: Value
  ) returns (secrets: set<string>, ghost expanded: seq<(Ref, bool)>)
    requires root.Object? ==> root.ref in g
    ensures !root.Object? ==> secrets == {}
    ensures root.Object? ==> forall text :: text in secrets <==> Secret(g, flag, root.ref, text)
    ensures forall i, j :: 0 <= i < j < |expanded| ==> expanded[i] != expanded[j]
  {
    secrets, expanded := {}, [];
    if !root.Object? { return; }
    var pending := [Pending(root, false)];
    var seen: Seen := map[];
    StartSound(g, flag, root.ref);
    while pending != []
      invariant Inv(g, flag, root.ref, pending, seen, secrets, expanded)
      decreases Uncovered(g, seen), |pending|
    {
      hide Inv, Waiting, Secret, Reached, ValidStep, EntryAt, Uncovered, FoundAt, Followed;
      var top, rest := pending[|pending| - 1], pending[..|pending| - 1];
      assert pending == rest + [top];
      TopIsReached(g, flag, root.ref, rest, top, seen, secrets, expanded);
      var r, sensitiveAncestor := top.value.ref, top.sensitive;
      pending := rest;
      if r in seen && (seen[r] || seen[r] == sensitiveAncestor) {
        SkipKeepsInv(g, flag, root.ref, rest, top, seen, secrets, expanded);
        continue;
      }
      var texts, objects := FollowEntries(g, flag, r, sensitiveAncestor);
      EntriesFollowed(g, flag, root.ref, r, sensitiveAncestor, texts, objects);
      ExpandKeepsInv(g, flag, root.ref, rest, top, seen, secrets, expanded, texts, objects);
      CoverMore(g, seen, r, sensitiveAncestor);
      seen := seen[r := sensitiveAncestor];
      expanded := expanded + [(r, sensitiveAncestor)];
      secrets := secrets + texts;
      pending := rest + objects;
    }
    AllFound(g, flag, root.ref, seen, secrets);
  }

  lemma TopIsReached(
    g: Graph, flag: Flag, root: Ref, rest: seq<Pending>, top: Pending, seen: Seen, secrets: set<string>,
    expanded: seq<(Ref, bool)>
  )
    requires Inv(g, flag, root, rest + [top], seen, secrets, expanded)
    ensures top.value.Object? && top.value.ref in g && Reached(g, flag, root, top.value.ref, top.sensitive)
  {
    hide Complete, Waiting, Secret, Reached;
    assert (rest + [top])[|rest|] == top;
  }

  lemma SkipKeepsInv(
    g: Graph, flag: Flag, root: Ref, rest: seq<Pending>, top: Pending, seen: Seen, secrets: set<string>,
    expanded: seq<(Ref, bool)>
  )
    requires Inv(g, flag, root, rest + [top], seen, secrets, expanded)
    requires top.value.Object? && Covered(seen, top.value.ref, top.sensitive)
    ensures Inv(g, flag, root, rest, seen, secrets, expanded)
  {
    hide Complete, Waiting, Secret, Reached;
    SkipKeepsComplete(g, flag, seen, rest, secrets, top);
    if Waiting(rest + [top], root, false) { LastOrBefore(rest, top, root, false); }
    assert forall i :: 0 <= i < |rest| ==> (rest + [top])[i] == rest[i];
  }

  lemma PendingSoundJoin(g: Graph, flag: Flag, root: Ref, rest: seq<Pending>, top: Pending, objects: seq<Pending>)
    requires PendingSound(g, flag, root, rest + [top]) && PendingSound(g, flag, root, objects)
    ensures PendingSound(g, flag, root, rest + objects)
  {
    hide Reached;
    var all := rest + objects;
    forall i | 0 <= i < |all|
      ensures all[i].value.Object? && all[i].value.ref in g
        && Reached(g, flag, root, all[i].value.ref, all[i].sensitive)
    {
      if i < |rest| { assert all[i] == (rest + [top])[i]; } else { assert all[i] == objects[i - |rest|]; }
    }
  }

  lemma ExpandedMore(expanded: seq<(Ref, bool)>, seen: Seen, r: Ref, sensitive: bool)
    requires ExpandedOnce(expanded, seen) && !Covered(seen, r, sensitive)
    ensures ExpandedOnce(expanded + [(r, sensitive)], seen[r := sensitive])
  {}

  lemma ExpandKeepsInv(
    g: Graph, flag: Flag, root: Ref, rest: seq<Pending>, top: Pending, seen: Seen, secrets: set<string>,
    expanded: seq<(Ref, bool)>, texts: set<string>, objects: seq<Pending>
  )
    requires Inv(g, flag, root, rest + [top], seen, secrets, expanded)
    requires top.value.Object? && !Covered(seen, top.value.ref, top.sensitive)
    requires forall k :: ValidStep(g, Step(top.value.ref, k)) ==>
      var e := EntryAt(g, Step(top.value.ref, k));
      Followed(e, top.sensitive || flag(e), map[], objects, texts)
    requires forall text :: text in texts ==> Secret(g, flag, root, text)
    requires forall i :: 0 <= i < |objects| ==> FoundAt(g, flag, top.value.ref, top.sensitive, objects[i])
    ensures var r := top.value.ref;
      Inv(g, flag, root, rest + objects, seen[r := top.sensitive], secrets + texts, expanded + [(r, top.sensitive)])
  {
    TopIsReached(g, flag, root, rest, top, seen, secrets, expanded);
    hide Complete, Waiting, Secret, Reached, PendingSound, ExpandedOnce, ValidStep, FoundAt, Followed;
    var r := top.value.ref;
    ObjectsSound(g, flag, root, r, top.sensitive, objects);
    PendingSoundJoin(g, flag, root, rest, top, objects);
    assert top == Pending(Object(r), top.sensitive);
    ExpandKeepsComplete(g, flag, seen, rest, secrets, r, top.sensitive, texts, objects);
    ExpandedMore(expanded, seen, r, top.sensitive);
    WaitingMore(rest, objects);
    if Waiting(rest + [top], root, false) { LastOrBefore(rest, top, root, false); }
  }

  lemma StartSound(g: Graph, flag: Flag, root: Ref)
    requires root in g
    ensures Inv(g, flag, root, [Pending(Object(root), false)], map[], {}, [])
  {
    assert LeadsTo(g, flag, root, [], root, false);
    var pending := [Pending(Object(root), false)];
    assert pending[0].value == Object(root);
  }

  lemma EntriesFollowed(
    g: Graph, flag: Flag, root: Ref, r: Ref, sensitive: bool, texts: set<string>, objects: seq<Pending>
  )
    requires r in g && Reached(g, flag, root, r, sensitive)
    requires forall text :: text in texts <==>
      exists k :: ValidStep(g, Step(r, k)) && EntryAt(g, Step(r, k)).value == Text(text)
        && (sensitive || flag(EntryAt(g, Step(r, k))))
    requires forall k :: ValidStep(g, Step(r, k)) && EntryAt(g, Step(r, k)).value.Object? ==>
      Waiting(objects, EntryAt(g, Step(r, k)).value.ref, sensitive || flag(EntryAt(g, Step(r, k))))
    ensures forall k :: ValidStep(g, Step(r, k)) ==>
      Followed(EntryAt(g, Step(r, k)), sensitive || flag(EntryAt(g, Step(r, k))), map[], objects, texts)
    ensures forall text :: text in texts ==> Secret(g, flag, root, text)
  {
    hide Reached, Secret, Waiting;
    forall text | text in texts ensures Secret(g, flag, root, text) {
      var k :| ValidStep(g, Step(r, k)) && EntryAt(g, Step(r, k)).value == Text(text)
        && (sensitive || flag(EntryAt(g, Step(r, k))));
      ReachedNext(g, flag, root, r, sensitive, k);
    }
  }

  /** With nothing pending, every walk has been followed to its end. */
  lemma {:induction false} WalkCovered(
    g: Graph, flag: Flag, root: Ref, seen: Seen, secrets: set<string>, walk: seq<Step>, r: Ref, b: bool
  )
    requires Complete(g, flag, seen, [], secrets) && Covered(seen, root, false)
    requires LeadsTo(g, flag, root, walk, r, b)
    ensures Covered(seen, r, b)
    decreases |walk|
  {
    if walk != [] {
      var n := |walk| - 1;
      var before := Sensitive(g, flag, walk[..n]);
      WalkShortens(g, flag, root, walk);
      WalkCovered(g, flag, root, seen, secrets, walk[..n], walk[n].ref, before);
      assert walk[n] == Step(walk[n].ref, walk[n].index);
      CompleteAt(g, flag, seen, [], secrets, walk[n].ref, before, walk[n].index);
      WalkExtends(g, flag, root, walk[..n], walk[n].ref, before, walk[n].index);
      assert walk == walk[..n] + [walk[n]];
    } else {
      assert !Sensitive(g, flag, walk);
    }
  }

  lemma EndFound(g: Graph, flag: Flag, root: Ref, seen: Seen, secrets: set<string>, walk: seq<Step>)
    requires Complete(g, flag, seen, [], secrets) && Covered(seen, root, false)
    requires walk != [] && Walk(g, root, walk) && Sensitive(g, flag, walk)
    ensures var last := EntryAt(g, walk[|walk| - 1]).value;
      last.Text? ==> last.text in secrets
  {
    var n := |walk| - 1;
    var before, r, k := Sensitive(g, flag, walk[..n]), walk[n].ref, walk[n].index;
    WalkShortens(g, flag, root, walk);
    assert walk == walk[..n] + [walk[n]] && walk[n] == Step(r, k);
    hide Walk, Sensitive, LeadsTo, Complete;
    WalkCovered(g, flag, root, seen, secrets, walk[..n], r, before);
    assert ValidStep(g, walk[n]) by { LastIsValid(g, root, walk); }
    WalkExtends(g, flag, root, walk[..n], r, before, k);
    CompleteAt(g, flag, seen, [], secrets, r, before, k);
  }

  lemma LastIsValid(g: Graph, root: Ref, walk: seq<Step>)
    requires walk != [] && Walk(g, root, walk)
    ensures ValidStep(g, walk[|walk| - 1])
  {}

  lemma AllFound(g: Graph, flag: Flag, root: Ref, seen: Seen, secrets: set<string>)
    requires Complete(g, flag, seen, [], secrets) && Covered(seen, root, false)
    ensures forall text :: Secret(g, flag, root, text) ==> text in secrets
  {
    hide Walk, Sensitive, Complete;
    forall text | Secret(g, flag, root, text) ensures text in secrets {
      var walk: seq<Step> :| walk != [] && Walk(g, root, walk) && Sensitive(g, flag, walk)
        && (LastIsValid(g, root, walk); EntryAt(g, walk[|walk| - 1]).value == Text(text));
      EndFound(g, flag, root, seen, secrets, walk);
    }
  }
}
