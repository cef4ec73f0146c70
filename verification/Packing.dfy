/** Packing retrieved snippets into a token budget. */
module Packing {
  import opened Text

  datatype Candidate = Candidate(
    path: string, start: int, end: int, text: string, revision: string, score: real, reason: string,
      semantic: Option<real>)

  /** What is known of the caller's world: which characters are ideographs, how a candidate is written down, which
      candidates are well formed, and which texts look like secrets. */
  datatype Env = Env(cjk: char -> bool, payload: Candidate -> string, valid: Candidate -> bool,
    sensitive: string -> bool)

  // ---------------------------------------------------------------- estimating tokens

  function Utf8Length(c: char): nat {
    if c as int < 0x80 then 1 else if c as int < 0x800 then 2 else if c as int < 0x10000 then 3 else 4
  }

  /** Ideographs, and bytes of everything else. */
  function Ideographs(env: Env, s: string): nat {
    if s == "" then 0 else Ideographs(env, s[1..]) + if env.cjk(s[0]) then 1 else 0
  }

  function Bytes(env: Env, s: string): nat {
    if s == "" then 0 else Bytes(env, s[1..]) + if env.cjk(s[0]) then 0 else Utf8Length(s[0])
  }

  function Estimate(env: Env, s: string): nat {
    Ideographs(env, s) + (Bytes(env, s) + 3) / 4
  }

  lemma {:induction false} MeasuresAdd(env: Env, s: string, t: string)
    ensures Ideographs(env, s + t) == Ideographs(env, s) + Ideographs(env, t)
    ensures Bytes(env, s + t) == Bytes(env, s) + Bytes(env, t)
  {
    if s == "" {
      assert s + t == t;
    } else {
      assert (s + t)[1..] == s[1..] + t && (s + t)[0] == s[0];
      MeasuresAdd(env, s[1..], t);
    }
  }

  /** Longer texts are not estimated lower. */
  lemma EstimateInserted(env: Env, s: string, more: string, t: string)
    ensures Estimate(env, s + t) <= Estimate(env, s + more + t)
  {
    MeasuresAdd(env, s, t);
    MeasuresAdd(env, s, more);
    MeasuresAdd(env, s + more, t);
  }

  // ---------------------------------------------------------------- rendering

  const HEADER := "<repository-context trust=\"untrusted\">\n"
  const FOOTER := "</repository-context>"

  function Lines(env: Env, pack: seq<Candidate>): string {
    if pack == [] then "" else Lines(env, pack[..|pack| - 1]) + env.payload(pack[|pack| - 1]) + "\n"
  }

  function Render(env: Env, pack: seq<Candidate>): string {
    if pack == [] then "" else HEADER + Lines(env, pack) + FOOTER
  }

  lemma RenderEnds(env: Env, pack: seq<Candidate>, c: Candidate)
    ensures Render(env, pack + [c]) == (HEADER + Lines(env, pack)) + (env.payload(c) + "\n" + FOOTER)
    ensures Lines(env, pack + [c]) == Lines(env, pack) + (env.payload(c) + "\n")
  {}

  lemma RenderOne(env: Env, pack: seq<Candidate>, x: Candidate, c: Candidate)
    ensures Estimate(env, Render(env, pack + [c])) <= Estimate(env, Render(env, pack + [x] + [c]))
  {
    RenderEnds(env, pack, c);
    RenderEnds(env, pack, x);
    RenderEnds(env, pack + [x], c);
    hide Estimate, Render, Lines;
    var lines, more, tail := Lines(env, pack), env.payload(x) + "\n", env.payload(c) + "\n" + FOOTER;
    assert HEADER + (lines + more) == (HEADER + lines) + more;
    EstimateInserted(env, HEADER + lines, more, tail);
  }

  /** Adding to a longer pack is not estimated lower. */
  lemma {:induction false} RenderGrows(env: Env, pack: seq<Candidate>, more: seq<Candidate>, c: Candidate)
    ensures Estimate(env, Render(env, pack + [c])) <= Estimate(env, Render(env, pack + more + [c]))
  {
    hide Estimate, Render;
    if more == [] {
      assert pack + more == pack;
    } else {
      var n, last := |more| - 1, more[|more| - 1];
      RenderGrows(env, pack, more[..n], c);
      RenderOne(env, pack + more[..n], last, c);
      assert pack + more == pack + more[..n] + [last];
    }
  }

  // ---------------------------------------------------------------- ranking

  /** Higher scores first, then by path, start line and text. */
  predicate Before(a: Candidate, b: Candidate) {
    a.score > b.score
    || (a.score == b.score
        && (Less(a.path, b.path)
            || (a.path == b.path && (a.start < b.start || (a.start == b.start && Less(a.text, b.text))))))
  }

  /** After everything that it does not come before, so that ties keep their order. */
  function Insert(c: Candidate, ranked: seq<Candidate>): seq<Candidate> {
    if ranked == [] || !Before(c, ranked[|ranked| - 1]) then ranked + [c]
    else Insert(c, ranked[..|ranked| - 1]) + [ranked[|ranked| - 1]]
  }

  function Ranked(s: seq<Candidate>): seq<Candidate> {
    if s == [] then [] else Insert(s[|s| - 1], Ranked(s[..|s| - 1]))
  }

  ghost predicate InOrder(s: seq<Candidate>) {
    forall i, j :: 0 <= i < j < |s| ==> !Before(s[j], s[i])
  }

  lemma NotBeforeTransitive(a: Candidate, b: Candidate, c: Candidate)
    requires !Before(b, a) && !Before(c, b)
    ensures !Before(c, a)
  {
    LessTotal(a.path, b.path);
    LessTotal(b.path, c.path);
    LessTotal(a.path, c.path);
    LessTotal(a.text, b.text);
    LessTotal(b.text, c.text);
    LessTotal(a.text, c.text);
    if Less(a.path, b.path) && Less(b.path, c.path) { LessTransitive(a.path, b.path, c.path); }
    if Less(a.text, b.text) && Less(b.text, c.text) { LessTransitive(a.text, b.text, c.text); }
  }

  lemma BeforeAsymmetric(a: Candidate, b: Candidate)
    ensures !(Before(a, b) && Before(b, a))
  {
    LessTotal(a.path, b.path);
    LessTotal(a.text, b.text);
  }

  lemma {:induction false} InsertLaws(c: Candidate, ranked: seq<Candidate>)
    requires InOrder(ranked)
    ensures InOrder(Insert(c, ranked)) && multiset(Insert(c, ranked)) == multiset(ranked) + multiset{c}
  {
    if ranked == [] {
    } else {
      var n, last := |ranked| - 1, ranked[|ranked| - 1];
      assert ranked == ranked[..n] + [last];
      if !Before(c, last) {
        forall i | 0 <= i < |ranked| ensures !Before(c, ranked[i]) {
          if i < n { NotBeforeTransitive(ranked[i], last, c); }
        }
      } else {
        InsertLaws(c, ranked[..n]);
        BeforeAsymmetric(c, last);
        var rest := Insert(c, ranked[..n]);
        forall x | x in rest ensures !Before(last, x) {
          assert x in multiset(rest);
          if x != c { assert x in multiset(ranked[..n]) && x in ranked[..n]; }
        }
      }
    }
  }

  lemma {:induction false} RankedLaws(s: seq<Candidate>)
    ensures InOrder(Ranked(s)) && multiset(Ranked(s)) == multiset(s)
  {
    if s != [] {
      RankedLaws(s[..|s| - 1]);
      InsertLaws(s[|s| - 1], Ranked(s[..|s| - 1]));
      assert s == s[..|s| - 1] + [s[|s| - 1]];
    }
  }

  // ---------------------------------------------------------------- sorting out the input

  predicate Leaks(env: Env, c: Candidate) {
    env.sensitive(c.path) || env.sensitive(c.text) || env.sensitive(c.revision) || env.sensitive(c.reason)
  }

  datatype Fate = Malformed | Sanitized | Kept

  function FateOf(env: Env, c: Candidate): Fate {
    if !env.valid(c) then Malformed else if Leaks(env, c) then Sanitized else Kept
  }

  function With(env: Env, s: seq<Candidate>, fate: Fate): seq<Candidate> {
    if s == [] then []
    else
      var front, c := s[..|s| - 1], s[|s| - 1];
      if FateOf(env, c) == fate then With(env, front, fate) + [c] else With(env, front, fate)
  }

  lemma AppendElements(s: seq<Candidate>, c: Candidate)
    ensures multiset(s + [c]) == multiset(s) + multiset{c}
  {}

  /** Adding an element to one part adds it to the whole. */
  lemma PartGrows(x: multiset<Candidate>, y: multiset<Candidate>, z: multiset<Candidate>, c: Candidate)
    ensures x + y + z + multiset{c} == (x + multiset{c}) + y + z
    ensures x + y + z + multiset{c} == x + (y + multiset{c}) + z
    ensures x + y + z + multiset{c} == x + y + (z + multiset{c})
  {}

  lemma {:induction false} FatesPartition(env: Env, s: seq<Candidate>)
    ensures multiset(s)
      == multiset(With(env, s, Malformed)) + multiset(With(env, s, Sanitized)) + multiset(With(env, s, Kept))
  {
    if s != [] {
      hide FateOf;
      var front, c := s[..|s| - 1], s[|s| - 1];
      FatesPartition(env, front);
      assert s == front + [c];
      AppendElements(front, c);
      AppendElements(With(env, front, FateOf(env, c)), c);
      PartGrows(multiset(With(env, front, Malformed)), multiset(With(env, front, Sanitized)),
        multiset(With(env, front, Kept)), c);
    }
  }

  // ---------------------------------------------------------------- greedy packing

  predicate SeenBefore(env: Env, s: seq<Candidate>, c: Candidate) {
    exists i :: 0 <= i < |s| && env.payload(s[i]) == env.payload(c)
  }

  /** What has been packed after going through the ranked candidates. */
  function Packed(env: Env, budget: nat, ranked: seq<Candidate>): seq<Candidate> {
    if ranked == [] then []
    else
      var front, c := ranked[..|ranked| - 1], ranked[|ranked| - 1];
      var pack := Packed(env, budget, front);
      if SeenBefore(env, front, c) || Estimate(env, Render(env, pack + [c])) > budget then pack else pack + [c]
  }

  function Dropped(env: Env, budget: nat, ranked: seq<Candidate>): seq<Candidate> {
    if ranked == [] then []
    else
      var front, c := ranked[..|ranked| - 1], ranked[|ranked| - 1];
      var dropped := Dropped(env, budget, front);
      if !SeenBefore(env, front, c) && Estimate(env, Render(env, Packed(env, budget, front) + [c])) > budget
      then dropped + [c]
      else dropped
  }

  function Duplicates(env: Env, ranked: seq<Candidate>): seq<Candidate> {
    if ranked == [] then []
    else
      var front, c := ranked[..|ranked| - 1], ranked[|ranked| - 1];
      if SeenBefore(env, front, c) then Duplicates(env, front) + [c] else Duplicates(env, front)
  }

  function Paths(s: seq<Candidate>): seq<string> {
    seq(|s|, i requires 0 <= i < |s| => s[i].path)
  }

  function Locators(env: Env, s: seq<Candidate>): seq<string> {
    seq(|s|, i requires 0 <= i < |s| => if env.sensitive(s[i].path) then "[omitted]" else s[i].path)
  }

  datatype PackResult = PackResult(
    pack: seq<Candidate>, dropped: seq<string>, invalid: seq<string>, sanitized: nat, tokens: nat, context: string)

  method PackCandidates(env: Env, candidates: seq<Candidate>, budget: nat) returns (r: PackResult)
    ensures var ranked := Ranked(With(env, candidates, Kept));
      && r.pack == Packed(env, budget, ranked)
      && r.dropped == Paths(Dropped(env, budget, ranked))
      && r.invalid == Locators(env, With(env, candidates, Malformed))
      && r.sanitized == |With(env, candidates, Sanitized)|
      && r.context == Render(env, r.pack) && r.tokens == Estimate(env, r.context) <= budget
  {
    hide Estimate, Render, Leaks;
    var invalid, sanitized, valid := [], 0, [];
    for n := 0 to |candidates|
      invariant invalid == Locators(env, With(env, candidates[..n], Malformed))
      invariant sanitized == |With(env, candidates[..n], Sanitized)|
      invariant valid == With(env, candidates[..n], Kept)
    {
      var candidate := candidates[n];
      assert candidates[..n + 1][..n] == candidates[..n];
      if !env.valid(candidate) {
        invalid := invalid + [if env.sensitive(candidate.path) then "[omitted]" else candidate.path];
        continue;
      }
      if Leaks(env, candidate) {
        sanitized := sanitized + 1;
        continue;
      }
      valid := valid + [candidate];
    }
    assert candidates[..|candidates|] == candidates;
    valid := Ranked(valid);
    var pack, dropped, context := Pack(env, valid, budget);
    r := PackResult(pack, dropped, invalid, sanitized, Estimate(env, context), context);
  }

  method Pack(
    env: Env, ranked: seq<Candidate>, budget: nat
  ) returns (pack: seq<Candidate>, dropped: seq<string>, context: string)
    ensures pack == Packed(env, budget, ranked) && dropped == Paths(Dropped(env, budget, ranked))
    ensures context == Render(env, pack) && Estimate(env, context) <= budget
  {
    pack, dropped, context := [], [], "";
    var seen: set<string> := {};
    NothingCosts(env);
    for n := 0 to |ranked|
      invariant pack == Packed(env, budget, ranked[..n]) && dropped == Paths(Dropped(env, budget, ranked[..n]))
      invariant context == Render(env, pack) && Estimate(env, context) <= budget
      invariant KnowsSeen(env, seen, ranked[..n])
    {
      hide Estimate, Render, SeenBefore, Packed, Dropped, KnowsSeen, Paths;
      var candidate := ranked[n];
      var key := env.payload(candidate);
      PackStep(env, budget, ranked, n);
      SeenMore(env, seen, ranked, n);
      if key in seen { continue; }
      seen := seen + {key};
      var longer := Render(env, pack + [candidate]);
      if Estimate(env, longer) > budget {
        PathsAppend(Dropped(env, budget, ranked[..n]), candidate);
        dropped := dropped + [candidate.path];
        continue;
      }
      pack, context := pack + [candidate], longer;
    }
    assert ranked[..|ranked|] == ranked;
  }

  ghost predicate KnowsSeen(env: Env, seen: set<string>, s: seq<Candidate>) {
    forall c :: env.payload(c) in seen <==> SeenBefore(env, s, c)
  }

  lemma PathsAppend(s: seq<Candidate>, c: Candidate)
    ensures Paths(s + [c]) == Paths(s) + [c.path]
  {}

  lemma PackStep(env: Env, budget: nat, ranked: seq<Candidate>, n: nat)
    requires n < |ranked|
    ensures var front, c := ranked[..n], ranked[n];
      var pack, dropped := Packed(env, budget, front), Dropped(env, budget, front);
      var fits, seen := Estimate(env, Render(env, pack + [c])) <= budget, SeenBefore(env, front, c);
      && Packed(env, budget, ranked[..n + 1]) == (if seen || !fits then pack else pack + [c])
      && Dropped(env, budget, ranked[..n + 1]) == (if seen || fits then dropped else dropped + [c])
      && Duplicates(env, ranked[..n + 1]) == (if seen then Duplicates(env, front) + [c] else Duplicates(env, front))
  {
    hide Estimate, Render, SeenBefore;
    assert ranked[..n + 1][..n] == ranked[..n];
  }

  lemma NothingCosts(env: Env)
    ensures Render(env, []) == "" && Estimate(env, "") == 0
    ensures KnowsSeen(env, {}, [])
  {}

  lemma SeenMore(env: Env, seen: set<string>, ranked: seq<Candidate>, n: nat)
    requires n < |ranked| && KnowsSeen(env, seen, ranked[..n])
    ensures KnowsSeen(env, seen + {env.payload(ranked[n])}, ranked[..n + 1])
    ensures env.payload(ranked[n]) in seen <==> SeenBefore(env, ranked[..n], ranked[n])
    ensures env.payload(ranked[n]) in seen ==> KnowsSeen(env, seen, ranked[..n + 1])
  {}

  // ---------------------------------------------------------------- what the pack is

  ghost predicate DistinctPayloads(env: Env, s: seq<Candidate>) {
    forall i, j :: 0 <= i < j < |s| ==> env.payload(s[i]) != env.payload(s[j])
  }

  lemma {:induction false} PackedMembers(env: Env, budget: nat, ranked: seq<Candidate>, c: Candidate)
    ensures c in Packed(env, budget, ranked) ==> c in ranked
  {
    hide Estimate, Render, SeenBefore;
    if ranked != [] {
      PackedMembers(env, budget, ranked[..|ranked| - 1], c);
      assert ranked == ranked[..|ranked| - 1] + [ranked[|ranked| - 1]];
    }
  }

  lemma {:induction false} PackedInOrder(env: Env, budget: nat, ranked: seq<Candidate>)
    requires InOrder(ranked)
    ensures InOrder(Packed(env, budget, ranked))
  {
    hide Estimate, Render, Before, SeenBefore;
    if ranked != [] {
      var n := |ranked| - 1;
      var pack := Packed(env, budget, ranked[..n]);
      PackedInOrder(env, budget, ranked[..n]);
      forall i | 0 <= i < |pack| ensures !Before(ranked[n], pack[i]) {
        PackedMembers(env, budget, ranked[..n], pack[i]);
        var j :| 0 <= j < n && ranked[..n][j] == pack[i];
        assert ranked[j] == pack[i];
      }
    }
  }

  lemma {:induction false} PackedDistinct(env: Env, budget: nat, ranked: seq<Candidate>)
    ensures DistinctPayloads(env, Packed(env, budget, ranked))
  {
    hide Estimate, Render;
    if ranked != [] {
      var front, c := ranked[..|ranked| - 1], ranked[|ranked| - 1];
      var pack := Packed(env, budget, front);
      PackedDistinct(env, budget, front);
      forall i | 0 <= i < |pack| ensures env.payload(pack[i]) == env.payload(c) ==> SeenBefore(env, front, c) {
        PackedMembers(env, budget, front, pack[i]);
        var j :| 0 <= j < |front| && front[j] == pack[i];
      }
    }
  }

  function Parts(env: Env, budget: nat, ranked: seq<Candidate>): multiset<Candidate> {
    multiset(Packed(env, budget, ranked)) + multiset(Dropped(env, budget, ranked)) + multiset(Duplicates(env, ranked))
  }

  lemma PartsStep(env: Env, budget: nat, ranked: seq<Candidate>, n: nat)
    requires n < |ranked|
    ensures Parts(env, budget, ranked[..n + 1]) == Parts(env, budget, ranked[..n]) + multiset{ranked[n]}
  {
    var front, c := ranked[..n], ranked[n];
    PackStep(env, budget, ranked, n);
    hide Estimate, Render, SeenBefore, Packed, Dropped, Duplicates;
    var pack, dropped, duplicates := Packed(env, budget, front), Dropped(env, budget, front), Duplicates(env, front);
    AppendElements(pack, c);
    AppendElements(dropped, c);
    AppendElements(duplicates, c);
    PartGrows(multiset(pack), multiset(dropped), multiset(duplicates), c);
  }

  lemma PrefixElements(s: seq<Candidate>, n: nat)
    requires n < |s|
    ensures multiset(s[..n + 1]) == multiset(s[..n]) + multiset{s[n]}
  {
    assert s[..n + 1] == s[..n] + [s[n]];
    AppendElements(s[..n], s[n]);
  }

  /** Every candidate is packed, dropped or a duplicate. */
  lemma {:induction false} PrefixPartition(env: Env, budget: nat, ranked: seq<Candidate>, n: nat)
    requires n <= |ranked|
    ensures multiset(ranked[..n]) == Parts(env, budget, ranked[..n])
  {
    hide Parts;
    if n > 0 {
      PrefixPartition(env, budget, ranked, n - 1);
      PartsStep(env, budget, ranked, n - 1);
      PrefixElements(ranked, n - 1);
    } else {
      NoParts(env, budget);
      assert ranked[..0] == [];
    }
  }

  lemma NoParts(env: Env, budget: nat)
    ensures Parts(env, budget, []) == multiset{}
  {}

  lemma RankedPartition(env: Env, budget: nat, ranked: seq<Candidate>)
    ensures multiset(ranked) == Parts(env, budget, ranked)
  {
    PrefixPartition(env, budget, ranked, |ranked|);
    assert ranked[..|ranked|] == ranked;
    hide Parts;
  }

  /** Every input is accounted for exactly once. */
  lemma EveryInputAccountedFor(env: Env, candidates: seq<Candidate>, budget: nat)
    ensures var ranked := Ranked(With(env, candidates, Kept));
      && multiset(candidates) == multiset(With(env, candidates, Malformed)) + multiset(With(env, candidates, Sanitized))
           + multiset(Packed(env, budget, ranked)) + multiset(Dropped(env, budget, ranked))
             + multiset(Duplicates(env, ranked))
      && InOrder(Packed(env, budget, ranked)) && DistinctPayloads(env, Packed(env, budget, ranked))
  {
    var kept := With(env, candidates, Kept);
    FatesPartition(env, candidates);
    RankedLaws(kept);
    RankedPartition(env, budget, Ranked(kept));
    PackedInOrder(env, budget, Ranked(kept));
    PackedDistinct(env, budget, Ranked(kept));
  }

  lemma {:induction false} PackExtends(env: Env, budget: nat, ranked: seq<Candidate>, n: nat)
    requires n <= |ranked|
    ensures Packed(env, budget, ranked[..n]) <= Packed(env, budget, ranked)
  {
    if n < |ranked| {
      hide Estimate, Render, SeenBefore;
      var front := ranked[..|ranked| - 1];
      PackExtends(env, budget, front, n);
      assert front[..n] == ranked[..n];
    } else {
      assert ranked[..n] == ranked;
    }
  }

  lemma {:induction false} DroppedDidNotFit(env: Env, budget: nat, ranked: seq<Candidate>, c: Candidate)
    requires c in Dropped(env, budget, ranked)
    ensures exists n :: 0 <= n < |ranked| && Estimate(env, Render(env, Packed(env, budget, ranked[..n]) + [c])) > budget
  {
    hide Estimate, Render, SeenBefore;
    var n := |ranked| - 1;
    var front := ranked[..n];
    if c in Dropped(env, budget, front) {
      DroppedDidNotFit(env, budget, front, c);
      var m :| 0 <= m < |front| && Estimate(env, Render(env, Packed(env, budget, front[..m]) + [c])) > budget;
      assert front[..m] == ranked[..m];
    } else {
      assert c == ranked[n];
    }
  }

  /** No dropped candidate could be appended to the final pack. */
  lemma NothingDroppedFits(env: Env, budget: nat, ranked: seq<Candidate>, c: Candidate)
    requires c in Dropped(env, budget, ranked)
    ensures Estimate(env, Render(env, Packed(env, budget, ranked) + [c])) > budget
  {
    hide Estimate, Render, Packed;
    DroppedDidNotFit(env, budget, ranked, c);
    var n :| 0 <= n < |ranked| && Estimate(env, Render(env, Packed(env, budget, ranked[..n]) + [c])) > budget;
    PackExtends(env, budget, ranked, n);
    var early, all := Packed(env, budget, ranked[..n]), Packed(env, budget, ranked);
    RenderGrows(env, early, all[|early|..], c);
    assert all == early + all[|early|..];
  }

  // ---------------------------------------------------------------- what is kept out, and what comes first

  lemma {:induction false} WithMembers(env: Env, s: seq<Candidate>, fate: Fate, c: Candidate)
    ensures c in With(env, s, fate) <==> c in s && FateOf(env, c) == fate
  {
    if s != [] {
      hide FateOf;
      WithMembers(env, s[..|s| - 1], fate, c);
      assert s == s[..|s| - 1] + [s[|s| - 1]];
    }
  }

  /** Some text of the candidate that would be shown looks like a secret. */
  predicate Risky(env: Env, c: Candidate) {
    exists text :: text in {c.path, c.text, c.revision, c.reason} && env.sensitive(text)
  }

  /** A candidate is rejected exactly when it is malformed, and left out without a trace exactly when it is well formed
      and shows something that looks like a secret; only the others are ranked. */
  lemma SortedOut(env: Env, s: seq<Candidate>, c: Candidate)
    ensures c in With(env, s, Malformed) <==> c in s && !env.valid(c)
    ensures c in With(env, s, Sanitized) <==> c in s && env.valid(c) && Risky(env, c)
    ensures c in With(env, s, Kept) <==> c in s && env.valid(c) && !Risky(env, c)
  {
    WithMembers(env, s, Malformed, c);
    WithMembers(env, s, Sanitized, c);
    WithMembers(env, s, Kept, c);
    assert c.path in {c.path, c.text, c.revision, c.reason} && c.text in {c.path, c.text, c.revision, c.reason};
    assert c.revision in {c.path, c.text, c.revision, c.reason} && c.reason in {c.path, c.text, c.revision, c.reason};
  }

  /** Whatever is packed came in, is well formed and shows nothing that looks like a secret. */
  lemma NothingRiskyPacked(env: Env, candidates: seq<Candidate>, budget: nat, c: Candidate)
    requires c in Packed(env, budget, Ranked(With(env, candidates, Kept)))
    ensures c in candidates && env.valid(c) && !Risky(env, c)
  {
    var kept := With(env, candidates, Kept);
    hide Packed, Risky, With;
    PackedMembers(env, budget, Ranked(kept), c);
    RankedLaws(kept);
    assert c in multiset(Ranked(kept));
    assert c in kept;
    SortedOut(env, candidates, c);
  }

  /** A rejected candidate is told by its path, unless that itself looks like a secret. */
  lemma LocatorsHide(env: Env, s: seq<Candidate>, i: nat)
    requires i < |s|
    ensures |Locators(env, s)| == |s|
    ensures Locators(env, s)[i] == s[i].path <==> !env.sensitive(s[i].path) || s[i].path == "[omitted]"
    ensures !env.sensitive("[omitted]") ==> !env.sensitive(Locators(env, s)[i])
  {}

  /** Better scores come first; equal ones by path, then line, then text. */
  lemma BetterFirst(s: seq<Candidate>, i: nat, j: nat)
    requires i < j < |Ranked(s)|
    ensures var a, b := Ranked(s)[i], Ranked(s)[j];
      && a.score >= b.score
      && (a.score == b.score ==> !Less(b.path, a.path))
      && (a.score == b.score && a.path == b.path ==> a.start <= b.start)
      && (a.score == b.score && a.path == b.path && a.start == b.start ==> !Less(b.text, a.text))
  {
    RankedLaws(s);
    hide Less, Ranked;
  }

  /** A candidate is a duplicate only of an earlier one that would be written down alike. */
  lemma {:induction false} DuplicatesRepeat(env: Env, ranked: seq<Candidate>, c: Candidate)
    requires c in Duplicates(env, ranked)
    ensures exists i, j :: 0 <= i < j < |ranked| && ranked[j] == c && env.payload(ranked[i]) == env.payload(c)
  {
    var n := |ranked| - 1;
    var front := ranked[..n];
    if c in Duplicates(env, front) {
      DuplicatesRepeat(env, front, c);
      var i, j :| 0 <= i < j < |front| && front[j] == c && env.payload(front[i]) == env.payload(c);
      assert ranked[j] == c && ranked[i] == front[i];
    } else {
      assert c == ranked[n] && SeenBefore(env, front, c);
      var i :| 0 <= i < |front| && env.payload(front[i]) == env.payload(c);
      assert ranked[i] == front[i];
    }
  }

  // ---------------------------------------------------------------- what the estimate is

  predicate Ascii(env: Env, s: string) { forall i :: 0 <= i < |s| ==> s[i] as int < 0x80 && !env.cjk(s[i]) }

  predicate AllIdeographs(env: Env, s: string) { forall i :: 0 <= i < |s| ==> env.cjk(s[i]) }

  lemma {:induction false} PlainMeasures(env: Env, s: string)
    ensures Ascii(env, s) ==> Ideographs(env, s) == 0 && Bytes(env, s) == |s|
    ensures AllIdeographs(env, s) ==> Ideographs(env, s) == |s| && Bytes(env, s) == 0
    ensures |s| <= Ideographs(env, s) + Bytes(env, s) <= 4 * |s|
  {
    if s != "" {
      PlainMeasures(env, s[1..]);
      assert Ascii(env, s) ==> Ascii(env, s[1..]);
      assert AllIdeographs(env, s) ==> AllIdeographs(env, s[1..]);
    }
  }

  /** Plain text counts one token for every four characters begun, ideographs count one each, and a mixture never more
      than its parts together and at most one less. */
  lemma EstimateIs(env: Env, s: string, t: string)
    ensures Ascii(env, s) ==> |s| <= 4 * Estimate(env, s) < |s| + 4
    ensures AllIdeographs(env, s) ==> Estimate(env, s) == |s|
    ensures Estimate(env, s + t) <= Estimate(env, s) + Estimate(env, t) <= Estimate(env, s + t) + 1
    ensures |s| <= 4 * Estimate(env, s)
  {
    PlainMeasures(env, s);
    MeasuresAdd(env, s, t);
  }

  /** What one to four bytes can encode: seven bits alone, then six for each further byte and the rest of the first. */
  const EncodableBelow := [0x80, 0x800, 0x10000, 0x200000]

  /** A character takes the fewest bytes that can encode it. */
  lemma FewestBytes(c: char)
    ensures 1 <= Utf8Length(c) <= 4
    ensures c as int < EncodableBelow[Utf8Length(c) - 1]
    ensures Utf8Length(c) > 1 ==> c as int >= EncodableBelow[Utf8Length(c) - 2]
  {}
}
