/** Artifact registries as values: merging sources, redacting, and restoring private paths. */
module Artifacts {
  import opened Text

  datatype FieldValue = Str(text: string) | Num(value: int)

  /** `fields` holds what the record lists; None is a field listed with no value. */
  datatype Artifact = Artifact(producer: string, id: string, fields: map<string, Option<FieldValue>>)

  type ArtifactKey = (string, string)

  function KeyOf(a: Artifact): ArtifactKey {
    (a.producer, a.id)
  }

  function Field(a: Artifact, name: string): Option<FieldValue> {
    if name in a.fields then a.fields[name] else None
  }

  function PathOf(a: Artifact): Option<string> {
    match Field(a, "path")
    case Some(Str(p)) => Some(p)
    case _ => None
  }

  function WithPath(a: Artifact, path: string): Artifact {
    a.(fields := a.fields["path" := Some(Str(path))])
  }

  function Defined(a: Artifact): Artifact {
    a.(fields := map k | k in a.fields && a.fields[k].Some? :: a.fields[k])
  }

  ghost predicate UniqueKeys(artifacts: seq<Artifact>) {
    forall i, j :: 0 <= i < j < |artifacts| ==> KeyOf(artifacts[i]) != KeyOf(artifacts[j])
  }

  // ================================================================ merging

  /** The first artifact with the key, overridden by each later one. */
  function Combined(artifacts: seq<Artifact>, key: ArtifactKey): Option<Artifact> {
    if artifacts == [] then None
    else
      var last := artifacts[|artifacts| - 1];
      var before := Combined(artifacts[..|artifacts| - 1], key);
      if KeyOf(last) != key then before
      else if before.None? then Some(last)
      else Some(Artifact(last.producer, last.id, before.value.fields + last.fields))
  }

  /** The keys in the order in which they first occur. */
  function KeyOrder(artifacts: seq<Artifact>): seq<ArtifactKey> {
    if artifacts == [] then []
    else
      var before := KeyOrder(artifacts[..|artifacts| - 1]);
      var key := KeyOf(artifacts[|artifacts| - 1]);
      if key in before then before else before + [key]
  }

  ghost predicate IsMerge(artifacts: seq<Artifact>, merged: seq<Artifact>) {
    && |merged| == |KeyOrder(artifacts)|
    && (forall i :: 0 <= i < |merged| ==>
          KeyOf(merged[i]) == KeyOrder(artifacts)[i] && Combined(artifacts, KeyOrder(artifacts)[i]) == Some(merged[i]))
  }

  lemma {:induction false} KeyOrderDistinct(artifacts: seq<Artifact>)
    ensures forall i, j :: 0 <= i < j < |KeyOrder(artifacts)| ==> KeyOrder(artifacts)[i] != KeyOrder(artifacts)[j]
  {
    if artifacts != [] { KeyOrderDistinct(artifacts[..|artifacts| - 1]); }
  }

  lemma {:induction false} KeyOrderMember(artifacts: seq<Artifact>, key: ArtifactKey)
    ensures key in KeyOrder(artifacts) <==> Combined(artifacts, key).Some?
    ensures key in KeyOrder(artifacts) <==> exists i :: 0 <= i < |artifacts| && KeyOf(artifacts[i]) == key
  {
    if artifacts != [] {
      var front := artifacts[..|artifacts| - 1];
      KeyOrderMember(front, key);
      if i :| 0 <= i < |artifacts| && KeyOf(artifacts[i]) == key {
        assert i < |front| ==> KeyOf(front[i]) == key;
      }
      if key in KeyOrder(front) {
        var i :| 0 <= i < |front| && KeyOf(front[i]) == key;
        assert KeyOf(artifacts[i]) == key;
      } else if KeyOf(artifacts[|artifacts| - 1]) == key {
        assert key in KeyOrder(artifacts);
      }
    }
  }

  /** Merging distinct artifacts changes nothing. */
  lemma {:induction false} MergeOfDistinct(artifacts: seq<Artifact>, merged: seq<Artifact>)
    requires UniqueKeys(artifacts) && IsMerge(artifacts, merged)
    ensures merged == artifacts
  {
    forall i | 0 <= i < |artifacts| ensures |KeyOrder(artifacts)| == |artifacts|
      && KeyOrder(artifacts)[i] == KeyOf(artifacts[i]) && Combined(artifacts, KeyOf(artifacts[i])) == Some(artifacts[i])
    {
      DistinctOrder(artifacts, i);
    }
    assert artifacts == [] ==> KeyOrder(artifacts) == [];
  }

  lemma {:induction false} DistinctOrder(artifacts: seq<Artifact>, i: nat)
    requires UniqueKeys(artifacts) && i < |artifacts|
    ensures |KeyOrder(artifacts)| == |artifacts|
    ensures KeyOrder(artifacts)[i] == KeyOf(artifacts[i])
    ensures Combined(artifacts, KeyOf(artifacts[i])) == Some(artifacts[i])
  {
    var front := artifacts[..|artifacts| - 1];
    var last := artifacts[|artifacts| - 1];
    if front != [] { DistinctOrder(front, if i < |front| then i else 0); }
    KeyOrderMember(front, KeyOf(last));
    assert KeyOf(last) !in KeyOrder(front);
    KeyOrderMember(front, KeyOf(last));
  }

  lemma MergeStep(artifacts: seq<Artifact>, n: nat, merged: seq<Artifact>)
    requires n < |artifacts| && IsMerge(artifacts[..n], merged)
    ensures var a := artifacts[n];
      var keys := KeyOrder(artifacts[..n]);
      (KeyOf(a) !in keys ==> IsMerge(artifacts[..n + 1], merged + [a]))
      && (forall e :: 0 <= e < |merged| && keys[e] == KeyOf(a) ==>
            IsMerge(artifacts[..n + 1], merged[e := Artifact(a.producer, a.id, merged[e].fields + a.fields)]))
  {
    var a := artifacts[n];
    var upto := artifacts[..n + 1];
    assert upto[..|upto| - 1] == artifacts[..n];
    KeyOrderDistinct(artifacts[..n]);
    KeyOrderMember(artifacts[..n], KeyOf(a));
  }

  /** One artifact per key, in order of first occurrence, later sources overriding earlier ones field by field. */
  method MergeArtifacts(artifacts: seq<Artifact>) returns (merged: seq<Artifact>)
    ensures IsMerge(artifacts, merged)
  {
    var indexes: map<ArtifactKey, nat> := map[];
    merged := [];
    for n := 0 to |artifacts|
      invariant IsMerge(artifacts[..n], merged)
      invariant forall k :: k in indexes <==> k in KeyOrder(artifacts[..n])
      invariant forall k :: k in indexes ==> indexes[k] < |merged| && KeyOrder(artifacts[..n])[indexes[k]] == k
    {
      var artifact := artifacts[n];
      var key := KeyOf(artifact);
      MergeStep(artifacts, n, merged);
      assert artifacts[..n + 1][..n] == artifacts[..n];
      if key !in indexes {
        indexes := indexes[key := |merged|];
        merged := merged + [artifact];
      } else {
        var existing := indexes[key];
        var fields := merged[existing].fields + artifact.fields;
        merged := merged[existing := Artifact(artifact.producer, artifact.id, fields)];
      }
    }
    assert artifacts[..|artifacts|] == artifacts;
  }

  function DefinedAll(artifacts: seq<Artifact>): (r: seq<Artifact>)
    ensures |r| == |artifacts|
  {
    seq(|artifacts|, i requires 0 <= i < |artifacts| => Defined(artifacts[i]))
  }

  /** Registry entries first, then the event projection; fields without a value never override. */
  method ReconcileArtifactSources(registry: seq<Artifact>, eventProjection: seq<Artifact>)
    returns (reconciled: seq<Artifact>)
    ensures IsMerge(DefinedAll(registry + eventProjection), reconciled)
  {
    ghost var all := DefinedAll(registry + eventProjection);
    var indexes: map<ArtifactKey, nat> := map[];
    reconciled := [];
    for n := 0 to |registry| + |eventProjection|
      invariant IsMerge(all[..n], reconciled)
      invariant forall k :: k in indexes <==> k in KeyOrder(all[..n])
      invariant forall k :: k in indexes ==> indexes[k] < |reconciled| && KeyOrder(all[..n])[indexes[k]] == k
    {
      var artifact := if n < |registry| then registry[n] else eventProjection[n - |registry|];
      var definedFields := Defined(artifact);
      var key := KeyOf(artifact);
      MergeStep(all, n, reconciled);
      assert all[..n + 1][..n] == all[..n];
      if key !in indexes {
        indexes := indexes[key := |reconciled|];
        reconciled := reconciled + [definedFields];
      } else {
        var existing := indexes[key];
        reconciled := reconciled[existing :=
          Artifact(artifact.producer, artifact.id, reconciled[existing].fields + definedFields.fields)];
      }
    }
    assert all[..|all|] == all;
  }

  /** What a field of a merged artifact holds: the value of the last source of its key that lists the field. */
  ghost predicate LastListed(artifacts: seq<Artifact>, key: ArtifactKey, name: string, i: int) {
    && 0 <= i < |artifacts| && KeyOf(artifacts[i]) == key && name in artifacts[i].fields
    && forall j :: i < j < |artifacts| && KeyOf(artifacts[j]) == key ==> name !in artifacts[j].fields
  }

  lemma {:induction false} CombinedField(artifacts: seq<Artifact>, key: ArtifactKey, name: string)
    requires Combined(artifacts, key).Some?
    ensures name in Combined(artifacts, key).value.fields <==> exists i :: LastListed(artifacts, key, name, i)
    ensures forall i :: LastListed(artifacts, key, name, i) ==>
              name in Combined(artifacts, key).value.fields
              && Combined(artifacts, key).value.fields[name] == artifacts[i].fields[name]
  {
    var front := artifacts[..|artifacts| - 1];
    var last := artifacts[|artifacts| - 1];
    if KeyOf(last) == key && name in last.fields {
      assert LastListed(artifacts, key, name, |artifacts| - 1);
    } else {
      assert forall i :: LastListed(artifacts, key, name, i) <==> LastListed(front, key, name, i);
      if Combined(front, key).Some? {
        CombinedField(front, key, name);
      } else {
        KeyOrderMember(front, key);
        assert forall i :: !LastListed(front, key, name, i);
      }
    }
  }
}
