/** What one registry write stores, what a read restores from it, and what survives from write to write. */
module RegistryWrites {
  import opened Text
  import opened Artifacts

  /** The digest of an artifact's materialization; sha256 is taken to be injective, so the digest is its input. */
  datatype Materialization = Materialization(path: Option<FieldValue>, metadata: seq<Option<FieldValue>>)

  function Metadata(a: Artifact): seq<Option<FieldValue>> {
    [Field(a, "sha256"), Field(a, "size"), Field(a, "stageId"), Field(a, "attempt"), Field(a, "createdByRunId")]
  }

  function MaterializationOf(a: Artifact): Materialization {
    Materialization(Field(a, "path"), Metadata(a))
  }

  datatype PrivatePath = PrivatePath(
    producer: string, id: string, path: string, publicPath: string, materialization: Materialization)

  function EntryKey(e: PrivatePath): ArtifactKey {
    (e.producer, e.id)
  }

  /** The public artifacts together with the private entries and historical paths bound to them. */
  datatype Registry = Registry(artifacts: seq<Artifact>, entries: seq<PrivatePath>, historical: set<string>)

  const NoRegistry := Registry([], [], {})

  function RawPaths(r: Registry): set<string> {
    (set i | 0 <= i < |r.entries| :: r.entries[i].path) + r.historical
  }

  // ---------------------------------------------------------------- restoring

  function FindArtifact(artifacts: seq<Artifact>, key: ArtifactKey): (r: Option<Artifact>)
    ensures r.None? <==> forall i :: 0 <= i < |artifacts| ==> KeyOf(artifacts[i]) != key
    ensures r.Some? ==> r.value in artifacts && KeyOf(r.value) == key
  {
    if artifacts == [] then None
    else if KeyOf(artifacts[0]) == key then Some(artifacts[0])
    else FindArtifact(artifacts[1..], key)
  }

  function FindEntry(entries: seq<PrivatePath>, key: ArtifactKey): (r: Option<PrivatePath>)
    ensures r.None? <==> forall i :: 0 <= i < |entries| ==> EntryKey(entries[i]) != key
    ensures r.Some? ==> r.value in entries && EntryKey(r.value) == key
  {
    if entries == [] then None
    else if EntryKey(entries[0]) == key then Some(entries[0])
    else FindEntry(entries[1..], key)
  }

  ghost predicate UniqueEntries(entries: seq<PrivatePath>) {
    forall i, j :: 0 <= i < j < |entries| ==> EntryKey(entries[i]) != EntryKey(entries[j])
  }

  predicate EntryMatches(e: PrivatePath, a: Artifact) {
    PathOf(a) == Some(e.publicPath) && e.materialization == MaterializationOf(a)
  }

  /** A read accepts the pair: no duplicate identity, and every entry of a listed artifact is bound to it. */
  ghost predicate Accepted(r: Registry) {
    && UniqueKeys(r.artifacts) && UniqueEntries(r.entries)
    && (forall i, j :: 0 <= i < |r.entries| && 0 <= j < |r.artifacts| ==>
          EntryKey(r.entries[i]) == KeyOf(r.artifacts[j]) ==> EntryMatches(r.entries[i], r.artifacts[j]))
    && (forall i :: 0 <= i < |r.entries| ==> r.entries[i].path != "")
  }

  /** The entry overlaid on an artifact: that of its key, when the key is public and the materialization agrees. */
  function Restore(r: Registry, a: Artifact): Artifact {
    var e := FindEntry(r.entries, KeyOf(a));
    if e.Some? && FindArtifact(r.artifacts, KeyOf(a)).Some? && e.value.materialization == MaterializationOf(a) then
      WithPath(a, e.value.path)
    else a
  }

  function Restored(r: Registry): (artifacts: seq<Artifact>)
    ensures |artifacts| == |r.artifacts|
  {
    seq(|r.artifacts|, i requires 0 <= i < |r.artifacts| => Restore(r, r.artifacts[i]))
  }

  // ---------------------------------------------------------------- writing

  function RedactField(name: string, v: Option<FieldValue>, text: string -> string): Option<FieldValue> {
    if name != "sha256" && v.Some? && v.value.Str? then Some(Str(text(v.value.text))) else v
  }

  function Redact(a: Artifact, text: string -> string): Artifact {
    Artifact(text(a.producer), text(a.id), map k | k in a.fields :: RedactField(k, a.fields[k], text))
  }

  /** The stored form of one input artifact. */
  function PublicForm(existing: Registry, a: Artifact, text: string -> string): Artifact {
    var redacted := Redact(a, text);
    var previous := FindEntry(existing.entries, KeyOf(redacted));
    if previous.Some? && (PathOf(a) == Some(previous.value.path) || PathOf(a) == Some(previous.value.publicPath)) then
      WithPath(redacted, text(previous.value.publicPath))
    else redacted
  }

  /** The private entry of one input artifact, if it has one. */
  function EntryFor(existing: Registry, a: Artifact, redacted: Artifact): Option<PrivatePath> {
    if PathOf(a).None? || PathOf(a).value == "" || PathOf(redacted).None? || PathOf(redacted).value == "" then None
    else
      var candidate := PrivatePath(redacted.producer, redacted.id, PathOf(a).value, PathOf(redacted).value,
                                   MaterializationOf(redacted));
      var previous := FindEntry(existing.entries, EntryKey(candidate));
      var before := FindArtifact(existing.artifacts, EntryKey(candidate));
      if previous.Some? && before.Some? && PathOf(before.value) == Some(candidate.path)
         && candidate.path != previous.value.path then
        if previous.value.materialization == MaterializationOf(before.value)
           && Metadata(redacted) == Metadata(before.value) then
          Some(candidate.(path := previous.value.path))
        else None
      else Some(candidate)
  }

  function Collect<T>(options: seq<Option<T>>): seq<T> {
    if options == [] then []
    else Collect(options[..|options| - 1]) +
         (if options[|options| - 1].Some? then [options[|options| - 1].value] else [])
  }

  function PublicForms(existing: Registry, merged: seq<Artifact>, text: string -> string): (r: seq<Artifact>)
    ensures |r| == |merged|
  {
    seq(|merged|, i requires 0 <= i < |merged| => PublicForm(existing, merged[i], text))
  }

  function EntriesFor(existing: Registry, merged: seq<Artifact>, redacted: seq<Artifact>): (r: seq<Option<PrivatePath>>)
    requires |redacted| == |merged|
    ensures |r| == |merged|
  {
    seq(|merged|, i requires 0 <= i < |merged| => EntryFor(existing, merged[i], redacted[i]))
  }

  /** The outcome of a write of already merged artifacts; it throws when redaction makes two identities equal. */
  ghost function Write(existing: Registry, merged: seq<Artifact>, text: string -> string): Option<Registry> {
    var redacted := PublicForms(existing, merged, text);
    if !UniqueKeys(redacted) then None
    else
      var entries := Collect(EntriesFor(existing, merged, redacted));
      var current := set i | 0 <= i < |entries| :: entries[i].path;
      // undefined fields do not survive serialisation
      Some(Registry(DefinedAll(redacted), entries, RawPaths(existing) - current))
  }

  // ================================================================ results

  lemma {:induction false} CollectMembers<T>(options: seq<Option<T>>, x: T)
    ensures x in Collect(options) <==> exists i :: 0 <= i < |options| && options[i] == Some(x)
  {
    if options != [] {
      var front := options[..|options| - 1];
      CollectMembers(front, x);
      if i :| 0 <= i < |options| && options[i] == Some(x) {
        assert i < |front| ==> front[i] == Some(x);
      }
      if i :| 0 <= i < |front| && front[i] == Some(x) {
        assert options[i] == Some(x);
      }
    }
  }

  /** No write forgets a raw path: it stays current or becomes historical. */
  lemma NoRawPathForgotten(existing: Registry, merged: seq<Artifact>, text: string -> string)
    requires Write(existing, merged, text).Some?
    ensures RawPaths(existing) <= RawPaths(Write(existing, merged, text).value)
  {}

  lemma DefinedKeeps(a: Artifact)
    ensures KeyOf(Defined(a)) == KeyOf(a) && PathOf(Defined(a)) == PathOf(a)
    ensures MaterializationOf(Defined(a)) == MaterializationOf(a) && Metadata(Defined(a)) == Metadata(a)
  {
    assert forall n :: Field(Defined(a), n) == Field(a, n);
  }

  lemma EntryForBound(existing: Registry, a: Artifact, redacted: Artifact)
    requires EntryFor(existing, a, redacted).Some?
    requires forall i :: 0 <= i < |existing.entries| ==> existing.entries[i].path != ""
    ensures var e := EntryFor(existing, a, redacted).value;
            EntryKey(e) == KeyOf(redacted) && EntryMatches(e, redacted) && e.path != ""
  {}

  lemma {:induction false} CollectUniqueEntries(options: seq<Option<PrivatePath>>, redacted: seq<Artifact>)
    requires |options| == |redacted| && UniqueKeys(redacted)
    requires forall i :: 0 <= i < |options| && options[i].Some? ==> EntryKey(options[i].value) == KeyOf(redacted[i])
    ensures UniqueEntries(Collect(options))
  {
    if options != [] {
      var n := |options| - 1;
      CollectUniqueEntries(options[..n], redacted[..n]);
      if options[n].Some? {
        var front := Collect(options[..n]);
        forall i | 0 <= i < |front| ensures EntryKey(front[i]) != EntryKey(options[n].value) {
          CollectMembers(options[..n], front[i]);
          var k :| 0 <= k < n && options[..n][k] == Some(front[i]);
          assert KeyOf(redacted[k]) != KeyOf(redacted[n]);
        }
      }
    }
  }

  /** Whatever a write stores is accepted by every later read. */
  lemma WrittenIsAccepted(existing: Registry, merged: seq<Artifact>, text: string -> string)
    requires Write(existing, merged, text).Some?
    requires forall i :: 0 <= i < |existing.entries| ==> existing.entries[i].path != ""
    ensures Accepted(Write(existing, merged, text).value)
  {
    var after := Write(existing, merged, text).value;
    var redacted := PublicForms(existing, merged, text);
    var options := EntriesFor(existing, merged, redacted);
    forall i | 0 <= i < |options| && options[i].Some?
      ensures EntryKey(options[i].value) == KeyOf(redacted[i]) && EntryMatches(options[i].value, redacted[i])
        && options[i].value.path != ""
    {
      EntryForBound(existing, merged[i], redacted[i]);
    }
    CollectUniqueEntries(options, redacted);
    forall i | 0 <= i < |redacted| ensures KeyOf(after.artifacts[i]) == KeyOf(redacted[i]) {
      DefinedKeeps(redacted[i]);
    }
    forall i | 0 <= i < |after.entries|
      ensures after.entries[i].path != ""
      ensures forall j :: 0 <= j < |after.artifacts| && EntryKey(after.entries[i]) == KeyOf(after.artifacts[j]) ==>
                EntryMatches(after.entries[i], after.artifacts[j])
    {
      CollectMembers(options, after.entries[i]);
      var k :| 0 <= k < |options| && options[k] == Some(after.entries[i]);
      forall j | 0 <= j < |after.artifacts| && EntryKey(after.entries[i]) == KeyOf(after.artifacts[j])
        ensures EntryMatches(after.entries[i], after.artifacts[j])
      {
        assert KeyOf(redacted[j]) == KeyOf(redacted[k]);
        assert j == k;
        DefinedKeeps(redacted[j]);
      }
    }
  }

  /** The public artifacts are what redaction leaves alone, with nothing undefined. */
  ghost predicate Settled(r: Registry, text: string -> string) {
    && (forall i :: 0 <= i < |r.artifacts| ==>
          Redact(r.artifacts[i], text) == r.artifacts[i] && Defined(r.artifacts[i]) == r.artifacts[i])
    && (forall i :: 0 <= i < |r.entries| ==> FindArtifact(r.artifacts, EntryKey(r.entries[i])).Some?)
    && (forall i :: 0 <= i < |r.entries| ==> r.entries[i].publicPath != "")
  }

  lemma RedactTwice(a: Artifact, text: string -> string)
    requires forall s :: text(text(s)) == text(s)
    ensures Redact(Redact(a, text), text) == Redact(a, text)
  {}

  /** With an idempotent redactor a write leaves a settled registry. */
  lemma WrittenIsSettled(existing: Registry, merged: seq<Artifact>, text: string -> string)
    requires Write(existing, merged, text).Some?
    requires forall i :: 0 <= i < |existing.entries| ==> existing.entries[i].path != ""
    requires forall s :: text(text(s)) == text(s)
    ensures Settled(Write(existing, merged, text).value, text)
  {
    var after := Write(existing, merged, text).value;
    var redacted := PublicForms(existing, merged, text);
    forall i | 0 <= i < |redacted|
      ensures Redact(after.artifacts[i], text) == after.artifacts[i]
        && Defined(after.artifacts[i]) == after.artifacts[i]
    {
      RedactTwice(merged[i], text);
      assert Redact(redacted[i], text) == redacted[i];
      assert Redact(Defined(redacted[i]), text) == Defined(Redact(redacted[i], text));
    }
    var options := EntriesFor(existing, merged, redacted);
    forall i | 0 <= i < |after.entries|
      ensures FindArtifact(after.artifacts, EntryKey(after.entries[i])).Some? && after.entries[i].publicPath != ""
    {
      CollectMembers(options, after.entries[i]);
      var k :| 0 <= k < |options| && options[k] == Some(after.entries[i]);
      EntryForBound(existing, merged[k], redacted[k]);
      assert KeyOf(after.artifacts[k]) == EntryKey(after.entries[i]);
    }
  }

  // ---------------------------------------------------------------- writing a view back

  /** A view of a registry: every artifact as stored, or with its private path restored. */
  ghost predicate IsView(r: Registry, view: seq<Artifact>) {
    && |view| == |r.artifacts|
    && forall i :: 0 <= i < |view| ==> view[i] == r.artifacts[i] || view[i] == Restore(r, r.artifacts[i])
  }

  lemma AcceptedEntry(r: Registry, i: nat)
    requires Accepted(r) && i < |r.artifacts|
    ensures FindArtifact(r.artifacts, KeyOf(r.artifacts[i])) == Some(r.artifacts[i])
    ensures var e := FindEntry(r.entries, KeyOf(r.artifacts[i]));
            e.Some? ==>
              EntryMatches(e.value, r.artifacts[i]) && e.value.path != "" && e.value in r.entries
              && Restore(r, r.artifacts[i]) == WithPath(r.artifacts[i], e.value.path)
  {}

  /** Redacting an artifact whose raw path was put back, and giving it its public path, yields the stored artifact. */
  lemma RedactRestored(a: Artifact, raw: string, text: string -> string)
    requires Redact(a, text) == a && PathOf(a).Some?
    ensures text(PathOf(a).value) == PathOf(a).value
    ensures KeyOf(Redact(WithPath(a, raw), text)) == KeyOf(a)
    ensures WithPath(Redact(WithPath(a, raw), text), PathOf(a).value) == a
    ensures PathOf(WithPath(a, raw)) == Some(raw)
  {}

  lemma PublicFormOfView(r: Registry, v: Artifact, i: nat, text: string -> string)
    requires Accepted(r) && Settled(r, text) && i < |r.artifacts|
    requires v == r.artifacts[i] || v == Restore(r, r.artifacts[i])
    ensures PublicForm(r, v, text) == r.artifacts[i]
  {
    hide Redact, Defined;
    AcceptedEntry(r, i);
    var a := r.artifacts[i];
    var e := FindEntry(r.entries, KeyOf(a));
    assert Redact(a, text) == a;
    if e.Some? {
      hide Accepted, Settled, FindEntry, FindArtifact;
      RedactRestored(a, e.value.path, text);
      RedactRestored(a, e.value.publicPath, text);
      assert WithPath(a, e.value.publicPath) == a by {
        assert a.fields["path"] == Some(Str(e.value.publicPath));
      }
    }
  }

  /** Written back, one artifact of a view keeps its private path. */
  lemma EntryOfView(r: Registry, v: Artifact, i: nat, text: string -> string)
    requires Accepted(r) && Settled(r, text) && i < |r.artifacts|
    requires v == r.artifacts[i] || v == Restore(r, r.artifacts[i])
    ensures var before := FindEntry(r.entries, KeyOf(r.artifacts[i]));
      var after := EntryFor(r, v, r.artifacts[i]);
      if before.Some? then after == before
      else after.None? || (PathOf(r.artifacts[i]) == Some(after.value.path)
                           && WithPath(r.artifacts[i], after.value.path) == r.artifacts[i])
  {}

  lemma {:induction false} FindInCollected(
    options: seq<Option<PrivatePath>>, artifacts: seq<Artifact>, i: nat
  )
    requires |options| == |artifacts| && UniqueKeys(artifacts) && i < |options|
    requires forall k :: 0 <= k < |options| && options[k].Some? ==> EntryKey(options[k].value) == KeyOf(artifacts[k])
    ensures FindEntry(Collect(options), KeyOf(artifacts[i])) == options[i]
  {
    var found := FindEntry(Collect(options), KeyOf(artifacts[i]));
    if options[i].Some? {
      CollectMembers(options, options[i].value);
      assert found.Some?;
    }
    if found.Some? {
      CollectMembers(options, found.value);
      var k :| 0 <= k < |options| && options[k] == Some(found.value);
      assert k == i;
    }
  }

  /** Writing a view back, public or restored or any mixture, changes neither the public artifacts nor the
      restored ones, and keeps every private path. */
  lemma WriteBack(r: Registry, view: seq<Artifact>, text: string -> string)
    requires Accepted(r) && Settled(r, text) && IsView(r, view)
    ensures Write(r, view, text).Some?
    ensures var after := Write(r, view, text).value;
      && after.artifacts == r.artifacts
      && Restored(after) == Restored(r)
      && (forall e :: e in r.entries ==> e in after.entries)
      && RawPaths(r) <= RawPaths(after)
  {
    var redacted := PublicForms(r, view, text);
    forall i | 0 <= i < |view| ensures redacted[i] == r.artifacts[i] {
      PublicFormOfView(r, view[i], i, text);
    }
    assert redacted == r.artifacts;
    assert DefinedAll(redacted) == r.artifacts;
    NoRawPathForgotten(r, view, text);
    var after := Write(r, view, text).value;
    var options := EntriesFor(r, view, redacted);
    forall k | 0 <= k < |options| && options[k].Some? ensures EntryKey(options[k].value) == KeyOf(redacted[k]) {
      EntryForBound(r, view[k], redacted[k]);
    }
    forall i | 0 <= i < |r.artifacts| ensures Restore(after, r.artifacts[i]) == Restore(r, r.artifacts[i]) {
      EntryOfView(r, view[i], i, text);
      AcceptedEntry(r, i);
      FindInCollected(options, redacted, i);
      if options[i].Some? {
        EntryForBound(r, view[i], redacted[i]);
      }
    }
    forall e | e in r.entries ensures e in after.entries {
      var a := FindArtifact(r.artifacts, EntryKey(e)).value;
      var i :| 0 <= i < |r.artifacts| && r.artifacts[i] == a;
      EntryOfView(r, view[i], i, text);
      FoundEntry(r.entries, e);
      assert options[i] == Some(e);
      CollectMembers(options, e);
    }
  }

  lemma {:induction false} FoundEntry(entries: seq<PrivatePath>, e: PrivatePath)
    requires UniqueEntries(entries) && e in entries
    ensures FindEntry(entries, EntryKey(e)) == Some(e)
  {}

  /** The fields that tell one materialization from another. */
  const BOUND := ["path", "sha256", "size", "stageId", "attempt", "createdByRunId"]

  ghost predicate SameMaterial(a: Artifact, b: Artifact) {
    forall i :: 0 <= i < |BOUND| ==> Field(a, BOUND[i]) == Field(b, BOUND[i])
  }

  /** A private path is put back exactly on an artifact that is still the stored one: same key, path, digest, size and
      origin. Anything else, such as a later version from an event, is left as it is. */
  lemma RestoresOnlySame(r: Registry, a: Artifact, path: string)
    requires Accepted(r)
    ensures Restore(r, a) == a || exists e :: e in r.entries && Restore(r, a) == WithPath(a, e.path)
    ensures (exists e :: e in r.entries && EntryKey(e) == KeyOf(a) && Restore(r, a) == WithPath(a, e.path) != a) ==>
      exists b :: b in r.artifacts && KeyOf(b) == KeyOf(a) && SameMaterial(a, b)
    ensures forall e, b ::
      e in r.entries && b in r.artifacts && EntryKey(e) == KeyOf(a) == KeyOf(b) && SameMaterial(a, b) ==>
        Restore(r, a) == WithPath(a, e.path)
  {
    var e, b := FindEntry(r.entries, KeyOf(a)), FindArtifact(r.artifacts, KeyOf(a));
    forall x, y | x in r.entries && y in r.artifacts && EntryKey(x) == KeyOf(a) == KeyOf(y) && SameMaterial(a, y)
      ensures Restore(r, a) == WithPath(a, x.path)
    {
      FoundEntry(r.entries, x);
      assert b == Some(y);
      SameMaterialIff(a, y);
    }
    if e.Some? && b.Some? {
      assert e.value.materialization == MaterializationOf(b.value);
      SameMaterialIff(a, b.value);
    }
  }

  lemma SameMaterialIff(a: Artifact, b: Artifact)
    ensures SameMaterial(a, b) <==> MaterializationOf(a) == MaterializationOf(b)
  {
    if MaterializationOf(a) == MaterializationOf(b) {
      var m, n := Metadata(a), Metadata(b);
      assert m[0] == n[0] && m[1] == n[1] && m[2] == n[2] && m[3] == n[3] && m[4] == n[4];
    } else {
      assert BOUND[0] == "path" && BOUND[1] == "sha256" && BOUND[2] == "size" && BOUND[3] == "stageId";
      assert BOUND[4] == "attempt" && BOUND[5] == "createdByRunId";
    }
  }

  // ---------------------------------------------------------------- what a write stores of its input

  /** The key has an entry and the path is the one that its stored public artifact shows. */
  ghost predicate RoundTrips(existing: Registry, key: ArtifactKey, path: string) {
    && (exists i :: 0 <= i < |existing.entries| && EntryKey(existing.entries[i]) == key)
    && (exists i :: 0 <= i < |existing.artifacts| && KeyOf(existing.artifacts[i]) == key
                    && PathOf(existing.artifacts[i]) == Some(path))
  }

  /** An artifact comes in with a raw path, keeps a public one, and is not the public registry read back. */
  ghost predicate Supplies(existing: Registry, merged: seq<Artifact>, after: Registry, i: int, path: string) {
    && 0 <= i < |merged| == |after.artifacts|
    && path != "" && PathOf(merged[i]) == Some(path)
    && PathOf(after.artifacts[i]).Some? && PathOf(after.artifacts[i]).value != ""
    && !RoundTrips(existing, KeyOf(after.artifacts[i]), path)
  }

  lemma EntryForSupplied(existing: Registry, a: Artifact, redacted: Artifact, path: string)
    requires UniqueKeys(existing.artifacts)
    requires path != "" && PathOf(a) == Some(path) && PathOf(redacted).Some? && PathOf(redacted).value != ""
    requires !RoundTrips(existing, KeyOf(redacted), path)
    ensures EntryFor(existing, a, redacted) == Some(PrivatePath(
      redacted.producer, redacted.id, path, PathOf(redacted).value, MaterializationOf(redacted)))
  {}

  /** A raw path that comes in is what a read restores, and it is kept. */
  lemma SuppliedIsRestored(existing: Registry, merged: seq<Artifact>, text: string -> string, i: nat, path: string)
    requires Accepted(existing) && Write(existing, merged, text).Some?
    requires Supplies(existing, merged, Write(existing, merged, text).value, i, path)
    ensures var after := Write(existing, merged, text).value;
      && Restored(after)[i] == WithPath(after.artifacts[i], path)
      && PathOf(Restored(after)[i]) == PathOf(merged[i])
      && path in RawPaths(after)
  {
    var after := Write(existing, merged, text).value;
    var redacted := PublicForms(existing, merged, text);
    RestoredAt(existing, merged, text, i);
    DefinedKeeps(redacted[i]);
    EntryForSupplied(existing, merged[i], redacted[i], path);
    var options := EntriesFor(existing, merged, redacted);
    hide Accepted, PublicForms, EntryFor, Defined;
    CollectMembers(options, options[i].value);
    assert options[i].value in after.entries;
  }

  /** The same content from the same origin, whatever the path. */
  ghost predicate SameContent(a: Artifact, b: Artifact) {
    forall i :: 1 <= i < |BOUND| ==> Field(a, BOUND[i]) == Field(b, BOUND[i])
  }

  lemma SameContentIff(a: Artifact, b: Artifact)
    ensures SameContent(a, b) <==> Metadata(a) == Metadata(b)
  {
    if Metadata(a) == Metadata(b) {
      var m, n := Metadata(a), Metadata(b);
      assert m[0] == n[0] && m[1] == n[1] && m[2] == n[2] && m[3] == n[3] && m[4] == n[4];
    } else {
      assert BOUND[1] == "sha256" && BOUND[2] == "size" && BOUND[3] == "stageId";
      assert BOUND[4] == "attempt" && BOUND[5] == "createdByRunId";
    }
  }

  lemma RestoredAt(existing: Registry, merged: seq<Artifact>, text: string -> string, i: nat)
    requires Accepted(existing) && Write(existing, merged, text).Some? && i < |merged|
    ensures var after, redacted := Write(existing, merged, text).value, PublicForms(existing, merged, text);
      && |after.artifacts| == |merged| && after.artifacts[i] == Defined(redacted[i])
      && var e := EntryFor(existing, merged[i], redacted[i]);
      Restored(after)[i] == if e.Some? then WithPath(after.artifacts[i], e.value.path) else after.artifacts[i]
  {
    var after := Write(existing, merged, text).value;
    var redacted := PublicForms(existing, merged, text);
    var options := EntriesFor(existing, merged, redacted);
    forall k | 0 <= k < |options| && options[k].Some? ensures EntryKey(options[k].value) == KeyOf(redacted[k]) {
      EntryForBound(existing, merged[k], redacted[k]);
    }
    DefinedKeeps(redacted[i]);
    FindInCollected(options, redacted, i);
    if options[i].Some? { EntryForBound(existing, merged[i], redacted[i]); }
    hide Accepted, PublicForms, EntryFor, UniqueKeys, Defined;
    assert after.artifacts[i] in after.artifacts;
  }

  /** The public registry read back: the raw path is kept when it is the public one itself or the content is still the
      stored one, and dropped otherwise. */
  lemma RoundTripRestores(
    existing: Registry, merged: seq<Artifact>, text: string -> string, i: nat, path: string, e: PrivatePath, b: Artifact
  )
    requires Accepted(existing) && Write(existing, merged, text).Some? && i < |merged|
    requires path != "" && PathOf(merged[i]) == Some(path)
    requires e in existing.entries && b in existing.artifacts && PathOf(b) == Some(path)
    requires var after := Write(existing, merged, text).value.artifacts;
      && i < |after| && EntryKey(e) == KeyOf(b) == KeyOf(after[i])
      && PathOf(after[i]).Some? && PathOf(after[i]).value != ""
    ensures var after := Write(existing, merged, text).value;
      && |after.artifacts| == |merged|
      && PathOf(Restored(after)[i])
        == if path == e.path || SameContent(after.artifacts[i], b) then Some(e.path) else PathOf(after.artifacts[i])
  {
    var redacted := PublicForms(existing, merged, text)[i];
    RestoredAt(existing, merged, text, i);
    DefinedKeeps(redacted);
    FoundEntry(existing.entries, e);
    SameContentIff(Defined(redacted), b);
    assert FindArtifact(existing.artifacts, KeyOf(b)) == Some(b);
    var entry := EntryFor(existing, merged[i], redacted);
    assert EntryMatches(e, b);
    hide Restored, PublicForms, Write, Defined, FindEntry, FindArtifact, Accepted, EntryMatches;
    assert entry == if path == e.path || SameContent(Defined(redacted), b)
                    then Some(PrivatePath(redacted.producer, redacted.id, e.path, PathOf(redacted).value,
                                          MaterializationOf(redacted)))
                    else None;
  }

  /** What redaction leaves of a field. */
  predicate Shown(before: Option<FieldValue>, name: string, after: Option<FieldValue>, text: string -> string) {
    match before
    case Some(Str(s)) => after == Some(Str(if name == "sha256" then s else text(s)))
    case _ => after == before
  }

  /** The path that comes in is the private or the public path of an entry with this key. */
  predicate Returns(e: PrivatePath, key: ArtifactKey, path: Option<string>) {
    EntryKey(e) == key && (path == Some(e.path) || path == Some(e.publicPath))
  }

  /** A write stores one public artifact for each incoming one, with every identity and text redacted and nothing else
      changed; only a path that returns under its key is shown as it was before, redacted again. */
  lemma WrittenIsRedacted(existing: Registry, merged: seq<Artifact>, text: string -> string, i: nat, name: string)
    requires UniqueEntries(existing.entries) && Write(existing, merged, text).Some? && i < |merged|
    ensures var after := Write(existing, merged, text).value;
      && |after.artifacts| == |merged|
      && var key := KeyOf(after.artifacts[i]);
      && key == (text(merged[i].producer), text(merged[i].id))
      && (name != "path" ==> Shown(Field(merged[i], name), name, Field(after.artifacts[i], name), text))
      && (forall e :: e in existing.entries && Returns(e, key, PathOf(merged[i])) ==>
            Field(after.artifacts[i], "path") == Some(Str(text(e.publicPath))))
      && ((forall e :: e in existing.entries ==> !Returns(e, key, PathOf(merged[i]))) ==>
            Shown(Field(merged[i], "path"), "path", Field(after.artifacts[i], "path"), text))
  {
    var a, redacted := merged[i], PublicForms(existing, merged, text)[i];
    DefinedKeeps(redacted);
    assert forall n :: Field(Defined(redacted), n) == Field(redacted, n);
    assert redacted == PublicForm(existing, a, text);
    var key := KeyOf(Redact(a, text));
    var previous := FindEntry(existing.entries, key);
    forall e | e in existing.entries && EntryKey(e) == key ensures previous == Some(e) {
      FoundEntry(existing.entries, e);
    }
    hide FindEntry, UniqueEntries;
    assert previous.Some? ==> previous.value in existing.entries;
  }

  /** The kept raw paths are those kept before and those that came in; a current one is not historical. */
  lemma OnlySuppliedIsKept(existing: Registry, merged: seq<Artifact>, text: string -> string, path: string)
    requires Write(existing, merged, text).Some?
    requires path in RawPaths(Write(existing, merged, text).value)
    ensures path in RawPaths(existing) || exists i :: 0 <= i < |merged| && PathOf(merged[i]) == Some(path)
    ensures var after := Write(existing, merged, text).value;
      path in after.historical ==> forall i :: 0 <= i < |after.entries| ==> after.entries[i].path != path
  {
    var after := Write(existing, merged, text).value;
    var redacted := PublicForms(existing, merged, text);
    var options := EntriesFor(existing, merged, redacted);
    if path !in after.historical {
      var i :| 0 <= i < |after.entries| && after.entries[i].path == path;
      CollectMembers(options, after.entries[i]);
      var k :| 0 <= k < |options| && options[k] == Some(after.entries[i]);
      EntryPath(existing, merged[k], redacted[k]);
    }
  }

  lemma EntryPath(existing: Registry, a: Artifact, redacted: Artifact)
    requires EntryFor(existing, a, redacted).Some?
    ensures var path := EntryFor(existing, a, redacted).value.path;
      PathOf(a) == Some(path) || path in RawPaths(existing)
  {
    var previous := FindEntry(existing.entries, KeyOf(redacted));
    hide FindEntry, FindArtifact;
    if previous.Some? {
      var i :| 0 <= i < |existing.entries| && existing.entries[i] == previous.value;
      assert existing.entries[i].path in RawPaths(existing);
    }
  }

  // ---------------------------------------------------------------- histories

  datatype Update = Update(merged: seq<Artifact>, text: string -> string)

  /** A history of serial writes; a write that throws leaves the registry as it was. */
  ghost function History(r: Registry, updates: seq<Update>): Registry
    decreases |updates|
  {
    if updates == [] then r
    else
      var after := Write(r, updates[0].merged, updates[0].text);
      History(if after.Some? then after.value else r, updates[1..])
  }

  /** Over any history, with any redactors, raw paths only accumulate and reads accept what is stored. */
  lemma {:induction false} HistoryKeepsRawPaths(r: Registry, updates: seq<Update>)
    requires Accepted(r)
    ensures Accepted(History(r, updates)) && RawPaths(r) <= RawPaths(History(r, updates))
    decreases |updates|
  {
    if updates != [] {
      var after := Write(r, updates[0].merged, updates[0].text);
      if after.Some? {
        WrittenIsAccepted(r, updates[0].merged, updates[0].text);
        NoRawPathForgotten(r, updates[0].merged, updates[0].text);
      }
      HistoryKeepsRawPaths(if after.Some? then after.value else r, updates[1..]);
    }
  }

  /** The raw paths that the updates of a history supply. */
  ghost function SuppliedBy(r: Registry, updates: seq<Update>): set<string>
    decreases |updates|
  {
    if updates == [] then {}
    else
      var after := Write(r, updates[0].merged, updates[0].text);
      if after.None? then SuppliedBy(r, updates[1..])
      else Incoming(r, updates[0].merged, after.value) + SuppliedBy(after.value, updates[1..])
  }

  ghost function Incoming(r: Registry, merged: seq<Artifact>, after: Registry): set<string> {
    set i | 0 <= i < |merged| && PathOf(merged[i]).Some? && Supplies(r, merged, after, i, PathOf(merged[i]).value)
      :: PathOf(merged[i]).value
  }

  /** Over any history, every raw path that was ever supplied is kept. */
  lemma {:induction false} HistoryKeepsSupplied(r: Registry, updates: seq<Update>)
    requires Accepted(r)
    ensures SuppliedBy(r, updates) <= RawPaths(History(r, updates))
    decreases |updates|
  {
    if updates != [] {
      var after := Write(r, updates[0].merged, updates[0].text);
      hide Accepted, Write, RawPaths, Supplies;
      if after.Some? {
        WrittenAccepted(r, updates[0]);
        forall p | p in Incoming(r, updates[0].merged, after.value) ensures p in RawPaths(after.value) {
          var i :| 0 <= i < |updates[0].merged| && PathOf(updates[0].merged[i]) == Some(p)
            && Supplies(r, updates[0].merged, after.value, i, p);
          SuppliedIsRestored(r, updates[0].merged, updates[0].text, i, p);
        }
        HistoryKeepsRawPaths(after.value, updates[1..]);
        HistoryKeepsSupplied(after.value, updates[1..]);
      } else {
        HistoryKeepsSupplied(r, updates[1..]);
      }
    }
  }

  lemma WrittenAccepted(r: Registry, u: Update)
    requires Accepted(r) && Write(r, u.merged, u.text).Some?
    ensures Accepted(Write(r, u.merged, u.text).value)
  {
    WrittenIsAccepted(r, u.merged, u.text);
  }

  /** Reading and writing back after any history that ends with a write under the same redactor loses nothing. */
  lemma RoundTripAfterHistory(updates: seq<Update>, last: Update, view: seq<Artifact>)
    requires forall s :: last.text(last.text(s)) == last.text(s)
    requires Write(History(NoRegistry, updates), last.merged, last.text).Some?
    requires IsView(Write(History(NoRegistry, updates), last.merged, last.text).value, view)
    ensures var r := Write(History(NoRegistry, updates), last.merged, last.text).value;
      Write(r, view, last.text).Some?
      && var after := Write(r, view, last.text).value;
      after.artifacts == r.artifacts && Restored(after) == Restored(r) && RawPaths(r) <= RawPaths(after)
  {
    HistoryKeepsRawPaths(NoRegistry, updates);
    var before := History(NoRegistry, updates);
    WrittenIsAccepted(before, last.merged, last.text);
    WrittenIsSettled(before, last.merged, last.text);
    WriteBack(Write(before, last.merged, last.text).value, view, last.text);
  }
}
