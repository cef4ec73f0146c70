/** Pruning a run's artifacts: files first, then the public index, then the private one, crashing anywhere. */
module Retention {
  import opened Text

  // ---------------------------------------------------------------- path categories

  datatype Category = RunsCategory | LogsCategory | ArtifactsCategory | EvidenceCategory

  predicate IsSeparator(c: char) { c == '/' || c == '\\' }

  function FirstSegment(path: string): string {
    if path == "" || IsSeparator(path[0]) then "" else [path[0]] + FirstSegment(path[1..])
  }

  function Basename(path: string): string {
    if path == "" || path[|path| - 1] == '/' then "" else Basename(path[..|path| - 1]) + [path[|path| - 1]]
  }

  predicate EndsWith(s: string, suffix: string) {
    |suffix| <= |s| && s[|s| - |suffix|..] == suffix
  }

  /** The category of a path inside the run directory. */
  function CategoryOf(path: string): Category {
    if FirstSegment(path) == "inputs" || FirstSegment(path) == "worktree" then RunsCategory
    else if EndsWith(Basename(path), ".log") then LogsCategory
    else if path == "evidence.md" then EvidenceCategory
    else if Basename(path) == "prompt.md" || Basename(path) == "prompt.txt" then RunsCategory
    else ArtifactsCategory
  }

  predicate IsRecovery(path: string) {
    path == "recovery.json" || path == "recovery.patch"
  }

  // ---------------------------------------------------------------- the run directory

  /** Where a private index came from: a sidecar, or a write of one that was cut short. */
  datatype Source = Source(ref: nat, temporary: bool, attempt: nat)

  /** A file by its role. Removing a file renames it first; the number stands for the random suffix. */
  datatype File =
    | Materialized(path: string)
    | RemovingCopy(path: string, suffix: nat)
    | TemporaryCopy(path: string, suffix: nat)
    | PublicIndex
    | PublicResidue(suffix: nat)
    | PrivateIndex(source: Source)
    | PrivateRemoving(source: Source, suffix: nat)

  predicate IsPublic(f: File) { f.PublicIndex? || f.PublicResidue? }

  predicate IsPrivate(f: File) { f.PrivateIndex? || f.PrivateRemoving? }

  /** Only `files` and `events` change; the other fields are the contents of files while those are there.
      A private index that cannot be read names nothing. */
  datatype Disk = Disk(
    files: set<File>, publicNames: set<string>, publicRef: Option<nat>,
    privateNames: map<Source, Option<set<string>>>, events: Option<set<string>>)

  function NamesOf(d: Disk, s: Source): set<string> {
    if s in d.privateNames && d.privateNames[s].Some? then d.privateNames[s].value else {}
  }

  /** The event log, or a surviving registry file, names the path. */
  ghost predicate Named(d: Disk, p: string) {
    || (PublicIndex in d.files && p in d.publicNames)
    || (exists f :: f in d.files && IsPrivate(f) && p in NamesOf(d, f.source))
    || (d.events.Some? && p in d.events.value)
  }

  function NamedPaths(d: Disk): (r: set<string>)
    ensures forall p :: p in r <==> Named(d, p)
  {
    var r := (if PublicIndex in d.files then d.publicNames else {})
      + (set f, p | f in d.files && IsPrivate(f) && p in NamesOf(d, f.source) :: p)
      + (if d.events.Some? then d.events.value else {});
    r
  }

  function SidecarOf(ref: nat): File {
    PrivateIndex(Source(ref, false, 0))
  }

  /** A surviving artifacts.json still has the sidecar it refers to. */
  predicate SidecarKept(d: Disk) {
    PublicIndex in d.files && d.publicRef.Some? ==> SidecarOf(d.publicRef.value) in d.files
  }

  predicate Parses(d: Disk, s: Source) { s in d.privateNames && d.privateNames[s].Some? }

  /** A plan needs every private index but the temporary ones, whose writes may have been cut short. */
  predicate Readable(d: Disk) {
    SidecarKept(d) && forall f :: f in d.files && IsPrivate(f) && !f.source.temporary ==> Parses(d, f.source)
  }

  // ---------------------------------------------------------------- plans

  /** A sensitive file or a residue of one that a prune must remove. */
  predicate ListedFile(d: Disk, named: set<string>, f: File) {
    match f
    case Materialized(p) => CategoryOf(p).ArtifactsCategory? && (p in named || IsRecovery(p))
    case RemovingCopy(p, _) => CategoryOf(p).ArtifactsCategory? && (p in named || IsRecovery(p))
    case TemporaryCopy(p, _) => CategoryOf(p).ArtifactsCategory?
    case _ => false
  }

  ghost predicate Lists(s: seq<File>, files: set<File>) {
    (forall f :: f in s <==> f in files) && forall i, j :: 0 <= i < j < |s| ==> s[i] != s[j]
  }

  datatype Plan = Plan(files: seq<File>, publics: seq<File>, privates: seq<File>)

  function Order(plan: Plan): seq<File> {
    plan.files + plan.publics + plan.privates
  }

  ghost predicate IsPlan(d: Disk, plan: Plan) {
    && Lists(plan.files, set f | f in d.files && ListedFile(d, NamedPaths(d), f))
    && Lists(plan.publics, set f | f in d.files && IsPublic(f))
    && Lists(plan.privates, set f | f in d.files && IsPrivate(f))
  }

  // ---------------------------------------------------------------- removing

  function Quarantined(f: File, suffix: nat): File {
    match f
    case Materialized(p) => RemovingCopy(p, suffix)
    case RemovingCopy(p, _) => RemovingCopy(p, suffix)
    case TemporaryCopy(p, _) => TemporaryCopy(p, suffix)
    case PublicIndex => PublicResidue(suffix)
    case PublicResidue(_) => PublicResidue(suffix)
    case PrivateIndex(s) => PrivateRemoving(s, suffix)
    case PrivateRemoving(s, _) => PrivateRemoving(s, suffix)
  }

  /** A suffix no file carries yet, as a random one is taken to be. */
  predicate Fresh(files: set<File>, suffix: nat) {
    forall f :: f in files ==> f != Quarantined(f, suffix)
  }

  /** The files after `steps` renames and unlinks of an ordered removal; each file takes one of each. */
  function Remaining(files: set<File>, order: seq<File>, steps: nat, suffix: nat): set<File>
    decreases |order|
  {
    if order == [] || steps == 0 then files
    else if order[0] !in files then Remaining(files, order[1..], steps, suffix)
    else if steps == 1 then files - {order[0]} + {Quarantined(order[0], suffix)}
    else Remaining(files - {order[0]}, order[1..], steps - 2, suffix)
  }

  function Interrupted(d: Disk, order: seq<File>, steps: nat, suffix: nat): Disk {
    d.(files := Remaining(d.files, order, steps, suffix))
  }

  // ---------------------------------------------------------------- event history

  /** The paths a later prune can still read from the registry files that are in place; none if they disagree. */
  ghost predicate Durable(d: Disk, p: string) {
    (PublicIndex in d.files && p in d.publicNames)
    || exists s :: PrivateIndex(s) in d.files && !s.temporary && p in NamesOf(d, s)
  }

  function DurablePaths(d: Disk): (r: set<string>)
    ensures forall p :: p in r <==> Durable(d, p)
  {
    var r := (if PublicIndex in d.files then d.publicNames else {})
      + (set f, p | f in d.files && f.PrivateIndex? && !f.source.temporary && p in NamesOf(d, f.source) :: p);
    assert forall s: Source :: PrivateIndex(s).source == s;
    r
  }

  predicate Leftover(f: File, p: string) {
    (f.Materialized? || f.RemovingCopy? || f.TemporaryCopy?) && f.path == p
  }

  /** Registry files in the course of removal are not looked at. */
  predicate DurableReadable(d: Disk) {
    SidecarKept(d) && forall f :: f in d.files && f.PrivateIndex? && !f.source.temporary ==> Parses(d, f.source)
  }

  ghost predicate LastIndexOf(d: Disk, p: string) {
    CategoryOf(p).ArtifactsCategory? && !Durable(d, p) && exists f :: f in d.files && Leftover(f, p)
  }

  /** With an unreadable registry, any path at all keeps the events. */
  ghost predicate NeedsRetryIndex(d: Disk) {
    && d.events.Some? && d.events.value != {}
    && (!DurableReadable(d) || exists p :: p in d.events.value && LastIndexOf(d, p))
  }

  // ================================================================ what interruptions leave

  function Prefix(order: seq<File>, j: nat): set<File>
    requires j <= |order|
  {
    set f | f in order[..j]
  }

  /** An interruption happens after some prefix of the order is gone, with at most one file caught mid-removal. */
  ghost predicate CutAt(files: set<File>, order: seq<File>, after: set<File>, suffix: nat, j: nat) {
    j <= |order|
    && (after == files - Prefix(order, j)
        || (j < |order| && after == files - Prefix(order, j + 1) + {Quarantined(order[j], suffix)}))
  }

  lemma PrefixTail(order: seq<File>, k: nat)
    requires k < |order|
    ensures Prefix(order, k + 1) == {order[0]} + Prefix(order[1..], k)
  {
    assert order[..k + 1] == [order[0]] + order[1..][..k];
  }

  lemma {:induction false} RemainingCut(files: set<File>, order: seq<File>, steps: nat, suffix: nat) returns (j: nat)
    ensures CutAt(files, order, Remaining(files, order, steps, suffix), suffix, j)
    ensures steps >= 2 * |order| ==> Remaining(files, order, steps, suffix) == files - Prefix(order, |order|)
    decreases |order|
  {
    if order == [] || steps == 0 {
      assert Prefix(order, 0) == {};
      return 0;
    }
    var gone := files - {order[0]};
    forall k | 0 <= k < |order| ensures Prefix(order, k + 1) == {order[0]} + Prefix(order[1..], k) {
      PrefixTail(order, k);
    }
    if order[0] !in files {
      var k := RemainingCut(files, order[1..], steps, suffix);
      assert gone == files;
      j := k + 1;
    } else if steps == 1 {
      assert Prefix(order[1..], 0) == {};
      j := 0;
    } else {
      var k := RemainingCut(gone, order[1..], steps - 2, suffix);
      j := k + 1;
    }
  }

  /** A materialized artifact, or the renamed remains of one. */
  predicate Sensitive(f: File) {
    (f.Materialized? || f.RemovingCopy?) && CategoryOf(f.path).ArtifactsCategory?
  }

  /** Every sensitive file that was ever named is still named. */
  ghost predicate Discoverable(d: Disk, everNamed: set<string>) {
    forall f :: f in d.files && Sensitive(f) && f.path in everNamed ==> Named(d, f.path)
  }

  /** As long as only files were touched, every index is still there. */
  lemma FilesPhase(d: Disk, plan: Plan, after: Disk, suffix: nat, j: nat, everNamed: set<string>)
    requires IsPlan(d, plan) && Discoverable(d, everNamed) && SidecarKept(d)
    requires after == d.(files := after.files) && CutAt(d.files, Order(plan), after.files, suffix, j)
    requires j < |plan.files|
    ensures Discoverable(after, everNamed) && SidecarKept(after)
  {
    var order := Order(plan);
    assert order[..j + 1] == plan.files[..j + 1] && order[..j] == plan.files[..j] && order[j] == plan.files[j];
    assert order[j] in plan.files;
    forall f | f in Prefix(order, j) || f in Prefix(order, j + 1) ensures ListedFile(d, NamedPaths(d), f) {
      assert f in plan.files;
    }
    forall f | f in d.files && (IsPublic(f) || IsPrivate(f)) ensures f in after.files {
      assert f !in Prefix(order, j) && f !in Prefix(order, j + 1);
    }
    forall f | f in after.files && Sensitive(f) && f.path in everNamed ensures Named(after, f.path) {
      if f !in d.files {
        assert f == Quarantined(order[j], suffix) && Sensitive(order[j]) && order[j] in d.files;
      }
      assert Named(d, f.path);
    }
  }

  /** Once an index is touched, no sensitive file that was ever named is left. */
  lemma IndexPhaseFiles(d: Disk, plan: Plan, after: Disk, suffix: nat, j: nat, everNamed: set<string>)
    requires IsPlan(d, plan) && Discoverable(d, everNamed)
    requires after == d.(files := after.files) && CutAt(d.files, Order(plan), after.files, suffix, j)
    requires |plan.files| <= j
    ensures Discoverable(after, everNamed)
  {
    hide CategoryOf;
    var order := Order(plan);
    assert plan.files <= order[..j] && (j < |order| ==> plan.files <= order[..j + 1]);
    assert forall f :: f in plan.files ==> f !in after.files || (j < |order| && f == Quarantined(order[j], suffix));
    if j < |order| {
      assert order[j] in plan.publics || order[j] in plan.privates;
    }
    forall f | f in d.files && Sensitive(f) && f.path in everNamed ensures f in plan.files {
      assert Named(d, f.path) && ListedFile(d, NamedPaths(d), f);
    }
  }

  /** A sidecar goes only after artifacts.json is gone. */
  lemma IndexPhaseSidecar(d: Disk, plan: Plan, after: Disk, suffix: nat, j: nat)
    requires IsPlan(d, plan) && SidecarKept(d)
    requires after == d.(files := after.files) && CutAt(d.files, Order(plan), after.files, suffix, j)
    requires |plan.files| <= j
    ensures SidecarKept(after)
  {
    hide CategoryOf, IsRecovery, NamedPaths;
    var order := Order(plan);
    var n := |plan.files| + |plan.publics|;
    assert order[..n] == plan.files + plan.publics;
    assert PublicIndex in d.files ==> PublicIndex in order[..n];
    assert j < |order| ==> PublicIndex != Quarantined(order[j], suffix);
    if n <= j {
      assert order[..n] <= order[..j] && (j < |order| ==> order[..n] <= order[..j + 1]);
      assert PublicIndex !in after.files;
    } else {
      assert order[..j] <= order[..n] && order[..j + 1] <= order[..n];
      assert forall f :: f in order[..n] ==> f in plan.files || f in plan.publics;
      assert d.publicRef.Some? ==> SidecarOf(d.publicRef.value) !in order[..n];
    }
  }

  /** A path is named by the public index, by a private one that can be read, or by the event log. */
  lemma NamedIff(d: Disk, p: string)
    ensures Named(d, p) <==>
      || (PublicIndex in d.files && p in d.publicNames)
      || (exists f :: f in d.files && (f.PrivateIndex? || f.PrivateRemoving?) && Contains(d, f.source, p))
      || (d.events.Some? && p in d.events.value)
  {
    if f :| f in d.files && (f.PrivateIndex? || f.PrivateRemoving?) && Contains(d, f.source, p) {
      assert IsPrivate(f) && p in NamesOf(d, f.source);
    }
  }

  predicate Contains(d: Disk, source: Source, p: string) {
    source in d.privateNames && match d.privateNames[source] case Some(names) => p in names case None => false
  }

  /** At every crash point of a prune, each sensitive file that was ever named is still named by a surviving
      index, and a surviving artifacts.json still has its sidecar. */
  lemma CrashKeepsDiscoverable(d: Disk, plan: Plan, steps: nat, suffix: nat, everNamed: set<string>)
    requires IsPlan(d, plan) && Discoverable(d, everNamed) && SidecarKept(d)
    ensures Discoverable(Interrupted(d, Order(plan), steps, suffix), everNamed)
    ensures var after := Interrupted(d, Order(plan), steps, suffix);
      && SidecarKept(after)
      && (PublicIndex in after.files && after.publicRef.Some? ==>
            PrivateIndex(Source(after.publicRef.value, false, 0)) in after.files)
  {
    var j := RemainingCut(d.files, Order(plan), steps, suffix);
    if j < |plan.files| {
      FilesPhase(d, plan, Interrupted(d, Order(plan), steps, suffix), suffix, j, everNamed);
    } else {
      IndexPhaseFiles(d, plan, Interrupted(d, Order(plan), steps, suffix), suffix, j, everNamed);
      IndexPhaseSidecar(d, plan, Interrupted(d, Order(plan), steps, suffix), suffix, j);
    }
  }

  /** Deleting the event history keeps every surviving file named. */
  lemma DroppingEventsKeepsDiscoverable(d: Disk, everNamed: set<string>)
    requires Discoverable(d, everNamed) && !NeedsRetryIndex(d)
    ensures Discoverable(d.(events := None), everNamed)
  {}

  // ---------------------------------------------------------------- histories

  datatype Action = Prune(plan: Plan, steps: nat, suffix: nat) | DropEvents

  ghost predicate Allowed(d: Disk, a: Action) {
    match a
    case Prune(plan, _, _) => Readable(d) && IsPlan(d, plan)
    case DropEvents => !NeedsRetryIndex(d)
  }

  ghost function Apply(d: Disk, a: Action): Disk {
    match a
    case Prune(plan, steps, suffix) => Interrupted(d, Order(plan), steps, suffix)
    case DropEvents => d.(events := None)
  }

  ghost predicate AllowedAll(d: Disk, actions: seq<Action>)
    decreases |actions|
  {
    actions != [] ==> Allowed(d, actions[0]) && AllowedAll(Apply(d, actions[0]), actions[1..])
  }

  ghost function ApplyAll(d: Disk, actions: seq<Action>): Disk
    decreases |actions|
  {
    if actions == [] then d else ApplyAll(Apply(d, actions[0]), actions[1..])
  }

  lemma {:induction false} HistoryKeepsDiscoverable(d: Disk, actions: seq<Action>, everNamed: set<string>)
    requires Discoverable(d, everNamed) && SidecarKept(d) && AllowedAll(d, actions)
    ensures Discoverable(ApplyAll(d, actions), everNamed) && SidecarKept(ApplyAll(d, actions))
    decreases |actions|
  {
    if actions != [] {
      match actions[0] {
        case Prune(plan, steps, suffix) => CrashKeepsDiscoverable(d, plan, steps, suffix, everNamed);
        case DropEvents => DroppingEventsKeepsDiscoverable(d, everNamed);
      }
      HistoryKeepsDiscoverable(Apply(d, actions[0]), actions[1..], everNamed);
    }
  }

  /** An interruption makes no index unreadable. */
  lemma {:induction false} HistoryKeepsReadable(d: Disk, actions: seq<Action>)
    requires Readable(d) && AllowedAll(d, actions)
    ensures Readable(ApplyAll(d, actions))
    decreases |actions|
  {
    if actions != [] {
      match actions[0] {
        case Prune(plan, steps, suffix) => CrashKeepsReadable(d, plan, steps, suffix);
        case DropEvents =>
      }
      HistoryKeepsReadable(Apply(d, actions[0]), actions[1..]);
    }
  }

  lemma CrashKeepsReadable(d: Disk, plan: Plan, steps: nat, suffix: nat)
    requires Readable(d) && IsPlan(d, plan)
    ensures Readable(Interrupted(d, Order(plan), steps, suffix))
  {
    CrashKeepsDiscoverable(d, plan, steps, suffix, {});
    var order := Order(plan);
    var j := RemainingCut(d.files, order, steps, suffix);
    var after := Interrupted(d, order, steps, suffix);
    forall f | f in after.files && IsPrivate(f) && !f.source.temporary ensures Parses(d, f.source) {
      if f !in d.files {
        assert j < |order| && f == Quarantined(order[j], suffix) && order[j] in Order(plan);
      }
    }
  }

  /** After any history of interrupted prunes and event deletions, a new plan can be made, it lists every sensitive
      file that is left, and a prune that is not interrupted leaves neither those files nor any index. */
  lemma LaterRetryDrains(d: Disk, actions: seq<Action>, plan: Plan, steps: nat, suffix: nat)
    requires SidecarKept(d) && AllowedAll(d, actions)
    requires IsPlan(ApplyAll(d, actions), plan) && steps >= 2 * |Order(plan)|
    ensures var left := ApplyAll(d, actions);
      var drained := Interrupted(left, Order(plan), steps, suffix);
      && SidecarKept(left) && (Readable(d) ==> Readable(left))
      && (forall f :: f in left.files && Sensitive(f) && Named(d, f.path) ==> f in plan.files && f !in drained.files)
      && (forall f :: f in drained.files ==> f in left.files && !IsPublic(f) && !IsPrivate(f))
  {
    var everNamed := NamedPaths(d);
    HistoryKeepsDiscoverable(d, actions, everNamed);
    if Readable(d) { HistoryKeepsReadable(d, actions); }
    var left := ApplyAll(d, actions);
    var order := Order(plan);
    var _ := RemainingCut(left.files, order, steps, suffix);
    assert order[..|order|] == order;
    forall f | f in left.files && Sensitive(f) && Named(d, f.path)
      ensures f in plan.files
    {
      assert f.path in everNamed;
      assert ListedFile(left, NamedPaths(left), f);
    }
  }

  // ---------------------------------------------------------------- what a prune removes, and what it leaves

  /** An artifact that an index names or that is kept for recovery, the renamed remains of one, or a temporary copy of
      any artifact. Other categories are never concerned. */
  ghost predicate Prunable(d: Disk, f: File) {
    match f
    case Materialized(p) => CategoryOf(p) == ArtifactsCategory
      && (Named(d, p) || p in {"recovery.json", "recovery.patch"})
    case RemovingCopy(p, _) =>
      CategoryOf(p) == ArtifactsCategory && (Named(d, p) || p in {"recovery.json", "recovery.patch"})
    case TemporaryCopy(p, _) => CategoryOf(p) == ArtifactsCategory
    case _ => true
  }

  lemma PlannedIffPrunable(d: Disk, plan: Plan, f: File)
    requires IsPlan(d, plan)
    ensures f in Order(plan) <==> f in d.files && Prunable(d, f)
  {
    hide CategoryOf, Named;
    assert f in Order(plan) <==> f in plan.files || f in plan.publics || f in plan.privates;
    match f
    case Materialized(p) => assert p in NamedPaths(d) <==> Named(d, p);
    case RemovingCopy(p, _) => assert p in NamedPaths(d) <==> Named(d, p);
    case _ =>
  }

  /** What a file is renamed to while it is removed: still an artifact of the same path, or an index of the same
      kind. */
  predicate RemainsOf(f: File, g: File) {
    match g
    case Materialized(p) => f.RemovingCopy? && f.path == p
    case RemovingCopy(p, _) => f.RemovingCopy? && f.path == p
    case TemporaryCopy(p, _) => f.TemporaryCopy? && f.path == p
    case PublicIndex => f.PublicResidue?
    case PublicResidue(_) => f.PublicResidue?
    case PrivateIndex(source) => f.PrivateRemoving? && f.source == source
    case PrivateRemoving(source, _) => f.PrivateRemoving? && f.source == source
  }

  /** A prune that is not interrupted leaves exactly the files that are not prunable. An interrupted one removes nothing
      else, and adds at most the renamed remains of one prunable file. Once it is through, the event history is no
      longer needed to find what is left. */
  lemma PrunesExactly(d: Disk, plan: Plan, steps: nat, suffix: nat, f: File)
    requires IsPlan(d, plan)
    ensures var after := Interrupted(d, Order(plan), steps, suffix);
      && (f in d.files && !Prunable(d, f) ==> f in after.files)
      && (f in after.files && f !in d.files ==>
            exists g :: g in d.files && Prunable(d, g) && g !in after.files && RemainsOf(f, g))
      && (steps >= 2 * |Order(plan)| ==>
            (f in after.files <==> f in d.files && !Prunable(d, f)) && !NeedsRetryIndex(after))
  {
    var order := Order(plan);
    var after := Interrupted(d, order, steps, suffix);
    forall g ensures g in order <==> g in d.files && Prunable(d, g) { PlannedIffPrunable(d, plan, g); }
    var j := RemainingCut(d.files, order, steps, suffix);
    hide IsPlan, Prunable, Remaining, NeedsRetryIndex;
    PrefixMembers(order, j);
    if j < |order| { PrefixMembers(order, j + 1); }
    if f in after.files && f !in d.files {
      assert j < |order| && f == Quarantined(order[j], suffix) && order[j] in order;
      assert order[j] in Prefix(order, j + 1) by { assert order[..j + 1][j] == order[j]; }
    }
    if steps >= 2 * |order| {
      PrefixMembers(order, |order|);
      assert order[..|order|] == order;
      NoRetryIndex(d, after);
    }
  }

  lemma PrefixMembers(order: seq<File>, j: nat)
    requires j <= |order|
    ensures forall f :: f in Prefix(order, j) ==> f in order
  {}

  lemma NoRetryIndex(d: Disk, after: Disk)
    requires after == d.(files := after.files)
    requires forall f :: f in after.files <==> f in d.files && !Prunable(d, f)
    ensures !NeedsRetryIndex(after)
  {
    hide CategoryOf;
  }

  /** The disk as a later prune can read it: without the events, and without index files that are cut short or being
      removed. */
  ghost function InPlace(d: Disk): Disk {
    d.(events := None,
       files := set f | f in d.files && !(f.PrivateIndex? && f.source.temporary) && !f.PrivateRemoving?)
  }

  /** The events are kept exactly when the registry cannot be read, or an artifact that they name is left and no
      registry file in place names it. */
  lemma NeedsRetryIff(d: Disk)
    requires d.events.Some? && d.events.value != {}
    ensures NeedsRetryIndex(d) <==>
      || (PublicIndex in d.files && d.publicRef.Some?
          && PrivateIndex(Source(d.publicRef.value, false, 0)) !in d.files)
      || (exists source ::
            && PrivateIndex(source) in d.files && !source.temporary
            && (source !in d.privateNames || d.privateNames[source] == None))
      || exists f ::
           && f in d.files && (f.Materialized? || f.RemovingCopy? || f.TemporaryCopy?)
           && CategoryOf(f.path) == ArtifactsCategory && f.path in d.events.value && !Named(InPlace(d), f.path)
  {
    forall p ensures Durable(d, p) <==> Named(InPlace(d), p) {
      if s :| PrivateIndex(s) in d.files && !s.temporary && p in NamesOf(d, s) {
        assert PrivateIndex(s) in InPlace(d).files;
      }
      if f :| f in InPlace(d).files && IsPrivate(f) && p in NamesOf(InPlace(d), f.source) {
        assert f == PrivateIndex(f.source);
      }
    }
    hide CategoryOf, Durable, Named;
    if f :| f in d.files && f.PrivateIndex? && !f.source.temporary && !Parses(d, f.source) {
      assert f == PrivateIndex(f.source);
    }
    if p :| p in d.events.value && LastIndexOf(d, p) {
      var f :| f in d.files && Leftover(f, p);
    }
    if f :|
      && f in d.files && (f.Materialized? || f.RemovingCopy? || f.TemporaryCopy?)
      && CategoryOf(f.path) == ArtifactsCategory && f.path in d.events.value && !Named(InPlace(d), f.path)
    {
      assert Leftover(f, f.path) && LastIndexOf(d, f.path);
    }
  }

  // ---------------------------------------------------------------- categories of paths

  /** The path of a file in nested directories. */
  function Join(dirs: seq<string>, name: string): string {
    if dirs == [] then name else dirs[0] + "/" + Join(dirs[1..], name)
  }

  predicate Plain(segment: string) { forall i :: 0 <= i < |segment| ==> !IsSeparator(segment[i]) }

  lemma {:induction false} FirstOfJoin(first: string, rest: string)
    requires Plain(first)
    ensures FirstSegment(first + "/" + rest) == first && FirstSegment(first) == first
  {
    if first != "" {
      FirstOfJoin(first[1..], rest);
      assert (first + "/" + rest)[1..] == first[1..] + "/" + rest;
    } else {
      assert first + "/" + rest == "/" + rest;
    }
  }

  lemma {:induction false} LastOfJoin(dir: string, name: string)
    requires Plain(name)
    ensures Basename(dir + "/" + name) == name && Basename(name) == name
  {
    if name != "" {
      var n := |name| - 1;
      LastOfJoin(dir, name[..n]);
      var path := dir + "/" + name;
      assert path[..|path| - 1] == dir + "/" + name[..n];
      assert name == name[..n] + [name[n]];
    } else {
      assert dir + "/" + name == dir + "/";
    }
  }

  lemma {:induction false} DirectoryOf(dirs: seq<string>, name: string) returns (dir: string)
    requires dirs != []
    ensures Join(dirs, name) == dir + "/" + name
  {
    if |dirs| == 1 {
      dir := dirs[0];
    } else {
      var rest := DirectoryOf(dirs[1..], name);
      dir := dirs[0] + "/" + rest;
    }
  }

  lemma NoSlash()
    ensures forall i :: 0 <= i < |"evidence.md"| ==> "evidence.md"[i] != '/'
  {}

  /** What is under inputs or worktree belongs to the run; elsewhere logs and prompts are told by their name, the
      evidence by its place, and everything else is an artifact. */
  lemma CategoryIs(dirs: seq<string>, name: string)
    requires Plain(name) && forall i :: 0 <= i < |dirs| ==> Plain(dirs[i])
    ensures var top, category := if dirs == [] then name else dirs[0], CategoryOf(Join(dirs, name));
      var log, prompt := |name| >= 4 && name[|name| - 4..] == ".log", name == "prompt.md" || name == "prompt.txt";
      if top == "inputs" || top == "worktree" then category == RunsCategory
      else if log then category == LogsCategory
      else if dirs == [] && name == "evidence.md" then category == EvidenceCategory
      else if prompt then category == RunsCategory
      else category == ArtifactsCategory
  {
    FirstOfJoin(name, "");
    LastOfJoin("", name);
    if dirs != [] {
      FirstOfJoin(dirs[0], Join(dirs[1..], name));
      var dir := DirectoryOf(dirs, name);
      LastOfJoin(dir, name);
      assert Join(dirs, name)[|dir|] == '/';
      NoSlash();
    }
    hide FirstSegment, Basename, Join, Plain;
  }

  // ================================================================ the operations

  lemma ListsMore(s: seq<File>, files: set<File>, f: File)
    requires Lists(s, files) && f !in files
    ensures Lists(s + [f], files + {f})
  {}

  lemma DoneMore(d: Disk, named: set<string>, done: set<File>, f: File)
    ensures (set g | g in done + {f} && ListedFile(d, named, g))
         == (set g | g in done && ListedFile(d, named, g)) + (if ListedFile(d, named, f) then {f} else {})
    ensures (set g | g in done + {f} && IsPublic(g))
      == (set g | g in done && IsPublic(g)) + (if IsPublic(f) then {f} else {})
    ensures (set g | g in done + {f} && IsPrivate(g))
      == (set g | g in done && IsPrivate(g)) + (if IsPrivate(f) then {f} else {})
  {}

  class RunDirectory {
    var disk: Disk

    constructor (d: Disk)
      ensures disk == d
    {
      disk := d;
    }

    /** Sensitive files and their residues first, then every public index, then every private one. Throws on a private
        index it cannot read. */
    method CollectArtifactFiles() returns (plan: Option<Plan>)
      ensures plan.Some? <==> Readable(disk)
      ensures plan.Some? ==> IsPlan(disk, plan.value)
    {
      if !Readable(disk) {
        return None;
      }
      hide CategoryOf, Readable, Parses;
      var named := NamedPaths(disk);
      var files, publics, privates := [], [], [];
      var rest := disk.files;
      ghost var done: set<File> := {};
      while rest != {}
        invariant done + rest == disk.files && done !! rest
        invariant Lists(files, set f | f in done && ListedFile(disk, named, f))
        invariant Lists(publics, set f | f in done && IsPublic(f))
        invariant Lists(privates, set f | f in done && IsPrivate(f))
        decreases rest
      {
        var f :| f in rest;
        ListsMore(files, (set g | g in done && ListedFile(disk, named, g)), f);
        ListsMore(publics, (set g | g in done && IsPublic(g)), f);
        ListsMore(privates, (set g | g in done && IsPrivate(g)), f);
        DoneMore(disk, named, done, f);
        if IsPublic(f) {
          publics := publics + [f];
        } else if IsPrivate(f) {
          privates := privates + [f];
        } else if ListedFile(disk, named, f) {
          files := files + [f];
        }
        rest := rest - {f};
        done := done + {f};
      }
      assert done == disk.files;
      return Some(Plan(files, publics, privates));
    }

    /** Removes the listed files one by one; the process dies after `steps` renames and unlinks. */
    method RemoveRunFiles(paths: seq<File>, steps: nat, suffix: nat)
      requires Fresh(disk.files, suffix)
      modifies this
      ensures disk == Interrupted(old(disk), paths, steps, suffix)
    {
      var left := steps;
      var i := 0;
      while i < |paths| && left > 0
        invariant 0 <= i <= |paths|
        invariant disk == old(disk).(files := disk.files) && Fresh(disk.files, suffix)
        invariant Remaining(disk.files, paths[i..], left, suffix) == Remaining(old(disk).files, paths, steps, suffix)
        decreases |paths| - i
      {
        var f := paths[i];
        assert paths[i..][1..] == paths[i + 1..];
        if f in disk.files {
          ghost var before := disk.files;
          assert Quarantined(f, suffix) !in before by {
            assert Quarantined(Quarantined(f, suffix), suffix) == Quarantined(f, suffix);
          }
          disk := disk.(files := disk.files - {f} + {Quarantined(f, suffix)});
          left := left - 1;
          if left == 0 {
            return;
          }
          disk := disk.(files := disk.files - {Quarantined(f, suffix)});
          assert disk.files == before - {f};
          left := left - 1;
        }
        i := i + 1;
      }
    }

    /** The event history goes only when it is no longer the last index of something that is left. */
    method DeleteRunEvents() returns (deleted: bool)
      modifies this
      ensures deleted <==> old(disk).events.Some? && !NeedsRetryIndex(old(disk))
      ensures disk == if deleted then old(disk).(events := None) else old(disk)
    {
      if disk.events.None? {
        return false;
      }
      var rest := disk.events.value;
      if rest != {} && !DurableReadable(disk) {
        return false;
      }
      while rest != {}
        invariant rest <= disk.events.value && (rest != {} ==> DurableReadable(disk))
        invariant forall p :: p in disk.events.value && p !in rest ==> !LastIndexOf(disk, p)
        decreases rest
      {
        var p :| p in rest;
        if CategoryOf(p).ArtifactsCategory? {
          var durable := DurablePaths(disk);
          if p !in durable && exists f :: f in disk.files && Leftover(f, p) {
            return false;
          }
        }
        rest := rest - {p};
      }
      disk := disk.(events := None);
      return true;
    }
  }
}
