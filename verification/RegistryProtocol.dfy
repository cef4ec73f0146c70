/** Writers and readers of the two registry files, interleaved file access by file access, crashing anywhere. */
module RegistryProtocol {
  import opened Text
  import opened Artifacts
  import opened RegistryWrites

  /** The content of artifacts.json. A file from before private paths has no reference. */
  datatype PublicFile = PublicFile(generation: nat, ref: Option<nat>, artifacts: seq<Artifact>)

  /** An immutable sidecar; its binding is the generation and digest, so the content, of one public file. */
  datatype Sidecar = Sidecar(ref: nat, binding: PublicFile, entries: seq<PrivatePath>, historical: set<string>)

  datatype Disk = Disk(public: Option<PublicFile>, sidecars: map<nat, Sidecar>)

  const MAX_GENERATION := 0x1F_FFFF_FFFF_FFFF

  // ---------------------------------------------------------------- reading the pair

  datatype ReadResult =
    | Nothing
    | Bare(file: PublicFile)
    | Pair(file: PublicFile, sidecar: Sidecar)
    | Mismatch
    | KeptChanging

  /** `started` is the number of commits there had been when the read began. */
  datatype ReadState =
    | Opening
    | GotPublic(attempt: nat, file: PublicFile, started: nat)
    | Rereading(attempt: nat, file: PublicFile, started: nat)
    | Finished(result: ReadResult, started: nat, ended: nat)

  function RegistryOf(file: PublicFile, sidecar: Sidecar): Registry {
    Registry(file.artifacts, sidecar.entries, sidecar.historical)
  }

  ghost predicate Matches(file: PublicFile, sidecar: Sidecar) {
    file.ref == Some(sidecar.ref) && sidecar.binding == file && Accepted(RegistryOf(file, sidecar))
  }

  const ATTEMPTS := 2

  ghost function ReadStep(d: Disk, commits: nat, r: ReadState): ReadState {
    match r
    case Opening =>
      if d.public.None? then Finished(Nothing, commits, commits) else GotPublic(0, d.public.value, commits)
    case GotPublic(k, file, started) =>
      if file.ref.None? then Finished(Bare(file), started, commits)
      else if file.ref.value in d.sidecars && Matches(file, d.sidecars[file.ref.value]) then
        Finished(Pair(file, d.sidecars[file.ref.value]), started, commits)
      else Rereading(k, file, started)
    case Rereading(k, file, started) =>
      if d.public.None? then Finished(Nothing, started, commits)
      else if d.public.value == file then Finished(Mismatch, started, commits)
      else if k + 1 < ATTEMPTS then GotPublic(k + 1, d.public.value, started)
      else Finished(KeptChanging, started, commits)
    case Finished(_, _, _) => r
  }

  // ---------------------------------------------------------------- writing the pair

  function Existing(r: ReadResult): Registry {
    match r
    case Bare(file) => Registry(file.artifacts, [], {})
    case Pair(file, sidecar) => RegistryOf(file, sidecar)
    case _ => NoRegistry
  }

  function PreviousGeneration(r: ReadResult): nat {
    if r.Bare? || r.Pair? then r.file.generation else 0
  }

  function PreviousRef(r: ReadResult): Option<nat> {
    if r.Bare? || r.Pair? then r.file.ref else None
  }

  /** What a writer read and what it was given to write. */
  datatype Job = Job(base: ReadResult, merged: seq<Artifact>, text: string -> string)

  /** What a writer does: read, then write its sidecar, then replace the public file, then clean up. */
  datatype Proc =
    | ReadOnly(read: ReadState)
    | WriterReading(read: ReadState, merged: seq<Artifact>, text: string -> string)
    | SidecarWritten(file: PublicFile, previous: Option<nat>, job: Job)
    | Published(previous: Option<nat>)

  /** The files a writer with this id is about to store, unless its input or the generation is refused. */
  ghost function Prepared(
    id: nat, read: ReadResult, merged: seq<Artifact>, text: string -> string
  ): Option<(PublicFile, Sidecar)> {
    var after := Write(Existing(read), merged, text);
    if after.None? || PreviousGeneration(read) >= MAX_GENERATION then None
    else
      var file := PublicFile(PreviousGeneration(read) + 1, Some(id), after.value.artifacts);
      Some((file, Sidecar(id, file, after.value.entries, after.value.historical)))
  }

  datatype Event =
    | EnterReader(id: nat)
    | EnterWriter(id: nat, merged: seq<Artifact>, text: string -> string)
    | Advance(id: nat)
    | Crash(id: nat)

  /** A process id is its fresh reference. `used` are the ids that ever entered, `published` the references
      that were ever public. */
  datatype Sys = Sys(disk: Disk, procs: map<nat, Proc>, used: set<nat>, published: set<nat>, commits: nat)

  ghost function AdvanceWriter(s: Sys, id: nat): Sys
    requires id in s.procs && !s.procs[id].ReadOnly?
  {
    match s.procs[id]
    case WriterReading(read, merged, text) =>
      if !read.Finished? then
        s.(procs := s.procs[id := WriterReading(ReadStep(s.disk, s.commits, read), merged, text)])
      else if read.result.Mismatch? || read.result.KeptChanging? then s.(procs := s.procs - {id})
      else
        var prepared := Prepared(id, read.result, merged, text);
        if prepared.None? then s.(procs := s.procs - {id})
        else
          s.(disk := s.disk.(sidecars := s.disk.sidecars[id := prepared.value.1]),
             procs := s.procs[id := SidecarWritten(
               prepared.value.0, PreviousRef(read.result), Job(read.result, merged, text))])
    case SidecarWritten(file, previous, job) =>
      s.(disk := s.disk.(public := Some(file)), published := s.published + {id}, commits := s.commits + 1,
         procs := s.procs[id := Published(previous)])
    case Published(previous) =>
      s.(disk := if previous.Some? then s.disk.(sidecars := s.disk.sidecars - {previous.value}) else s.disk,
         procs := s.procs - {id})
  }

  ghost function Next(s: Sys, e: Event): Sys {
    match e
    case EnterReader(id) =>
      if id in s.used then s else s.(used := s.used + {id}, procs := s.procs[id := ReadOnly(Opening)])
    case EnterWriter(id, merged, text) =>
      if id in s.used then s
      else s.(used := s.used + {id}, procs := s.procs[id := WriterReading(Opening, merged, text)])
    case Advance(id) =>
      if id !in s.procs then s
      else if s.procs[id].ReadOnly? then
        s.(procs := s.procs[id := ReadOnly(ReadStep(s.disk, s.commits, s.procs[id].read))])
      else AdvanceWriter(s, id)
    case Crash(id) => s.(procs := s.procs - {id})
  }

  ghost function Run(s: Sys, events: seq<Event>): Sys
    decreases |events|
  {
    if events == [] then s else Run(Next(s, events[0]), events[1..])
  }

  /** A run starts with no registry, or with one from before private paths. */
  ghost predicate Initial(s: Sys) {
    s.procs == map[] && s.used == {} && s.published == {} && s.commits == 0 && s.disk.sidecars == map[]
    && (s.disk.public.Some? ==> s.disk.public.value.ref.None?)
  }

  // ---------------------------------------------------------------- the invariant

  /** The public file's sidecar is there and bound to it. */
  ghost predicate PublicBound(d: Disk) {
    d.public.Some? && d.public.value.ref.Some? ==>
      d.public.value.ref.value in d.sidecars && Matches(d.public.value, d.sidecars[d.public.value.ref.value])
  }

  /** A file that is or was public: replacing the public file never brings it back. */
  predicate Past(s: Sys, file: PublicFile) {
    file.ref.Some? ==> file.ref.value in s.published
  }

  /** A sidecar that was read is still what it was, if it is there at all. */
  predicate Unchanged(d: Disk, sidecar: Sidecar) {
    sidecar.ref in d.sidecars ==> d.sidecars[sidecar.ref] == sidecar
  }

  ghost predicate ResultOk(s: Sys, r: ReadResult, started: nat, ended: nat) {
    match r
    case Nothing => ended == 0
    case Bare(file) => file.ref.None?
    case Pair(file, sidecar) => Matches(file, sidecar) && Past(s, file) && Unchanged(s.disk, sidecar)
    case Mismatch => false
    case KeptChanging => ended >= started + 2
  }

  ghost predicate ReadOk(s: Sys, r: ReadState) {
    match r
    case Opening => true
    case GotPublic(k, file, started) =>
      && s.disk.public.Some? && Past(s, file) && k < ATTEMPTS
      && s.commits >= started + k + (if s.disk.public.value != file then 1 else 0)
    case Rereading(k, file, started) =>
      && s.disk.public.Some? && Past(s, file) && k < ATTEMPTS
      && s.disk.public.value != file && s.commits >= started + k + 1
    case Finished(result, started, ended) => ResultOk(s, result, started, ended)
  }

  /** The registry of the pair that was read. */
  ghost predicate IsBase(base: ReadResult, r: Registry) {
    match base
    case Pair(file, sidecar) =>
      r.artifacts == file.artifacts && r.entries == sidecar.entries && r.historical == sidecar.historical
    case Bare(file) => r == Registry(file.artifacts, [], {})
    case _ => r == NoRegistry
  }

  /** The pair is the write of what was given over the pair that was read, one generation later. */
  ghost predicate IsWritten(job: Job, file: PublicFile, sidecar: Sidecar) {
    && (job.base.Pair? ==> Matches(job.base.file, job.base.sidecar))
    && (exists r :: IsBase(job.base, r) && Write(r, job.merged, job.text) == Some(RegistryOf(file, sidecar)))
    && file.generation == 1 + if job.base.Bare? || job.base.Pair? then job.base.file.generation else 0
  }

  ghost predicate ProcOk(s: Sys, id: nat, p: Proc) {
    match p
    case ReadOnly(read) => ReadOk(s, read)
    case WriterReading(read, _, _) => ReadOk(s, read) && id !in s.published && id !in s.disk.sidecars
    case SidecarWritten(file, previous, job) =>
      && id !in s.published && id in s.disk.sidecars && Matches(file, s.disk.sidecars[id]) && file.ref == Some(id)
      && (previous.Some? ==> previous.value in s.published)
      && previous == (if job.base.Pair? then job.base.file.ref else None)
      && !job.base.Mismatch? && !job.base.KeptChanging?
      && IsWritten(job, file, s.disk.sidecars[id])
      && (job.base.Pair? ==> Past(s, job.base.file) && Unchanged(s.disk, job.base.sidecar))
    case Published(previous) =>
      previous.Some? ==>
        previous.value in s.published
        && (s.disk.public.Some? ==> s.disk.public.value.ref != previous)
  }

  ghost predicate Inv(s: Sys) {
    && PublicBound(s.disk)
    && (s.disk.public.Some? ==> Past(s, s.disk.public.value))
    && (forall id :: id in s.procs ==> id in s.used && ProcOk(s, id, s.procs[id]))
    && (forall r :: r in s.published || r in s.disk.sidecars ==> r in s.used)
    && (s.disk.public.None? ==> s.commits == 0)
  }

  lemma PreparedMatches(id: nat, read: ReadResult, merged: seq<Artifact>, text: string -> string)
    requires Prepared(id, read, merged, text).Some?
    requires read.Pair? ==> Matches(read.file, read.sidecar)
    ensures var (file, sidecar) := Prepared(id, read, merged, text).value;
      && Matches(file, sidecar) && file.ref == Some(id) && sidecar.ref == id
      && IsWritten(Job(read, merged, text), file, sidecar)
  {
    hide Write, Accepted;
    assert forall i :: 0 <= i < |Existing(read).entries| ==> Existing(read).entries[i].path != "" by {
      if read.Pair? {
        assert Accepted(RegistryOf(read.file, read.sidecar));
        AcceptedPaths(RegistryOf(read.file, read.sidecar));
      }
    }
    WrittenIsAccepted(Existing(read), merged, text);
    var after := Write(Existing(read), merged, text).value;
    var (file, sidecar) := Prepared(id, read, merged, text).value;
    assert RegistryOf(file, sidecar) == after;
    assert IsBase(read, Existing(read));
  }

  lemma AcceptedPaths(r: Registry)
    requires Accepted(r)
    ensures forall i :: 0 <= i < |r.entries| ==> r.entries[i].path != ""
  {}

  lemma ReadStepOk(s: Sys, r: ReadState)
    requires Inv(s) && ReadOk(s, r)
    ensures ReadOk(s, ReadStep(s.disk, s.commits, r))
  {
    assert forall file, sidecar :: Matches(file, sidecar) ==> file.ref == Some(sidecar.ref);
    hide Matches;
  }

  /** A commit replaces the public file by one that no one has seen. */
  lemma CommitKeeps(s: Sys, id: nat)
    requires Inv(s) && id in s.procs && s.procs[id].SidecarWritten?
    ensures Inv(Next(s, Advance(id)))
  {
    hide IsWritten;
  }

  /** A writer that is done reading moves on with a pair that is bound and that is the write of what it read. */
  lemma PreparedOk(s: Sys, id: nat)
    requires Inv(s) && id in s.procs && s.procs[id].WriterReading?
    requires id in Next(s, Advance(id)).procs
    ensures ProcOk(Next(s, Advance(id)), id, Next(s, Advance(id)).procs[id])
  {
    assert forall file, sidecar :: Matches(file, sidecar) ==> file.ref == Some(sidecar.ref);
    hide Matches, Prepared, IsWritten;
    assert ProcOk(s, id, s.procs[id]);
    var p := s.procs[id];
    if !p.read.Finished? {
      ReadStepOk(s, p.read);
    } else {
      PreparedMatches(id, p.read.result, p.merged, p.text);
      PreparedBinding(id, p.read.result, p.merged, p.text);
    }
  }

  lemma PrepareKeeps(s: Sys, id: nat)
    requires Inv(s) && id in s.procs && s.procs[id].WriterReading?
    ensures Inv(Next(s, Advance(id)))
  {
    var t := Next(s, Advance(id));
    assert ProcOk(s, id, s.procs[id]);
    if id in t.procs { PreparedOk(s, id); }
    hide Matches, Prepared, IsWritten, ReadStep;
    forall x | x in t.procs && x != id ensures x in t.used && ProcOk(t, x, t.procs[x]) {
      assert ProcOk(s, x, s.procs[x]);
      OtherStays(s, t, id, x);
    }
  }

  /** A new sidecar under an id that was never published concerns no one else. */
  lemma OtherStays(s: Sys, t: Sys, id: nat, x: nat)
    requires Inv(s) && x in s.procs && ProcOk(s, x, s.procs[x]) && x != id && id !in s.published
    requires t == s.(disk := t.disk, procs := t.procs) && x in t.procs && t.procs[x] == s.procs[x]
    requires t.disk.public == s.disk.public
    requires forall r :: r != id ==> (r in t.disk.sidecars <==> r in s.disk.sidecars)
    requires forall r :: r != id && r in s.disk.sidecars ==> t.disk.sidecars[r] == s.disk.sidecars[r]
    ensures ProcOk(t, x, t.procs[x])
  {
    assert forall file, sidecar :: Matches(file, sidecar) ==> file.ref == Some(sidecar.ref);
    hide Matches, IsWritten;
    if s.procs[x].SidecarWritten? && s.procs[x].job.base.Pair? { BaseMatches(s, x); }
  }

  lemma BaseMatches(s: Sys, x: nat)
    requires x in s.procs && s.procs[x].SidecarWritten? && s.procs[x].job.base.Pair? && ProcOk(s, x, s.procs[x])
    ensures s.procs[x].job.base.file.ref == Some(s.procs[x].job.base.sidecar.ref)
  {}

  lemma PreparedBinding(id: nat, read: ReadResult, merged: seq<Artifact>, text: string -> string)
    requires Prepared(id, read, merged, text).Some?
    ensures Prepared(id, read, merged, text).value.0.ref == Some(id)
  {
    hide Write;
  }

  lemma CleanupKeeps(s: Sys, id: nat)
    requires Inv(s) && id in s.procs && s.procs[id].Published?
    ensures Inv(Next(s, Advance(id)))
  {
    hide IsWritten;
  }

  lemma NextKeeps(s: Sys, e: Event)
    requires Inv(s)
    ensures Inv(Next(s, e))
  {
    hide Matches, Prepared, AdvanceWriter, IsWritten;
    var t := Next(s, e);
    if e.Advance? && e.id in s.procs && !s.procs[e.id].ReadOnly? {
      match s.procs[e.id] {
        case WriterReading(_, _, _) => PrepareKeeps(s, e.id);
        case SidecarWritten(_, _, _) => CommitKeeps(s, e.id);
        case Published(_) => CleanupKeeps(s, e.id);
      }
    } else {
      if e.Advance? && e.id in s.procs {
        assert ProcOk(s, e.id, s.procs[e.id]);
        ReadStepOk(s, s.procs[e.id].read);
      }
      forall x | x in t.procs ensures x in t.used && ProcOk(t, x, t.procs[x]) {
        assert x in s.procs ==> ProcOk(s, x, s.procs[x]);
      }
    }
  }

  lemma {:induction false} RunKeeps(s: Sys, events: seq<Event>)
    requires Inv(s)
    ensures Inv(Run(s, events))
    decreases |events|
  {
    if events != [] {
      NextKeeps(s, events[0]);
      RunKeeps(Next(s, events[0]), events[1..]);
    }
  }

  // ---------------------------------------------------------------- main results

  /** However writers, readers and crashes interleave, the sidecar that the public file names is on disk,
      bound to exactly that content, and acceptable to a reader. */
  lemma PublicFileAlwaysBound(s: Sys, events: seq<Event>)
    requires Initial(s)
    ensures var d := Run(s, events).disk;
      d.public.Some? && d.public.value.ref.Some? ==>
        && d.public.value.ref.value in d.sidecars
        && var sidecar := d.sidecars[d.public.value.ref.value];
        sidecar.binding == d.public.value && Accepted(RegistryOf(d.public.value, sidecar))
  {
    RunKeeps(s, events);
  }

  /** A read returns a matching pair, or a file that has no sidecar, or nothing while there never was a file; it fails
      only when at least two commits happened while it was under way, and never on a mismatch. */
  lemma ReadersSeePairs(s: Sys, events: seq<Event>, id: nat)
    requires Initial(s)
    requires id in Run(s, events).procs && Run(s, events).procs[id].ReadOnly? && Run(s, events).procs[id].read.Finished?
    ensures var read := Run(s, events).procs[id].read;
      && (read.result.Pair? ==>
            read.result.sidecar.binding == read.result.file
              && Accepted(RegistryOf(read.result.file, read.result.sidecar)))
      && !read.result.Mismatch?
      && (read.result.KeptChanging? ==> read.ended >= read.started + 2)
      && (read.result.Nothing? ==> s.disk.public.None? && read.ended == 0)
  {
    RunKeeps(s, events);
    if s.disk.public.Some? { RunFindsFile(s, events); }
    assert ProcOk(Run(s, events), id, Run(s, events).procs[id]);
  }

  /** There is a public file, and no one has seen none. */
  ghost predicate FileFound(s: Sys) {
    && s.disk.public.Some?
    && forall id :: id in s.procs && s.procs[id].ReadOnly? && s.procs[id].read.Finished? ==>
         !s.procs[id].read.result.Nothing?
  }

  lemma {:induction false} RunFindsFile(s: Sys, events: seq<Event>)
    requires FileFound(s)
    ensures FileFound(Run(s, events))
    decreases |events|
  {
    hide Matches, Prepared;
    if events != [] { RunFindsFile(Next(s, events[0]), events[1..]); }
  }

  /** What a reader makes of a public file, given the disk on which it looks for the sidecar. */
  ghost predicate Settles(file: PublicFile, d: Disk) {
    file.ref.None? || (file.ref.value in d.sidecars && Matches(file, d.sidecars[file.ref.value]))
  }

  ghost function Settled(file: PublicFile, d: Disk): ReadResult
    requires Settles(file, d)
  {
    if file.ref.None? then Bare(file) else Pair(file, d.sidecars[file.ref.value])
  }

  /** A read of any disks, even ones that no writer leaves behind, with one for each of its five accesses: it takes the
      first public file whose sidecar fits, reports a mismatch when a file that does not fit is still there, nothing
      when the file is gone, and gives up on the second change. */
  lemma ReadsAnyDisks(d: seq<Disk>, c: seq<nat>)
    requires |d| == |c| == 5
    ensures var r0 := ReadStep(d[0], c[0], Opening);
      var r1 := ReadStep(d[1], c[1], r0);
      var r2 := ReadStep(d[2], c[2], r1);
      var r3 := ReadStep(d[3], c[3], r2);
      var r4 := ReadStep(d[4], c[4], r3);
      r4.Finished? && r4.result ==
        if d[0].public.None? then Nothing
        else if Settles(d[0].public.value, d[1]) then Settled(d[0].public.value, d[1])
        else if d[2].public.None? then Nothing
        else if d[2].public == d[0].public then Mismatch
        else if Settles(d[2].public.value, d[3]) then Settled(d[2].public.value, d[3])
        else if d[4].public.None? then Nothing
        else if d[4].public == d[2].public then Mismatch
        else KeptChanging
  {
    hide Matches;
  }

  /** A lone reader of a reachable disk finds the current pair, with every private path of its last write. */
  lemma QuietReadFindsCurrent(s: Sys, events: seq<Event>)
    requires Initial(s)
    requires var d := Run(s, events).disk; d.public.Some? && d.public.value.ref.Some?
    ensures var t := Run(s, events);
      var file := t.disk.public.value;
      file.ref.value in t.disk.sidecars &&
      ReadStep(t.disk, t.commits, ReadStep(t.disk, t.commits, Opening))
        == Finished(Pair(file, t.disk.sidecars[file.ref.value]), t.commits, t.commits)
  {
    RunKeeps(s, events);
  }

  /** A commit is one writer's step from its sidecar to the public file; only commits change that file, and each counts
      once. */
  lemma CommitsCount(s: Sys, e: Event)
    ensures var t := Next(s, e);
      var commits := e.Advance? && e.id in s.procs && s.procs[e.id].SidecarWritten?;
      && t.commits == s.commits + (if commits then 1 else 0)
      && (if commits then t.disk.public == Some(s.procs[e.id].file) else t.disk.public == s.disk.public)
  {
    hide Matches, Prepared;
  }

  // ---------------------------------------------------------------- what a commit keeps

  /** The raw paths that the current pair keeps. */
  ghost function Kept(d: Disk): set<string> {
    if d.public.Some? && d.public.value.ref.Some? && d.public.value.ref.value in d.sidecars
    then RawPaths(RegistryOf(d.public.value, d.sidecars[d.public.value.ref.value])) else {}
  }

  ghost function KeptBy(base: ReadResult): set<string> {
    if base.Pair? then (set e | e in base.sidecar.entries :: e.path) + base.sidecar.historical else {}
  }

  lemma BaseKeeps(base: ReadResult, r: Registry)
    requires IsBase(base, r)
    ensures RawPaths(r) == KeptBy(base)
  {
    forall p ensures p in RawPaths(r) <==> p in KeptBy(base) {
      if base.Pair? {
        if i :| 0 <= i < |r.entries| && r.entries[i].path == p { assert r.entries[i] in base.sidecar.entries; }
      }
    }
  }

  /** Over every run, a commit follows a read that did not fail, and publishes the write of what its writer was given
      over the pair that it read. So it keeps the raw paths of that pair, and forgets one that is currently kept only
      when another commit came in between; the next step removes the sidecar of that pair and nothing else. */
  lemma CommitKeepsWhatItRead(s: Sys, events: seq<Event>, id: nat, path: string)
    requires Initial(s) && id in Run(s, events).procs && Run(s, events).procs[id].SidecarWritten?
    ensures var t := Run(s, events);
      var job, before, after := t.procs[id].job, t.disk, Next(t, Advance(id)).disk;
      && after.public.Some? && after.public.value.ref == Some(id) && id in after.sidecars
      && !job.base.Mismatch? && !job.base.KeptChanging?
      && IsWritten(job, after.public.value, after.sidecars[id])
      && KeptBy(job.base) <= Kept(after)
      && (path in Kept(after) ==> path in KeptBy(job.base) || exists a :: a in job.merged && PathOf(a) == Some(path))
      && (job.base.Pair? && before.public == Some(job.base.file) ==> Kept(before) <= Kept(after))
      && var cleaned := Next(Next(t, Advance(id)), Advance(id)).disk;
      cleaned == after.(sidecars := if job.base.Pair? then after.sidecars - {job.base.sidecar.ref} else after.sidecars)
  {
    RunKeeps(s, events);
    var t := Run(s, events);
    var p := t.procs[id];
    assert ProcOk(t, id, p);
    CommitKeeps(t, id);
    var after := Next(t, Advance(id)).disk;
    var stored := RegistryOf(p.file, t.disk.sidecars[id]);
    assert Kept(after) == RawPaths(stored);
    var r :| IsBase(p.job.base, r) && Write(r, p.job.merged, p.job.text) == Some(stored);
    hide Run, Inv, Write, RawPaths;
    BaseKeeps(p.job.base, r);
    NoRawPathForgotten(r, p.job.merged, p.job.text);
    if path in RawPaths(stored) { OnlySuppliedIsKept(r, p.job.merged, p.job.text, path); }
    if p.job.base.Pair? && t.disk.public == Some(p.job.base.file) {
      assert Kept(t.disk) == KeptBy(p.job.base) by { CurrentIsBase(t, p.job.base); }
    }
  }

  lemma CurrentIsBase(t: Sys, base: ReadResult)
    requires Inv(t) && base.Pair? && Matches(base.file, base.sidecar) && t.disk.public == Some(base.file)
    requires Unchanged(t.disk, base.sidecar)
    ensures Kept(t.disk) == KeptBy(base)
  {}

  // ---------------------------------------------------------------- a writer on its own

  /** The registry of a disk, its generation and the reference of its sidecar. */
  ghost predicate IsCurrent(d: Disk, r: Registry, generation: nat, ref: Option<nat>) {
    if d.public.None? then r == NoRegistry && generation == 0 && ref.None?
    else
      && generation == d.public.value.generation && ref == d.public.value.ref && r.artifacts == d.public.value.artifacts
      && if ref.None? then r.entries == [] && r.historical == {}
         else ref.value in d.sidecars
              && r.entries == d.sidecars[ref.value].entries && r.historical == d.sidecars[ref.value].historical
  }

  ghost function Steps(s: Sys, id: nat, n: nat): Sys {
    if n == 0 then s else Next(Steps(s, id, n - 1), Advance(id))
  }

  /** A read that nothing disturbs ends with the current registry after at most two steps. */
  lemma QuietRead(d: Disk, commits: nat) returns (n: nat, r: Registry, generation: nat, ref: Option<nat>)
    requires PublicBound(d)
    ensures n == (if d.public.None? then 1 else 2) && IsCurrent(d, r, generation, ref)
    ensures var one := ReadStep(d, commits, Opening);
      var read := if n == 1 then one else ReadStep(d, commits, one);
      && (n == 2 ==> !one.Finished?)
      && read.Finished? && !read.result.Mismatch? && !read.result.KeptChanging?
      && Existing(read.result) == r && PreviousGeneration(read.result) == generation
      && PreviousRef(read.result) == ref
  {
    if d.public.None? {
      n, r, generation, ref := 1, NoRegistry, 0, None;
    } else {
      n, generation, ref := 2, d.public.value.generation, d.public.value.ref;
      r := if ref.None? then Registry(d.public.value.artifacts, [], {})
           else RegistryOf(d.public.value, d.sidecars[ref.value]);
    }
  }

  lemma {:induction false} StepsSplit(s: Sys, id: nat, m: nat, n: nat)
    ensures Steps(s, id, m + n) == Steps(Steps(s, id, m), id, n)
  {
    if n > 0 {
      StepsSplit(s, id, m, n - 1);
      hide Next;
      assert m + n - 1 == m + (n - 1);
    }
  }

  lemma {:induction false} StepsWhenGone(s: Sys, id: nat, n: nat)
    requires id !in s.procs
    ensures Steps(s, id, n) == s
  {
    if n > 0 { StepsWhenGone(s, id, n - 1); }
  }

  lemma WriterReads(s: Sys, id: nat, merged: seq<Artifact>, text: string -> string, n: nat)
    requires id in s.procs && s.procs[id] == WriterReading(Opening, merged, text) && 1 <= n <= 2
    requires n == 2 ==> !ReadStep(s.disk, s.commits, Opening).Finished?
    ensures var one := ReadStep(s.disk, s.commits, Opening);
      var read := if n == 1 then one else ReadStep(s.disk, s.commits, one);
      Steps(s, id, n) == s.(procs := s.procs[id := WriterReading(read, merged, text)])
  {
    hide ReadStep;
    assert Steps(s, id, 0) == s;
    var one := ReadStep(s.disk, s.commits, Opening);
    assert Steps(s, id, 1) == s.(procs := s.procs[id := WriterReading(one, merged, text)]);
  }

  lemma PreparedIs(id: nat, read: ReadResult, merged: seq<Artifact>, text: string -> string)
    ensures var after, prepared := Write(Existing(read), merged, text), Prepared(id, read, merged, text);
      && (prepared.None? <==> after.None? || PreviousGeneration(read) >= MAX_GENERATION)
      && (prepared.Some? ==>
            && prepared.value.0.ref == Some(id) && prepared.value.0.generation == PreviousGeneration(read) + 1
            && after == Some(RegistryOf(prepared.value.0, prepared.value.1)))
  {
    hide Write;
  }

  /** Sidecar, public file, clean-up. */
  lemma WriterPublishes(
    s: Sys, id: nat, read: ReadResult, merged: seq<Artifact>, text: string -> string, a: nat, b: nat
  )
    requires id in s.procs && s.procs[id] == WriterReading(Finished(read, a, b), merged, text)
    requires !read.Mismatch? && !read.KeptChanging?
    ensures var u, prepared := Steps(s, id, 3), Prepared(id, read, merged, text);
      && id !in u.procs
      && if prepared.None? then u.disk == s.disk
         else
           && u.disk.public == Some(prepared.value.0)
           && u.disk.sidecars == s.disk.sidecars[id := prepared.value.1]
                - (if PreviousRef(read).Some? then {PreviousRef(read).value} else {})
  {
    hide Prepared, ReadStep;
    assert Steps(s, id, 0) == s;
    var prepared := Prepared(id, read, merged, text);
    var s1 := Steps(s, id, 1);
    if prepared.None? {
      assert s1 == s.(procs := s.procs - {id});
      StepsSplit(s, id, 1, 2);
      StepsWhenGone(s1, id, 2);
    } else {
      var file := prepared.value.0;
      assert s1.procs[id] == SidecarWritten(file, PreviousRef(read), Job(read, merged, text));
      var s2 := Steps(s, id, 2);
      assert s2 == Next(s1, Advance(id));
      assert s2.disk == s1.disk.(public := Some(file)) && s2.procs[id] == Published(PreviousRef(read));
      assert Steps(s, id, 3) == Next(s2, Advance(id));
    }
  }

  lemma QuietFrom(s: Sys, id: nat, merged: seq<Artifact>, text: string -> string, n: nat)
    requires id in s.procs && s.procs[id] == WriterReading(Opening, merged, text) && 1 <= n <= 2
    requires n == 2 ==> !ReadStep(s.disk, s.commits, Opening).Finished?
    requires var one := ReadStep(s.disk, s.commits, Opening);
      var read := if n == 1 then one else ReadStep(s.disk, s.commits, one);
      read.Finished? && !read.result.Mismatch? && !read.result.KeptChanging?
    ensures var one := ReadStep(s.disk, s.commits, Opening);
      var read := (if n == 1 then one else ReadStep(s.disk, s.commits, one)).result;
      var u, prepared := Steps(s, id, 5), Prepared(id, read, merged, text);
      && id !in u.procs
      && if prepared.None? then u.disk == s.disk
         else
           && u.disk.public == Some(prepared.value.0)
           && u.disk.sidecars == s.disk.sidecars[id := prepared.value.1]
                - (if PreviousRef(read).Some? then {PreviousRef(read).value} else {})
  {
    hide ReadStep, Prepared, Next, PreviousRef;
    WriterReads(s, id, merged, text, n);
    var ready := Steps(s, id, n);
    var read := ready.procs[id].read;
    WriterPublishes(ready, id, read.result, merged, text, read.started, read.ended);
    StepsSplit(s, id, n, 3);
    StepsSplit(s, id, n + 3, 2 - n);
    hide Steps;
    StepsWhenGone(Steps(s, id, n + 3), id, 2 - n);
  }

  /** In any reachable state a writer that nothing disturbs publishes the write of its input over the current registry,
      one generation later, and removes the sidecar that was replaced; exactly when the write throws or the generation
      is exhausted, it leaves the disk as it was. */
  lemma QuietWriterPublishes(s: Sys, events: seq<Event>, id: nat, merged: seq<Artifact>, text: string -> string)
    returns (r: Registry, generation: nat, ref: Option<nat>)
    requires Initial(s) && id !in Run(s, events).used
    ensures var t := Run(s, events);
      var d, u := t.disk, Steps(Next(t, EnterWriter(id, merged, text)), id, 5);
      && IsCurrent(d, r, generation, ref) && id !in u.procs
      && if Write(r, merged, text).None? || generation >= MAX_GENERATION then u.disk == d
         else
           && u.disk.public.Some? && u.disk.public.value.ref == Some(id) && id in u.disk.sidecars
           && Write(r, merged, text) == Some(RegistryOf(u.disk.public.value, u.disk.sidecars[id]))
           && u.disk.public.value.generation == generation + 1
           && u.disk.sidecars.Keys == d.sidecars.Keys + {id} - (if ref.Some? then {ref.value} else {})
  {
    RunKeeps(s, events);
    var t := Run(s, events);
    var n;
    n, r, generation, ref := QuietRead(t.disk, t.commits);
    var start := Next(t, EnterWriter(id, merged, text));
    assert start.procs[id] == WriterReading(Opening, merged, text) && start.disk == t.disk
      && start.commits == t.commits;
    assert ref.Some? ==> ref.value in t.used;
    hide Run, Write, ReadStep, Inv, PublicBound, Next, Prepared, Existing, PreviousGeneration, PreviousRef, IsCurrent;
    hide Steps;
    QuietFrom(start, id, merged, text, n);
    var one := ReadStep(t.disk, t.commits, Opening);
    PreparedIs(id, (if n == 1 then one else ReadStep(t.disk, t.commits, one)).result, merged, text);
  }
}
