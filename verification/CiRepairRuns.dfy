/** Whole runs of CI repair drivers: one that nobody disturbs, one that resumes, and two side by side. */
module CiRepairRuns {
  import opened Text
  import Claims
  import ClaimSafety
  import opened CiRepair

  // ---------------------------------------------------------------- a run from submit to verdict

  predicate DistinctDomains(domains: seq<string>) {
    domains != [] && forall i, j :: 0 <= i < j < |domains| ==> domains[i] != domains[j]
  }

  lemma FirstIsAdmitted(domains: seq<string>, head: string, runId: string, key: string)
    requires DistinctDomains(domains)
    ensures Claims.Propose(Claims.EmptyDb, domains, Claims.Snapshot(Claims.EmptyDb, domains, head), runId, key)
      == (Claims.EmptyDb.(claims := Claims.ClaimRows(map[], Claims.SetOf(domains), key, runId,
            Claims.Snapshot(Claims.EmptyDb, domains, head))), Claims.Proceed)
  {
    hide Claims.ClaimRows, CursorText, NormalizeHead;
    var seen := Claims.Snapshot(Claims.EmptyDb, domains, head);
    forall d | d in domains ensures !Claims.Stale(Claims.EmptyDb, d, seen) {
      CursorHead(0, NormalizeHead(head));
    }
    assert Claims.StaleLines(Claims.EmptyDb, domains, seen) == [];
    assert Claims.ForeignOwner(map[], domains, key).None?;
  }

  ghost function Opened(cfg: ClaimSafety.Config): ClaimSafety.Sys {
    var g1 := ClaimSafety.Next(ClaimSafety.Start, ClaimSafety.Enter(0, cfg));
    var g2 := ClaimSafety.Next(g1, ClaimSafety.TakeSnapshot(0));
    ClaimSafety.Next(g2, ClaimSafety.ProposeStep(0))
  }

  /** Rows inserted into an empty table are the caller's own. */
  lemma InsertedRowsOwned(domains: seq<string>, key: string, runId: string, seen: map<string, string>)
    requires DistinctDomains(domains)
    ensures Claims.AllOwned(Claims.ClaimRows(map[], Claims.SetOf(domains), key, runId, seen), domains, key, runId,
      Claims.Claimed)
  {}

  lemma OpenedIsAdmitted(cfg: ClaimSafety.Config)
    requires DistinctDomains(cfg.domains)
    ensures ClaimSafety.At(Opened(cfg), 0, ClaimSafety.Admitted) && Opened(cfg).callers[0].cfg == cfg
    ensures Claims.AllOwned(Opened(cfg).db.claims, cfg.domains, cfg.key, cfg.runId, Claims.Claimed)
  {
    var seen := Claims.Snapshot(Claims.EmptyDb, cfg.domains, cfg.observedHead);
    FirstIsAdmitted(cfg.domains, cfg.observedHead, cfg.runId, cfg.key);
    InsertedRowsOwned(cfg.domains, cfg.key, cfg.runId, seen);
    hide Claims.Propose, Claims.Snapshot, Claims.ClaimRows, Claims.AllOwned, Claims.SetOf, DistinctDomains;
  }

  lemma AdmittedCompletes(g: ClaimSafety.Sys, cfg: ClaimSafety.Config, record: Claims.EffectRecord)
    requires ClaimSafety.At(g, 0, ClaimSafety.Admitted) && g.callers[0].cfg == cfg
    requires Claims.AllOwned(g.db.claims, cfg.domains, cfg.key, cfg.runId, Claims.Claimed)
    requires Claims.RecordLength(Claims.Stored(record)) <= Claims.RECORD_LIMIT
    ensures var armed := ClaimSafety.Next(g, ClaimSafety.MarkStep(0));
      var returned := ClaimSafety.Next(armed, ClaimSafety.EffectStep(0));
      && ClaimSafety.At(armed, 0, ClaimSafety.Armed) && armed.callers[0].cfg == cfg
      && ClaimSafety.At(returned, 0, ClaimSafety.Returned) && returned.callers[0].cfg == cfg
      && Claims.CanComplete(returned.db, cfg.domains, cfg.key, cfg.runId, record)
  {
    hide Claims.RecordLength, Claims.Stored;
    var armed := ClaimSafety.Next(g, ClaimSafety.MarkStep(0));
    forall i | 0 <= i < |cfg.domains|
      ensures !Claims.BadAt(armed.db.claims, cfg.domains, i, cfg.key, cfg.runId, Claims.Unknown)
    {
      assert !Claims.BadAt(g.db.claims, cfg.domains, i, cfg.key, cfg.runId, Claims.Claimed);
    }
  }

  function Entering(job: Job, diagnosis: Class): seq<Event> {
    [Submit(0, false, false, job.head, diagnosis), SaveDiagnosis(0), Begin(0, true)]
  }

  function Arming(): seq<Event> { [GuardStep(0), GuardStep(0), GuardStep(0)] }

  /** From the submission to the repair effect. */
  function ToEffect(job: Job, diagnosis: Class, updated: string): seq<Event> {
    Entering(job, diagnosis) + (Arming() + [Effect(0, Some(updated))])
  }

  /** From the submission to the recorded update. */
  function Opening(job: Job, diagnosis: Class, updated: string): seq<Event> {
    ToEffect(job, diagnosis, updated) + [GuardComplete(0), SaveUpdate(0)]
  }

  function Fixing(diagnosis: Class, head: string, e: Evidence, phase: Phase): Driver {
    Driver(diagnosis, head, true, Initial, e, phase)
  }

  /** Before the guarded mutation. */
  lemma OpeningEnters(job: Job, diagnosis: Class)
    requires job.github && diagnosis in {CodeConfiguration, TestExpectation}
    ensures var d := Fixing(diagnosis, job.head, Initial, Guarding);
      Run(job, Start, Entering(job, diagnosis))
      == Sys(Some(Initial), ClaimSafety.Next(ClaimSafety.Start, ClaimSafety.Enter(0, ConfigOf(job, d))), map[0 := d], 0)
  {
    hide ClaimSafety.Next;
    var events := Entering(job, diagnosis);
    var s1 := Step(job, Start, events[0]);
    assert s1 == Sys(Some(Initial), ClaimSafety.Start, map[0 := Fixing(diagnosis, job.head, Initial, Entered)], 0);
    var s2 := Step(job, s1, events[1]);
    assert s2 == Sys(Some(Initial), ClaimSafety.Start, map[0 := Fixing(diagnosis, job.head, Initial, Diagnosed)], 0);
    var s3 := Step(job, s2, events[2]);
    hide Step;
    RunThree(job, Start, events);
  }

  lemma RunThree(job: Job, s: Sys, events: seq<Event>)
    requires |events| == 3
    ensures Run(job, s, events) == Step(job, Step(job, Step(job, s, events[0]), events[1]), events[2])
  {
    hide Step;
    var s1 := Step(job, s, events[0]);
    var s2 := Step(job, s1, events[1]);
    assert Run(job, s, events) == Run(job, s1, events[1..]);
    assert Run(job, s1, events[1..]) == Run(job, s2, events[1..][1..]);
    assert events[1..][1..] == [events[2]];
    assert Run(job, s2, [events[2]]) == Run(job, Step(job, s2, events[2]), []);
  }

  lemma {:induction false} RunSplits(job: Job, s: Sys, before: seq<Event>, after: seq<Event>)
    ensures Run(job, s, before + after) == Run(job, Run(job, s, before), after)
    decreases |before|
  {
    if before == [] {
      assert before + after == after;
    } else {
      assert (before + after)[1..] == before[1..] + after;
      RunSplits(job, Step(job, s, before[0]), before[1..], after);
    }
  }

  lemma OpenedSnapshot(cfg: ClaimSafety.Config)
    ensures var g1 := ClaimSafety.Next(ClaimSafety.Start, ClaimSafety.Enter(0, cfg));
      var g2 := ClaimSafety.Next(g1, ClaimSafety.TakeSnapshot(0));
      && ClaimSafety.At(g1, 0, ClaimSafety.Entered)
      && 0 in g2.callers && g2.db == Claims.EmptyDb
      && g2.callers[0]
        == ClaimSafety.Caller(cfg, ClaimSafety.Snapped(Claims.Snapshot(Claims.EmptyDb, cfg.domains, cfg.observedHead)))
  {
    hide Claims.Snapshot;
  }

  lemma SnapshotTurn(job: Job, s: Sys, id: nat)
    requires At(s, id, Guarding) && ClaimSafety.At(s.guard, id, ClaimSafety.Entered)
    ensures Step(job, s, GuardStep(id)) == s.(guard := ClaimSafety.Next(s.guard, ClaimSafety.TakeSnapshot(id)))
  {
    hide ClaimSafety.Next, Claims.Propose;
  }

  /** The answers of a proposal that let a driver go on. */
  lemma ProposeTurn(job: Job, s: Sys, id: nat, cfg: ClaimSafety.Config, seen: map<string, string>)
    requires At(s, id, Guarding) && id in s.guard.callers && cfg.domains != []
    requires s.guard.callers[id] == ClaimSafety.Caller(cfg, ClaimSafety.Snapped(seen))
    ensures var decision := Claims.Propose(s.guard.db, cfg.domains, seen, cfg.runId, cfg.key).1;
      var t := s.(guard := ClaimSafety.Next(s.guard, ClaimSafety.ProposeStep(id)));
      && (decision.Proceed? ==> Step(job, s, GuardStep(id)) == t)
      && (decision.Replay? ==> Step(job, s, GuardStep(id)) == Goto(t, id, Updated(decision.record.head)))
  {
    hide ClaimSafety.Next, Claims.Propose;
  }

  lemma MarkTurn(job: Job, s: Sys, id: nat)
    requires At(s, id, Guarding) && ClaimSafety.At(s.guard, id, ClaimSafety.Admitted)
    requires ClaimSafety.At(ClaimSafety.Next(s.guard, ClaimSafety.MarkStep(id)), id, ClaimSafety.Armed)
    ensures Step(job, s, GuardStep(id)) == s.(guard := ClaimSafety.Next(s.guard, ClaimSafety.MarkStep(id)))
  {
    hide ClaimSafety.Next, Claims.Propose;
  }

  /** The guarded mutation up to the moment the effect may start. */
  lemma GuardArms(job: Job, s: Sys, cfg: ClaimSafety.Config)
    requires DistinctDomains(cfg.domains) && At(s, 0, Guarding)
    requires s.guard == ClaimSafety.Next(ClaimSafety.Start, ClaimSafety.Enter(0, cfg))
    requires ClaimSafety.At(ClaimSafety.Next(Opened(cfg), ClaimSafety.MarkStep(0)), 0, ClaimSafety.Armed)
    ensures Run(job, s, Arming())
         == s.(guard := ClaimSafety.Next(Opened(cfg), ClaimSafety.MarkStep(0)))
  {
    hide ClaimSafety.Next, Claims.Propose, Claims.Snapshot, Claims.ClaimRows, Step, Claims.AllOwned;
    OpenedSnapshot(cfg);
    OpenedIsAdmitted(cfg);
    FirstIsAdmitted(cfg.domains, cfg.observedHead, cfg.runId, cfg.key);
    SnapshotTurn(job, s, 0);
    var s4 := s.(guard := ClaimSafety.Next(s.guard, ClaimSafety.TakeSnapshot(0)));
    ProposeTurn(job, s4, 0, cfg, Claims.Snapshot(Claims.EmptyDb, cfg.domains, cfg.observedHead));
    var s5 := s.(guard := Opened(cfg));
    MarkTurn(job, s5, 0);
    RunThree(job, s, Arming());
  }

  lemma EffectTurn(job: Job, s: Sys, updated: string)
    requires At(s, 0, Guarding) && ClaimSafety.At(s.guard, 0, ClaimSafety.Armed)
    ensures Step(job, s, Effect(0, Some(updated)))
      == Goto(s.(guard := ClaimSafety.Next(s.guard, ClaimSafety.EffectStep(0)), repairs := s.repairs + 1), 0,
        Effected(updated))
  {
    hide ClaimSafety.Next, Claims.Propose;
  }

  lemma CompleteTurn(job: Job, s: Sys, cfg: ClaimSafety.Config, updated: string)
    requires At(s, 0, Effected(updated)) && ClaimSafety.At(s.guard, 0, ClaimSafety.Returned)
      && s.guard.callers[0].cfg == cfg
    requires Claims.CanComplete(s.guard.db, cfg.domains, cfg.key, cfg.runId, Claims.EffectRecord(None, updated))
    ensures var t := Step(job, s, GuardComplete(0));
      && t == Goto(s.(guard := t.guard), 0, Updated(updated))
      && t.guard.callers == s.guard.callers - {0}
      && t.guard.db == Claims.Complete(s.guard.db, cfg.domains, cfg.key, cfg.runId, Claims.EffectRecord(None, updated))
  {
    hide Claims.Propose, Claims.CanComplete, Claims.Complete;
  }

  lemma UpdateTurn(job: Job, s: Sys, id: nat, updated: string)
    requires At(s, id, Updated(updated))
    ensures Step(job, s, SaveUpdate(id)) == Save(s, id, s.drivers[id].evidence.(update := Some(updated)), Applied)
  {
    hide ClaimSafety.Next, Claims.Propose;
  }

  lemma {:induction false} HeadNeedsNoEscapes(h: string)
    requires forall i :: 0 <= i < |h| ==> HeadChar(h[i])
    ensures Claims.EscapedLength(h) == |h|
  {
    if h != "" { HeadNeedsNoEscapes(h[1..]); }
  }

  /** The record of a repair is never too large to be stored. */
  lemma RepairRecordFits(updated: string)
    ensures Claims.RecordLength(Claims.Stored(Claims.EffectRecord(None, updated))) <= Claims.RECORD_LIMIT
  {
    HeadNeedsNoEscapes(NormalizeHead(updated));
  }

  lemma RunTwo(job: Job, s: Sys, e: Event, f: Event)
    ensures Run(job, s, [e]) == Step(job, s, e)
    ensures Run(job, s, [e, f]) == Step(job, Step(job, s, e), f)
  {
    hide Step;
    assert [e, f][1..] == [f] && [f][1..] == [] && [e][1..] == [];
    assert Run(job, Step(job, s, e), [f]) == Run(job, Step(job, Step(job, s, e), f), []);
    assert Run(job, Step(job, s, e), []) == Step(job, s, e);
  }

  /** The only driver's effect returned and can be completed; its row is still the initial one. */
  ghost predicate AfterEffect(job: Job, s: Sys, diagnosis: Class, updated: string) {
    && s.row == Some(Initial) && s.repairs == 1
    && s.drivers == map[0 := Fixing(diagnosis, job.head, Initial, Effected(updated))]
    && s.guard.callers.Keys == {0} && s.guard.callers[0].phase.Returned?
    && var cfg := s.guard.callers[0].cfg;
    && cfg == ConfigOf(job, s.drivers[0])
    && Claims.CanComplete(s.guard.db, cfg.domains, cfg.key, cfg.runId, Claims.EffectRecord(None, updated))
  }

  /** An undisturbed driver gets from the submission to its effect. */
  lemma ReachesEffect(job: Job, diagnosis: Class, updated: string)
    requires job.github && diagnosis in {CodeConfiguration, TestExpectation} && DistinctDomains(job.domains)
    ensures AfterEffect(job, Run(job, Start, ToEffect(job, diagnosis, updated)), diagnosis, updated)
  {
    hide ClaimSafety.Next, Claims.Propose, Claims.Snapshot, Claims.AllOwned, Claims.CanComplete, Claims.RecordLength;
    hide Step, Run, Opened;
    var d := Fixing(diagnosis, job.head, Initial, Guarding);
    var cfg := ConfigOf(job, d);
    OpeningEnters(job, diagnosis);
    OpenedIsAdmitted(cfg);
    RepairRecordFits(updated);
    AdmittedCompletes(Opened(cfg), cfg, Claims.EffectRecord(None, updated));
    OnlyCaller(cfg);
    var s3 := Run(job, Start, Entering(job, diagnosis));
    GuardArms(job, s3, cfg);
    var s6 := Run(job, s3, Arming());
    EffectTurn(job, s6, updated);
    RunTwo(job, s6, Effect(0, Some(updated)), SaveUpdate(0));
    RunSplits(job, Start, Entering(job, diagnosis), Arming() + [Effect(0, Some(updated))]);
    RunSplits(job, s3, Arming(), [Effect(0, Some(updated))]);
  }

  /** An undisturbed driver gets from the submission to the recorded update. */
  lemma Opens(job: Job, diagnosis: Class, updated: string)
    requires job.github && diagnosis in {CodeConfiguration, TestExpectation} && DistinctDomains(job.domains)
    ensures var t := Run(job, Start, Opening(job, diagnosis, updated));
      var e := Initial.(update := Some(updated));
      && t.row == Some(e) && t.drivers == map[0 := Fixing(diagnosis, job.head, e, Applied)]
      && t.guard.callers == map[] && t.repairs == 1
  {
    hide ClaimSafety.Next, Claims.CanComplete, Claims.Complete, Step, Run, ToEffect;
    ReachesEffect(job, diagnosis, updated);
    var s7 := Run(job, Start, ToEffect(job, diagnosis, updated));
    CompleteTurn(job, s7, s7.guard.callers[0].cfg, updated);
    var s8 := Step(job, s7, GuardComplete(0));
    UpdateTurn(job, s8, 0, updated);
    RunTwo(job, s7, GuardComplete(0), SaveUpdate(0));
    RunSplits(job, Start, ToEffect(job, diagnosis, updated), [GuardComplete(0), SaveUpdate(0)]);
  }

  lemma OnlyCaller(cfg: ClaimSafety.Config)
    requires ClaimSafety.At(Opened(cfg), 0, ClaimSafety.Admitted)
    requires ClaimSafety.At(ClaimSafety.Next(Opened(cfg), ClaimSafety.MarkStep(0)), 0, ClaimSafety.Armed)
    ensures var armed := ClaimSafety.Next(Opened(cfg), ClaimSafety.MarkStep(0));
      && armed.callers.Keys == {0}
      && ClaimSafety.Next(armed, ClaimSafety.EffectStep(0)).callers.Keys == {0}
  {
    hide Claims.Propose, Claims.Snapshot, Claims.AllOwned, Claims.Mark;
  }

  // ---------------------------------------------------------------- checks, review and remote result

  function Round(id: nat, head: string, passed: bool): seq<Event> {
    [RunLocalChecks(id, Some(true)), RunReview(id, Some(true)), Observe(id, Some(Observation(head, passed)))]
  }

  lemma ChecksTurn(job: Job, s: Sys, id: nat, passed: bool)
    requires At(s, id, Applied) && s.drivers[id].evidence.localChecks.None?
    ensures var d := s.drivers[id];
      var e := d.evidence.(localChecks := Some(passed));
      Step(job, s, RunLocalChecks(id, Some(passed)))
      == s.(row := Some(e), drivers := s.drivers[id :=
        d.(evidence := e, phase := if passed then Checked else Ending(NeedsHuman, d.claimed.count))])
  {}

  lemma ReviewTurn(job: Job, s: Sys, id: nat)
    requires At(s, id, Checked) && s.drivers[id].evidence.review.None?
    ensures var e := s.drivers[id].evidence.(review := Some(true));
      Step(job, s, RunReview(id, Some(true)))
      == s.(row := Some(e), drivers := s.drivers[id := s.drivers[id].(evidence := e, phase := Reviewed)])
  {}

  /** Recorded verdicts are passed over. */
  lemma RecordedTurn(job: Job, s: Sys, id: nat, verdict: Option<bool>)
    ensures At(s, id, Applied) && s.drivers[id].evidence.localChecks == Some(true) ==>
      Step(job, s, RunLocalChecks(id, verdict)) == Goto(s, id, Checked)
    ensures At(s, id, Checked) && s.drivers[id].evidence.review == Some(true) ==>
      Step(job, s, RunReview(id, verdict)) == Goto(s, id, Reviewed)
  {}

  lemma ObserveTurn(job: Job, s: Sys, id: nat, head: string, passed: bool)
    requires At(s, id, Reviewed) && s.drivers[id].evidence.update == Some(head)
    ensures var d := s.drivers[id];
      var e := Observed(d.evidence, Observation(head, passed));
      Step(job, s, Observe(id, Some(Observation(head, passed))))
      == s.(row := Some(e), drivers := s.drivers[id :=
        d.(evidence := e, phase := Ending(if passed then Repaired else NeedsHuman, d.claimed.count + 1))])
  {}

  /** Both checks pass, recorded or not, and the remote result for the updated head is stored. */
  lemma RoundObserves(job: Job, s: Sys, id: nat, head: string, passed: bool)
    requires At(s, id, Applied) && s.drivers[id].evidence.update == Some(head)
    requires s.drivers[id].evidence.localChecks == s.drivers[id].evidence.review
    requires s.drivers[id].evidence.review != Some(false)
    ensures var d, t := s.drivers[id], Run(job, s, Round(id, head, passed));
      var checked := d.evidence.(localChecks := Some(true), review := Some(true));
      var e := Observed(checked, Observation(head, passed));
      t == s.(row := Some(e), drivers := s.drivers[id :=
        d.(evidence := e, phase := Ending(if passed then Repaired else NeedsHuman, d.claimed.count + 1))])
  {
    hide Step;
    var d := s.drivers[id];
    var checked := d.evidence.(localChecks := Some(true), review := Some(true));
    RunThree(job, s, Round(id, head, passed));
    var s1 := Step(job, s, RunLocalChecks(id, Some(true)));
    var s2 := Step(job, s1, RunReview(id, Some(true)));
    if d.evidence.review.None? {
      ChecksTurn(job, s, id, true);
      ReviewTurn(job, s1, id);
    } else {
      assert d.evidence.review.value;
      assert d.evidence.review == Some(true) && d.evidence.localChecks == Some(true);
      assert d.evidence == checked;
      RecordedTurn(job, s, id, Some(true));
      RecordedTurn(job, s1, id, Some(true));
    }
    assert s2.drivers == s.drivers[id := d.(evidence := checked, phase := Reviewed)];
    ObserveTurn(job, s2, id, head, passed);
  }

  lemma Finishes(job: Job, s: Sys, id: nat)
    requires id in s.drivers && s.drivers[id].phase.Ending?
    ensures var d := s.drivers[id];
      Run(job, s, [Finish(id)])
      == s.(row := Some(Final(d.evidence, d.phase.outcome, d.phase.count)), drivers := s.drivers - {id})
  {
    assert Run(job, s, [Finish(id)]) == Run(job, Step(job, s, Finish(id)), []);
  }

  function Closing(updated: string): seq<Event> { Round(0, updated, true) + [Finish(0)] }

  lemma Closes(job: Job, s: Sys, d: Driver, updated: string)
    requires s.drivers == map[0 := d] && d == Fixing(d.diagnosis, d.head, Initial.(update := Some(updated)), Applied)
    ensures var t := Run(job, s, Closing(updated));
      && t.row.Some? && t.row.value.outcome == Some(Repaired) && t.row.value.count == 1
      && t.drivers == map[] && t.repairs == s.repairs
  {
    hide Step, Run;
    RoundObserves(job, s, 0, updated, true);
    RunSplits(job, s, Round(0, updated, true), [Finish(0)]);
    Finishes(job, Run(job, s, Round(0, updated, true)), 0);
  }

  /** A driver that nobody disturbs, and whose checks pass, repairs. */
  lemma UndisturbedRepairs(job: Job, diagnosis: Class, updated: string)
    requires job.github && diagnosis in {CodeConfiguration, TestExpectation} && DistinctDomains(job.domains)
    ensures var t := Run(job, Start, Opening(job, diagnosis, updated) + Closing(updated));
      t.row.Some? && t.row.value.outcome == Some(Repaired) && t.repairs == 1
  {
    hide Step, Run, Opening, Closing;
    Opens(job, diagnosis, updated);
    RunSplits(job, Start, Opening(job, diagnosis, updated), Closing(updated));
    var s := Run(job, Start, Opening(job, diagnosis, updated));
    Closes(job, s, s.drivers[0], updated);
  }

  // ---------------------------------------------------------------- a second observation

  function Again(job: Job, diagnosis: Class): seq<Event> {
    [Submit(1, true, false, job.head, diagnosis), SaveDiagnosis(1), Begin(1, true)]
  }

  /** The first driver's repair left the head as it was and the remote check failed; a resumed one observes again. */
  function TwoRounds(job: Job, diagnosis: Class): seq<Event> {
    Opening(job, diagnosis, job.head)
    + (Round(0, job.head, false) + ([Finish(0)] + (Again(job, diagnosis) + Round(1, job.head, true))))
  }

  lemma ResumesWithUpdate(job: Job, s: Sys, diagnosis: Class, e: Evidence)
    requires job.github && diagnosis in {CodeConfiguration, TestExpectation}
    requires s.row == Some(e) && s.drivers == map[] && s.guard.callers == map[]
    requires e.completed && e.outcome == Some(NeedsHuman) && e.count == 1 && e.update == Some(job.head)
    ensures Run(job, s, Again(job, diagnosis))
      == s.(drivers := map[1 := Driver(diagnosis, job.head, false, e, e, Applied)])
  {
    hide ClaimSafety.Next, Claims.Propose;
    var s1 := Step(job, s, Submit(1, true, false, job.head, diagnosis));
    assert s1 == s.(drivers := map[1 := Driver(diagnosis, job.head, false, e, e, Entered)]);
    var s2 := Step(job, s1, SaveDiagnosis(1));
    assert s2 == s.(drivers := map[1 := Driver(diagnosis, job.head, false, e, e, Diagnosed)]);
    var s3 := Step(job, s2, Begin(1, true));
    hide Step;
    RunThree(job, s, Again(job, diagnosis));
  }

  lemma TwoRoundsObserveTwice(job: Job, diagnosis: Class)
    requires job.github && diagnosis in {CodeConfiguration, TestExpectation} && DistinctDomains(job.domains)
    ensures var t := Run(job, Start, TwoRounds(job, diagnosis));
      t.row.Some? && t.row.value.count == 2 && t.row.value.update == Some(job.head)
  {
    hide Step, Run, Opening, Round, Again;
    var opening, first, finish := Opening(job, diagnosis, job.head), Round(0, job.head, false), [Finish(0)];
    var again, second := Again(job, diagnosis), Round(1, job.head, true);
    Opens(job, diagnosis, job.head);
    var s1 := Run(job, Start, opening);
    RoundObserves(job, s1, 0, job.head, false);
    var s2 := Run(job, s1, first);
    Finishes(job, s2, 0);
    var s3 := Run(job, s2, finish);
    ResumesWithUpdate(job, s3, diagnosis, s3.row.value);
    var s4 := Run(job, s3, again);
    RoundObserves(job, s4, 1, job.head, true);
    RunSplits(job, Start, opening, first + (finish + (again + second)));
    RunSplits(job, s1, first, finish + (again + second));
    RunSplits(job, s2, finish, again + second);
    RunSplits(job, s3, again, second);
  }

  /** Some sequence of events stores a second observation with a given updated head exactly when that is the head the
      failed check was observed on. */
  lemma SecondObservationIff(job: Job, diagnosis: Class, updated: string)
    requires job.github && diagnosis in {CodeConfiguration, TestExpectation} && DistinctDomains(job.domains)
    ensures (exists events :: var row := Run(job, Start, events).row;
              row.Some? && row.value.count == 2 && row.value.update == Some(updated))
      <==> updated == job.head
  {
    if events :| var row := Run(job, Start, events).row;
                 row.Some? && row.value.count == 2 && row.value.update == Some(updated) {
      SecondObservationNeedsSameHead(job, events);
    }
    hide Run;
    TwoRoundsObserveTwice(job, diagnosis);
  }

  // ---------------------------------------------------------------- a crash after the update

  /** The driver crashes and, once its record is old enough, another one resumes it. */
  function Resuming(job: Job, diagnosis: Class): seq<Event> {
    [Crash(0), Submit(1, true, true, job.head, diagnosis)] + [SaveDiagnosis(1), Begin(1, true)]
  }

  lemma ResumesAfterCrash(job: Job, s: Sys, diagnosis: Class, updated: string)
    requires job.github && diagnosis in {CodeConfiguration, TestExpectation}
    requires s.row == Some(Initial.(update := Some(updated))) && s.drivers.Keys == {0} && s.guard.callers == map[]
    ensures var e, t := s.row.value, Run(job, s, Resuming(job, diagnosis));
      var phase := if updated == job.head then Applied else Ending(Stale, 0);
      && t.row == s.row && t.repairs == s.repairs
      && t.drivers == map[1 := Driver(diagnosis, updated, false, e, e, phase)]
  {
    hide ClaimSafety.Next, Claims.Propose;
    var e := s.row.value;
    var s1 := Step(job, s, Crash(0));
    NextFrame(s.guard, ClaimSafety.Crash(0), 1);
    assert s1.drivers == map[];
    var s2 := Step(job, s1, Submit(1, true, true, job.head, diagnosis));
    assert s2.drivers == map[1 := Driver(diagnosis, updated, false, e, e, Entered)];
    var s3 := Step(job, s2, SaveDiagnosis(1));
    assert s3.drivers == map[1 := Driver(diagnosis, updated, false, e, e, Diagnosed)];
    var s4 := Step(job, s3, Begin(1, true));
    hide Step;
    RunTwo(job, s, Crash(0), Submit(1, true, true, job.head, diagnosis));
    RunTwo(job, s2, SaveDiagnosis(1), Begin(1, true));
    RunSplits(job, s, [Crash(0), Submit(1, true, true, job.head, diagnosis)], [SaveDiagnosis(1), Begin(1, true)]);
  }

  /** An ending driver only waits to store its outcome. */
  lemma EndingWaits(job: Job, s: Sys, id: nat, head: string)
    requires id in s.drivers && s.drivers[id].phase.Ending?
    ensures Run(job, s, Round(id, head, true)) == s
  {
    RunThree(job, s, Round(id, head, true));
  }

  /** A driver crashes once its update is recorded, and another one resumes with checks that would all pass: the repair
      is not applied again, and it ends repaired if the update left the head as it was and stale otherwise. */
  lemma CrashedRepairResumes(job: Job, diagnosis: Class, updated: string)
    requires job.github && diagnosis in {CodeConfiguration, TestExpectation} && DistinctDomains(job.domains)
    ensures var last := Round(1, updated, true) + [Finish(1)];
      var t := Run(job, Start, Opening(job, diagnosis, updated) + (Resuming(job, diagnosis) + last));
      && t.row.Some? && t.row.value.outcome == Some(if updated == job.head then Repaired else Stale)
      && t.repairs == 1
  {
    hide Step, Run, Opening, Resuming, Round;
    var opening, resuming := Opening(job, diagnosis, updated), Resuming(job, diagnosis);
    var checks := Round(1, updated, true);
    Opens(job, diagnosis, updated);
    var s1 := Run(job, Start, opening);
    ResumesAfterCrash(job, s1, diagnosis, updated);
    var s2 := Run(job, s1, resuming);
    if updated == job.head { RoundObserves(job, s2, 1, updated, true); } else { EndingWaits(job, s2, 1, updated); }
    Finishes(job, Run(job, s2, checks), 1);
    RunSplits(job, Start, opening, resuming + (checks + [Finish(1)]));
    RunSplits(job, s1, resuming, checks + [Finish(1)]);
    RunSplits(job, s2, checks, [Finish(1)]);
  }

  // ---------------------------------------------------------------- two drivers side by side

  /** A second driver resumes while the first one's effect runs. */
  function Joining(job: Job, diagnosis: Class): seq<Event> {
    [Submit(1, true, true, job.head, diagnosis), SaveDiagnosis(1), Begin(1, true)]
  }

  /** The first driver records its update; the second gets a replay and records it too. */
  function BothUpdate(): seq<Event> {
    [GuardComplete(0), SaveUpdate(0), GuardStep(1)] + [GuardStep(1), SaveUpdate(1)]
  }

  function BothCheck(): seq<Event> { [RunLocalChecks(1, Some(true)), RunLocalChecks(0, Some(false))] }

  function Overlapping(job: Job, diagnosis: Class, updated: string): seq<Event> {
    ToEffect(job, diagnosis, updated) + (Joining(job, diagnosis) + (BothUpdate() + BothCheck()))
  }

  function Second(job: Job, diagnosis: Class, phase: Phase): Driver {
    Driver(diagnosis, job.head, false, Initial, Initial, phase)
  }

  lemma SecondJoins(job: Job, s: Sys, diagnosis: Class, updated: string)
    requires job.github && diagnosis in {CodeConfiguration, TestExpectation} && AfterEffect(job, s, diagnosis, updated)
    ensures Run(job, s, Joining(job, diagnosis))
      == s.(drivers := s.drivers[1 := Second(job, diagnosis, Guarding)],
            guard := ClaimSafety.Next(s.guard, ClaimSafety.Enter(1, ConfigOf(job, Second(job, diagnosis, Guarding)))))
  {
    hide ClaimSafety.Next, Claims.CanComplete;
    var s1 := Step(job, s, Submit(1, true, true, job.head, diagnosis));
    assert s1 == s.(drivers := s.drivers[1 := Second(job, diagnosis, Entered)]);
    var s2 := Step(job, s1, SaveDiagnosis(1));
    assert s2 == s.(drivers := s.drivers[1 := Second(job, diagnosis, Diagnosed)]);
    var s3 := Step(job, s2, Begin(1, true));
    hide Step;
    RunThree(job, s, Joining(job, diagnosis));
  }

  lemma {:induction false} FirstActionListed(domains: seq<string>, default: string)
    ensures Claims.FirstAction(domains, default) in domains || Claims.FirstAction(domains, default) == default
  {
    if domains != [] { FirstActionListed(domains[1..], default); }
  }

  /** After a completed repair every proposal for it replays the normalised head. */
  lemma CompletedReplays(
    db: Claims.Db, cfg: ClaimSafety.Config, updated: string, seen: map<string, string>, runId: string
  )
    requires cfg.domains != []
    requires Claims.CanComplete(db, cfg.domains, cfg.key, cfg.runId, Claims.EffectRecord(None, updated))
    ensures var after := Claims.Complete(db, cfg.domains, cfg.key, cfg.runId, Claims.EffectRecord(None, updated));
      Claims.Propose(after, cfg.domains, seen, runId, cfg.key).1
      == Claims.Replay(Claims.EffectRecord(None, NormalizeHead(updated)))
  {
    FirstActionListed(cfg.domains, cfg.domains[0]);
    hide NormalizeHead, Claims.RecordLength, Claims.StaleLines, Claims.ForeignOwner, Claims.FirstAction;
    var action := Claims.ActionDomain(cfg.domains);
    ClaimSafety.OwnedRow(db.claims, cfg.domains, action, cfg.key, cfg.runId, Claims.Unknown);
    hide Claims.AllOwned, Claims.AdvanceWorld, Claims.ActionDomain;
    assert Claims.Touches(Claims.ClaimKey(action, cfg.key), Claims.SetOf(cfg.domains), cfg.key);
  }

  /** The first driver completes its claim and stores its update. */
  lemma FirstStores(job: Job, s: Sys, cfg: ClaimSafety.Config, first: Driver, second: Driver, updated: string)
    requires s.drivers == map[0 := first, 1 := second] && first.phase == Effected(updated)
    requires ClaimSafety.At(s.guard, 0, ClaimSafety.Returned) && s.guard.callers[0].cfg == cfg
    requires Claims.CanComplete(s.guard.db, cfg.domains, cfg.key, cfg.runId, Claims.EffectRecord(None, updated))
    ensures var t := Step(job, Step(job, s, GuardComplete(0)), SaveUpdate(0));
      && t.drivers
        == map[0 := first.(evidence := first.evidence.(update := Some(updated)), phase := Applied), 1 := second]
      && t.guard.callers == s.guard.callers - {0}
      && t.guard.db == Claims.Complete(s.guard.db, cfg.domains, cfg.key, cfg.runId, Claims.EffectRecord(None, updated))
  {
    hide Step, Claims.CanComplete, Claims.Complete;
    CompleteTurn(job, s, cfg, updated);
    UpdateTurn(job, Step(job, s, GuardComplete(0)), 0, updated);
  }

  /** The first driver records its update while the second takes its snapshot. */
  lemma FirstUpdates(job: Job, s: Sys, diagnosis: Class, updated: string)
    requires AfterEffect(job, s, diagnosis, updated)
    ensures var cfg, second := s.guard.callers[0].cfg, Second(job, diagnosis, Guarding);
      var joined := s.(drivers := s.drivers[1 := second],
                       guard := ClaimSafety.Next(s.guard, ClaimSafety.Enter(1, ConfigOf(job, second))));
      var t := Run(job, joined, [GuardComplete(0), SaveUpdate(0), GuardStep(1)]);
      var e := Initial.(update := Some(updated));
      && t.drivers == map[0 := Fixing(diagnosis, job.head, e, Applied), 1 := second]
      && t.guard.db == Claims.Complete(s.guard.db, cfg.domains, cfg.key, cfg.runId, Claims.EffectRecord(None, updated))
      && 1 in t.guard.callers && t.guard.callers[1].cfg == ConfigOf(job, second) && t.guard.callers[1].phase.Snapped?
  {
    var cfg, second := s.guard.callers[0].cfg, Second(job, diagnosis, Guarding);
    var joined := s.(drivers := s.drivers[1 := second],
                     guard := ClaimSafety.Next(s.guard, ClaimSafety.Enter(1, ConfigOf(job, second))));
    assert joined.guard
      == s.guard.(callers := s.guard.callers[1 := ClaimSafety.Caller(ConfigOf(job, second), ClaimSafety.Entered)]);
    hide Step, Run, Claims.CanComplete, Claims.Complete, Claims.Snapshot;
    FirstStores(job, joined, cfg, s.drivers[0], second, updated);
    var s2 := Step(job, Step(job, joined, GuardComplete(0)), SaveUpdate(0));
    SnapshotTurn(job, s2, 1);
    RunThree(job, joined, [GuardComplete(0), SaveUpdate(0), GuardStep(1)]);
  }

  lemma SecondUpdates(job: Job, s: Sys, cfg: ClaimSafety.Config, db: Claims.Db, updated: string)
    requires At(s, 1, Guarding) && 1 in s.guard.callers && s.guard.callers[1].phase.Snapped?
    requires var c := s.guard.callers[1].cfg; c.domains == cfg.domains != [] && c.key == cfg.key
    requires Claims.CanComplete(db, cfg.domains, cfg.key, cfg.runId, Claims.EffectRecord(None, updated))
    requires s.guard.db == Claims.Complete(db, cfg.domains, cfg.key, cfg.runId, Claims.EffectRecord(None, updated))
    ensures var e := s.drivers[1].evidence.(update := Some(NormalizeHead(updated)));
      Run(job, s, [GuardStep(1), SaveUpdate(1)]).drivers
        == s.drivers[1 := s.drivers[1].(evidence := e, phase := Applied)]
  {
    hide Step, Claims.CanComplete, Claims.Complete, Claims.Propose, ClaimSafety.Next, NormalizeHead;
    var caller := s.guard.callers[1];
    CompletedReplays(db, cfg, updated, caller.phase.seen, caller.cfg.runId);
    ProposeTurn(job, s, 1, caller.cfg, caller.phase.seen);
    var s1 := Step(job, s, GuardStep(1));
    UpdateTurn(job, s1, 1, NormalizeHead(updated));
    RunTwo(job, s, GuardStep(1), SaveUpdate(1));
  }

  /** Drivers that overlap can overwrite a verdict, whatever head the repair led to: a second driver resumes while the
      effect of the first is under way and gets a replay; it stores a passed local check, and then the first one stores
      its own failed one. */
  lemma OverlapOverwritesVerdict(job: Job, diagnosis: Class, updated: string)
    requires job.github && diagnosis in {CodeConfiguration, TestExpectation} && DistinctDomains(job.domains)
    ensures var events := Overlapping(job, diagnosis, updated);
      var before, after := Run(job, Start, events[..|events| - 1]).row, Run(job, Start, events).row;
      && before.Some? && before.value.localChecks == Some(true)
      && after.Some? && after.value.localChecks == Some(false)
      && !Grows(before, after)
  {
    hide Step, Run, ToEffect, Joining, Claims.CanComplete, Claims.Complete, ClaimSafety.Next;
    ReachesEffect(job, diagnosis, updated);
    var s1 := Run(job, Start, ToEffect(job, diagnosis, updated));
    SecondJoins(job, s1, diagnosis, updated);
    var s2 := Run(job, s1, Joining(job, diagnosis));
    FirstUpdates(job, s1, diagnosis, updated);
    var third, fourth := [GuardComplete(0), SaveUpdate(0), GuardStep(1)], [GuardStep(1), SaveUpdate(1)];
    var s3 := Run(job, s2, third);
    SecondUpdates(job, s3, s1.guard.callers[0].cfg, s1.guard.db, updated);
    var s4 := Run(job, s3, fourth);
    ChecksTurn(job, s4, 1, true);
    var s5 := Step(job, s4, RunLocalChecks(1, Some(true)));
    ChecksTurn(job, s5, 0, false);
    RunTwo(job, s4, RunLocalChecks(1, Some(true)), RunLocalChecks(0, Some(false)));
    FullRun(job, diagnosis, updated, BothCheck());
    FullRun(job, diagnosis, updated, [RunLocalChecks(1, Some(true))]);
    var events := Overlapping(job, diagnosis, updated);
    assert events[..|events| - 1]
      == ToEffect(job, diagnosis, updated)
        + (Joining(job, diagnosis) + (BothUpdate() + [RunLocalChecks(1, Some(true))]));
  }

  lemma FullRun(job: Job, diagnosis: Class, updated: string, last: seq<Event>)
    ensures var s2 := Run(job, Run(job, Start, ToEffect(job, diagnosis, updated)), Joining(job, diagnosis));
      var s4 := Run(job, Run(job, s2, [GuardComplete(0), SaveUpdate(0), GuardStep(1)]), [GuardStep(1), SaveUpdate(1)]);
      Run(job, Start, ToEffect(job, diagnosis, updated) + (Joining(job, diagnosis) + (BothUpdate() + last)))
      == Run(job, s4, last)
  {
    hide Step, Run, ToEffect, Joining;
    var s1 := Run(job, Start, ToEffect(job, diagnosis, updated));
    var s2 := Run(job, s1, Joining(job, diagnosis));
    RunSplits(job, Start, ToEffect(job, diagnosis, updated), Joining(job, diagnosis) + (BothUpdate() + last));
    RunSplits(job, s1, Joining(job, diagnosis), BothUpdate() + last);
    RunSplits(job, s2, BothUpdate(), last);
    RunSplits(job, s2, [GuardComplete(0), SaveUpdate(0), GuardStep(1)], [GuardStep(1), SaveUpdate(1)]);
  }
}
