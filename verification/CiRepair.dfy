/** Repairing a failed check: drivers that submit, crash and resume over one stored record, built on the claim
    protocol. */
module CiRepair {
  import opened Text
  import Claims
  import ClaimSafety

  datatype Class = CodeConfiguration | TestExpectation | Infrastructure | Flaky | Requirements | Unclear

  datatype Outcome = Repaired | NeedsHuman | InfraOrFlaky | Stale | Unsupported

  datatype Observation = Observation(head: string, passed: bool)

  datatype Result = Result(outcome: Outcome, count: nat)

  datatype Evidence = Evidence(
    count: nat, used: nat, remaining: nat, observations: seq<Observation>,
    localChecks: Option<bool>, review: Option<bool>, update: Option<string>,
    outcome: Option<Outcome>, completed: bool, result: Option<Result>)

  const MAX_OBSERVATIONS := 2
  const Initial := Evidence(0, 0, MAX_OBSERVATIONS, [], None, None, None, None, false, None)

  /** What the idempotency key identifies: the failed check on a head of a pull request, and the domains its repair
      claims. */
  datatype Job = Job(key: string, github: bool, head: string, domains: seq<string>)

  function Remaining(used: nat): nat { if used >= MAX_OBSERVATIONS then 0 else MAX_OBSERVATIONS - used }

  // ---------------------------------------------------------------- admission

  /** The outcome that refuses the repair, if any. */
  function Refusal(job: Job, currentHead: string, count: nat, diagnosis: Class): Option<Outcome> {
    if !job.github then Some(Unsupported)
    else if job.head != currentHead then Some(Stale)
    else if count >= MAX_OBSERVATIONS then Some(NeedsHuman)
    else if diagnosis.Infrastructure? || diagnosis.Flaky? then Some(InfraOrFlaky)
    else if diagnosis.Unclear? || diagnosis.Requirements? then Some(Unsupported)
    else None
  }

  /** What refuses a repair: a check that is not on GitHub, a head that moved, a spent budget, or a failure that no
      change of code or tests would repair. */
  lemma RefusedAs(job: Job, currentHead: string, count: nat, diagnosis: Class)
    ensures var refusal, current := Refusal(job, currentHead, count, diagnosis), job.github && job.head == currentHead;
      && (refusal == Some(Stale) <==> job.github && job.head != currentHead)
      && (refusal == Some(NeedsHuman) <==> current && count >= 2)
      && (refusal == Some(InfraOrFlaky) <==> current && count < 2 && diagnosis in {Infrastructure, Flaky})
      && (refusal == Some(Unsupported) <==>
            !job.github || (current && count < 2 && diagnosis in {Unclear, Requirements}))
      && (refusal.None? <==> current && count < 2 && diagnosis in {CodeConfiguration, TestExpectation})
      && refusal != Some(Repaired)
  {
    match diagnosis case CodeConfiguration => case TestExpectation => case Infrastructure => case Flaky =>
      case Requirements => case Unclear =>
  }

  // ---------------------------------------------------------------- drivers

  /** How far a driver has come. */
  datatype Phase =
    | Entered
    | Diagnosed
    | Guarding
    | Effected(head: string)
    | Updated(head: string)
    | Applied
    | Checked
    | Reviewed
    | Ending(outcome: Outcome, count: nat)

  /** `claimed` is the record the driver started from, `evidence` its own copy since. */
  datatype Driver = Driver(diagnosis: Class, head: string, inserted: bool, claimed: Evidence, evidence: Evidence,
    phase: Phase)

  /** `repairs` counts the repair effects that started. */
  datatype Sys = Sys(row: Option<Evidence>, guard: ClaimSafety.Sys, drivers: map<nat, Driver>, repairs: nat)

  const Start := Sys(None, ClaimSafety.Start, map[], 0)

  datatype Event =
    | Submit(id: nat, resume: bool, aged: bool, currentHead: string, diagnosis: Class)
    | SaveDiagnosis(id: nat)
    | Begin(id: nat, restored: bool)
    | GuardStep(id: nat)
    | Effect(id: nat, head: Option<string>)
    | GuardComplete(id: nat)
    | SaveUpdate(id: nat)
    | RunLocalChecks(id: nat, verdict: Option<bool>)
    | RunReview(id: nat, verdict: Option<bool>)
    | Observe(id: nat, seen: Option<Observation>)
    | Finish(id: nat)
    | Crash(id: nat)
    | Elsewhere(e: ClaimSafety.Event)

  function ConfigOf(job: Job, d: Driver): ClaimSafety.Config {
    ClaimSafety.Config(job.domains, d.head, "ci-repair:" + job.key, job.key)
  }

  predicate At(s: Sys, id: nat, phase: Phase) {
    id in s.drivers && s.drivers[id].phase == phase
  }

  function Goto(s: Sys, id: nat, phase: Phase): Sys
    requires id in s.drivers
  {
    s.(drivers := s.drivers[id := s.drivers[id].(phase := phase)])
  }

  /** An error thrown below the repair cycle ends it in the hands of a human. */
  function Fail(s: Sys, id: nat): Sys
    requires id in s.drivers
  {
    Goto(s, id, Ending(NeedsHuman, |s.drivers[id].evidence.observations|))
  }

  /** The driver saves its changed evidence and goes on. */
  function Save(s: Sys, id: nat, evidence: Evidence, phase: Phase): Sys
    requires id in s.drivers
  {
    s.(row := Some(evidence), drivers := s.drivers[id := s.drivers[id].(evidence := evidence, phase := phase)])
  }

  predicate Resumable(e: Evidence, resume: bool, aged: bool) {
    || (e.completed && resume && e.outcome == Some(NeedsHuman) && e.count < MAX_OBSERVATIONS && e.update.Some?)
    || (!e.completed && resume && aged)
  }

  function DriverFor(e: Evidence, inserted: bool, currentHead: string, diagnosis: Class): Driver {
    Driver(diagnosis, GetOr(e.update, currentHead), inserted, e, e, Entered)
  }

  function SubmitStep(s: Sys, id: nat, resume: bool, aged: bool, currentHead: string, diagnosis: Class): Sys {
    if id in s.drivers || id in s.guard.callers then s
    else if s.row.None? then
      s.(row := Some(Initial), drivers := s.drivers[id := DriverFor(Initial, true, currentHead, diagnosis)])
    else if Resumable(s.row.value, resume, aged) then
      s.(drivers := s.drivers[id := DriverFor(s.row.value, false, currentHead, diagnosis)])
    else s
  }

  ghost function BeginStep(job: Job, s: Sys, id: nat, restored: bool): Sys
    requires id in s.drivers
  {
    var d := s.drivers[id];
    var refusal := Refusal(job, d.head, d.claimed.count, d.diagnosis);
    if !d.inserted && d.claimed.update.Some? && !restored then Fail(s, id)
    else if refusal.Some? then Goto(s, id, Ending(refusal.value, d.claimed.count))
    else if d.evidence.update.Some? then Goto(s, id, Applied)
    else Goto(s, id, Guarding).(guard := ClaimSafety.Next(s.guard, ClaimSafety.Enter(id, ConfigOf(job, d))))
  }

  /** The next transaction of the guarded mutation: snapshot, propose or mark. */
  ghost function GuardStepOf(s: Sys, id: nat): Sys
    requires id in s.drivers && id in s.guard.callers
  {
    var caller := s.guard.callers[id];
    match caller.phase
    case Entered => s.(guard := ClaimSafety.Next(s.guard, ClaimSafety.TakeSnapshot(id)))
    case Snapped(seen) =>
      var t := s.(guard := ClaimSafety.Next(s.guard, ClaimSafety.ProposeStep(id)));
      if caller.cfg.domains == [] then Fail(t, id)
      else
        var decision := Claims.Propose(s.guard.db, caller.cfg.domains, seen, caller.cfg.runId, caller.cfg.key).1;
        if decision.Proceed? then t
        else if decision.Replay? then Goto(t, id, Updated(decision.record.head))
        else Fail(t, id)
    case Admitted =>
      var t := s.(guard := ClaimSafety.Next(s.guard, ClaimSafety.MarkStep(id)));
      if ClaimSafety.At(t.guard, id, ClaimSafety.Armed) then t else Fail(t, id)
    case _ => s
  }

  ghost function EffectStepOf(s: Sys, id: nat, head: Option<string>): Sys
    requires id in s.drivers
  {
    if !ClaimSafety.At(s.guard, id, ClaimSafety.Armed) then s else
      var t := s.(guard := ClaimSafety.Next(s.guard, ClaimSafety.EffectStep(id)), repairs := s.repairs + 1);
      if head.Some? then Goto(t, id, Effected(head.value))
      else Fail(t.(guard := ClaimSafety.Next(t.guard, ClaimSafety.Crash(id))), id)
  }

  ghost function GuardCompleteOf(s: Sys, id: nat): Sys
    requires id in s.drivers && s.drivers[id].phase.Effected? && id in s.guard.callers
  {
    var cfg, head := s.guard.callers[id].cfg, s.drivers[id].phase.head;
    var record := Claims.EffectRecord(None, head);
    var t := s.(guard := ClaimSafety.Next(s.guard, ClaimSafety.CompleteStep(id, record)));
    if Claims.CanComplete(s.guard.db, cfg.domains, cfg.key, cfg.runId, record) then Goto(t, id, Updated(head))
    else Fail(t, id)
  }

  function AfterLocalChecks(s: Sys, id: nat, passed: bool): Sys
    requires id in s.drivers
  {
    Goto(s, id, if passed then Checked else Ending(NeedsHuman, s.drivers[id].claimed.count))
  }

  /** A verdict that was recorded is not asked for again. */
  function LocalChecksStep(s: Sys, id: nat, verdict: Option<bool>): Sys
    requires id in s.drivers
  {
    var e := s.drivers[id].evidence;
    if e.localChecks.Some? then AfterLocalChecks(s, id, e.localChecks.value)
    else if verdict.None? then Fail(s, id)
    else AfterLocalChecks(Save(s, id, e.(localChecks := verdict), Applied), id, verdict.value)
  }

  function AfterReview(s: Sys, id: nat, passed: bool): Sys
    requires id in s.drivers
  {
    Goto(s, id, if passed then Reviewed else Ending(NeedsHuman, s.drivers[id].claimed.count))
  }

  function ReviewStep(s: Sys, id: nat, verdict: Option<bool>): Sys
    requires id in s.drivers
  {
    var e := s.drivers[id].evidence;
    if e.review.Some? then AfterReview(s, id, e.review.value)
    else if verdict.None? then Fail(s, id)
    else AfterReview(Save(s, id, e.(review := verdict), Checked), id, verdict.value)
  }

  function Observed(e: Evidence, seen: Observation): Evidence {
    var used := |e.observations| + 1;
    e.(observations := e.observations + [seen], count := used, used := used, remaining := Remaining(used))
  }

  function ObserveStep(s: Sys, id: nat, seen: Option<Observation>): Sys
    requires id in s.drivers
  {
    var d := s.drivers[id];
    if seen.None? then Fail(s, id)
    else
      var outcome := if Some(seen.value.head) != d.evidence.update then Stale
                     else if seen.value.passed then Repaired else NeedsHuman;
      Save(s, id, Observed(d.evidence, seen.value), Ending(outcome, d.claimed.count + 1))
  }

  function Final(e: Evidence, outcome: Outcome, count: nat): Evidence {
    e.(count := count, used := count, remaining := Remaining(count), outcome := Some(outcome), completed := true,
       result := Some(Result(outcome, count)))
  }

  function FinishStep(s: Sys, id: nat): Sys
    requires id in s.drivers && s.drivers[id].phase.Ending?
  {
    var d := s.drivers[id];
    s.(row := Some(Final(d.evidence, d.phase.outcome, d.phase.count)), drivers := s.drivers - {id})
  }

  predicate Names(e: ClaimSafety.Event, id: nat) {
    !e.AbortCall? && !e.ProposeCall? && e.id == id
  }

  ghost function Step(job: Job, s: Sys, e: Event): Sys {
    match e
    case Submit(id, resume, aged, currentHead, diagnosis) => SubmitStep(s, id, resume, aged, currentHead, diagnosis)
    case SaveDiagnosis(id) => if At(s, id, Entered) then Save(s, id, s.drivers[id].evidence, Diagnosed) else s
    case Begin(id, restored) => if At(s, id, Diagnosed) then BeginStep(job, s, id, restored) else s
    case GuardStep(id) => if At(s, id, Guarding) && id in s.guard.callers then GuardStepOf(s, id) else s
    case Effect(id, head) => if At(s, id, Guarding) then EffectStepOf(s, id, head) else s
    case GuardComplete(id) =>
      if id in s.drivers && s.drivers[id].phase.Effected? && id in s.guard.callers then GuardCompleteOf(s, id) else s
    case SaveUpdate(id) =>
      if id in s.drivers && s.drivers[id].phase.Updated? then
        Save(s, id, s.drivers[id].evidence.(update := Some(s.drivers[id].phase.head)), Applied)
      else s
    case RunLocalChecks(id, verdict) => if At(s, id, Applied) then LocalChecksStep(s, id, verdict) else s
    case RunReview(id, verdict) => if At(s, id, Checked) then ReviewStep(s, id, verdict) else s
    case Observe(id, seen) => if At(s, id, Reviewed) then ObserveStep(s, id, seen) else s
    case Finish(id) => if id in s.drivers && s.drivers[id].phase.Ending? then FinishStep(s, id) else s
    case Crash(id) =>
      if id in s.drivers then
        s.(drivers := s.drivers - {id}, guard := ClaimSafety.Next(s.guard, ClaimSafety.Crash(id)))
      else s
    case Elsewhere(other) =>
      if exists id :: id in s.drivers && Names(other, id) then s
      else s.(guard := ClaimSafety.Next(s.guard, other))
  }

  ghost function Run(job: Job, s: Sys, events: seq<Event>): Sys
    decreases |events|
  {
    if events == [] then s else Run(job, Step(job, s, events[0]), events[1..])
  }

  // ---------------------------------------------------------------- the invariant

  /** The counters agree with the list, and the budget is kept. */
  predicate Counted(e: Evidence) {
    e.count == e.used == |e.observations| <= MAX_OBSERVATIONS && e.used + e.remaining == MAX_OBSERVATIONS
  }

  predicate EvidenceOk(job: Job, e: Evidence) {
    && Counted(e)
    && (e.observations != [] ==> e.localChecks == Some(true) && e.review == Some(true) && e.update.Some?)
    && (|e.observations| == MAX_OBSERVATIONS ==> e.update == Some(job.head))
    && (!e.completed ==> e.outcome.None?)
    && (e.outcome == Some(Repaired) ==>
          e.observations != [] && e.observations[|e.observations| - 1] == Observation(GetOr(e.update, ""), true))
  }

  predicate DriverOk(job: Job, d: Driver) {
    && EvidenceOk(job, d.claimed) && EvidenceOk(job, d.evidence) && d.claimed.outcome != Some(Repaired)
    && (d.claimed.update.Some? ==> d.head == d.claimed.update.value && d.evidence.update == d.claimed.update)
  }

  predicate PhaseOk(job: Job, d: Driver) {
    match d.phase
    case Entered => d.evidence == d.claimed
    case Diagnosed => d.evidence == d.claimed
    case Guarding => BeforeObserving(job, d) && d.evidence.update.None?
    case Effected(_) => BeforeObserving(job, d) && d.evidence.update.None?
    case Updated(_) => BeforeObserving(job, d) && d.evidence.update.None?
    case Applied => BeforeObserving(job, d) && d.evidence.update.Some?
    case Checked => BeforeObserving(job, d) && d.evidence.update.Some? && d.evidence.localChecks == Some(true)
    case Reviewed =>
      && BeforeObserving(job, d) && d.evidence.update.Some? && d.evidence.localChecks == Some(true)
      && d.evidence.review == Some(true)
    case Ending(outcome, count) => EvidenceOk(job, Final(d.evidence, outcome, count))
  }

  /** The driver was admitted and has not observed yet. */
  predicate BeforeObserving(job: Job, d: Driver) {
    && Refusal(job, d.head, d.claimed.count, d.diagnosis).None?
    && d.evidence.observations == d.claimed.observations
    && d.evidence.outcome != Some(Repaired)
  }

  ghost predicate RecordsOk(job: Job, s: Sys) {
    && (s.row.Some? ==> EvidenceOk(job, s.row.value))
    && (s.drivers != map[] ==> s.row.Some?)
    && forall id :: id in s.drivers ==> DriverOk(job, s.drivers[id]) && PhaseOk(job, s.drivers[id])
  }

  predicate CallerOk(job: Job, g: ClaimSafety.Sys, id: nat, d: Driver) {
    match d.phase
    case Guarding =>
      && id in g.callers && g.callers[id].cfg == ConfigOf(job, d) && !g.callers[id].phase.Returned?
      && (g.callers[id].phase.Admitted? || g.callers[id].phase.Armed? ==> job.domains != [])
    case Effected(_) => ClaimSafety.At(g, id, ClaimSafety.Returned) && g.callers[id].cfg == ConfigOf(job, d)
    case _ => id !in g.callers
  }

  predicate IsRepair(job: Job, cfg: ClaimSafety.Config) {
    cfg.key == job.key && cfg.domains == job.domains && job.domains != []
  }

  ghost predicate GuardOk(job: Job, s: Sys) {
    && ClaimSafety.Inv(s.guard)
    && (forall id :: id in s.drivers ==> CallerOk(job, s.guard, id, s.drivers[id]))
    && s.repairs <= 1
    && (s.repairs == 1 ==> exists i :: 0 <= i < |s.guard.effects| && IsRepair(job, s.guard.effects[i]))
  }

  ghost predicate Inv(job: Job, s: Sys) { RecordsOk(job, s) && GuardOk(job, s) }

  // ---------------------------------------------------------------- steps keep it

  /** A step of one caller leaves the other callers alone, and effects are only added. */
  lemma NextFrame(g: ClaimSafety.Sys, e: ClaimSafety.Event, id: nat)
    requires !Names(e, id)
    ensures var h := ClaimSafety.Next(g, e);
      (id in h.callers <==> id in g.callers) && (id in g.callers ==> h.callers[id] == g.callers[id])
  {
    hide Claims.Propose, Claims.Mark, Claims.Complete, Claims.Abort, Claims.AllOwned, Claims.Snapshot;
  }

  lemma EffectsStay(g: ClaimSafety.Sys, e: ClaimSafety.Event)
    ensures g.effects <= ClaimSafety.Next(g, e).effects
  {
    hide Claims.Propose, Claims.Mark, Claims.Complete, Claims.Abort, Claims.AllOwned, Claims.Snapshot;
  }

  /** The coordination store makes a step that does not start this repair. */
  lemma GuardMoves(job: Job, s: Sys, t: Sys, e: ClaimSafety.Event)
    requires GuardOk(job, s) && t.guard == ClaimSafety.Next(s.guard, e) && t.repairs == s.repairs
    requires forall id :: id in t.drivers ==>
      (id in s.drivers && t.drivers[id] == s.drivers[id] && !Names(e, id)) || CallerOk(job, t.guard, id, t.drivers[id])
    ensures GuardOk(job, t)
  {
    ClaimSafety.NextKeeps(s.guard, e);
    EffectsStay(s.guard, e);
    forall id | id in t.drivers ensures CallerOk(job, t.guard, id, t.drivers[id]) {
      if id in s.drivers && t.drivers[id] == s.drivers[id] && !Names(e, id) { NextFrame(s.guard, e, id); }
    }
  }

  /** Nothing happens in the coordination store. */
  lemma GuardRests(job: Job, s: Sys, t: Sys)
    requires GuardOk(job, s) && t.guard == s.guard && t.repairs == s.repairs
    requires forall id :: id in t.drivers ==>
      (id in s.drivers && t.drivers[id] == s.drivers[id]) || CallerOk(job, t.guard, id, t.drivers[id])
    ensures GuardOk(job, t)
  {}

  lemma RepairsOverlap(job: Job, a: ClaimSafety.Config, b: ClaimSafety.Config)
    ensures IsRepair(job, a) && IsRepair(job, b) ==> ClaimSafety.Overlap(a, b)
  {
    if IsRepair(job, a) && IsRepair(job, b) {
      assert job.domains[0] in a.domains && job.domains[0] in b.domains;
    }
  }

  /** A repair that is about to start is the first. */
  lemma FirstRepair(job: Job, s: Sys, id: nat)
    requires GuardOk(job, s) && At(s, id, Guarding) && ClaimSafety.At(s.guard, id, ClaimSafety.Armed)
    ensures s.repairs == 0 && IsRepair(job, s.guard.callers[id].cfg)
  {
    hide ClaimSafety.TablesOk, ClaimSafety.HoldsOk, ClaimSafety.Spent, ClaimSafety.OwnsUnknown, ClaimSafety.Overlap;
    assert CallerOk(job, s.guard, id, s.drivers[id]);
    forall i | 0 <= i < |s.guard.effects| ensures !IsRepair(job, s.guard.effects[i]) {
      RepairsOverlap(job, s.guard.callers[id].cfg, s.guard.effects[i]);
    }
  }

  lemma EffectKeepsGuard(job: Job, s: Sys, id: nat, head: Option<string>)
    requires GuardOk(job, s) && At(s, id, Guarding) && ClaimSafety.At(s.guard, id, ClaimSafety.Armed)
    ensures GuardOk(job, EffectStepOf(s, id, head))
  {
    FirstRepair(job, s, id);
    var g := ClaimSafety.Next(s.guard, ClaimSafety.EffectStep(id));
    ClaimSafety.NextKeeps(s.guard, ClaimSafety.EffectStep(id));
    assert IsRepair(job, g.effects[|s.guard.effects|]);
    hide ClaimSafety.Inv;
    var mid := s.(guard := g, repairs := 1,
      drivers := s.drivers[id := s.drivers[id].(phase := Effected(GetOr(head, "")))]);
    forall x | x in mid.drivers ensures CallerOk(job, g, x, mid.drivers[x]) {
      assert CallerOk(job, s.guard, x, s.drivers[x]);
    }
    assert GuardOk(job, mid);
    if head.None? {
      var t := EffectStepOf(s, id, head);
      forall x | x in t.drivers && x != id ensures t.drivers[x] == mid.drivers[x] && !Names(ClaimSafety.Crash(id), x) {}
      GuardMoves(job, mid, t, ClaimSafety.Crash(id));
    }
  }

  lemma GuardStepKeepsGuard(job: Job, s: Sys, id: nat)
    requires GuardOk(job, s) && At(s, id, Guarding) && id in s.guard.callers
    ensures GuardOk(job, GuardStepOf(s, id))
  {
    hide ClaimSafety.Inv, Claims.Propose, Claims.Mark, Claims.AllOwned, Claims.Snapshot;
    assert CallerOk(job, s.guard, id, s.drivers[id]);
    var t := GuardStepOf(s, id);
    match s.guard.callers[id].phase
    case Entered => GuardMoves(job, s, t, ClaimSafety.TakeSnapshot(id));
    case Snapped(_) => GuardMoves(job, s, t, ClaimSafety.ProposeStep(id));
    case Admitted => GuardMoves(job, s, t, ClaimSafety.MarkStep(id));
    case _ =>
  }

  lemma CompleteKeepsGuard(job: Job, s: Sys, id: nat)
    requires GuardOk(job, s) && id in s.drivers && s.drivers[id].phase.Effected? && id in s.guard.callers
    ensures GuardOk(job, GuardCompleteOf(s, id))
  {
    hide ClaimSafety.Inv, Claims.Complete, Claims.CanComplete;
    assert CallerOk(job, s.guard, id, s.drivers[id]);
    var record := Claims.EffectRecord(None, s.drivers[id].phase.head);
    GuardMoves(job, s, GuardCompleteOf(s, id), ClaimSafety.CompleteStep(id, record));
  }

  lemma BeginKeepsGuard(job: Job, s: Sys, id: nat, restored: bool)
    requires GuardOk(job, s) && At(s, id, Diagnosed)
    ensures GuardOk(job, BeginStep(job, s, id, restored))
  {
    hide ClaimSafety.Inv, Refusal;
    assert CallerOk(job, s.guard, id, s.drivers[id]);
    var d, t := s.drivers[id], BeginStep(job, s, id, restored);
    if t.drivers[id].phase.Guarding? {
      GuardMoves(job, s, t, ClaimSafety.Enter(id, ConfigOf(job, d)));
    } else {
      GuardRests(job, s, t);
    }
  }

  lemma CrashKeepsGuard(job: Job, s: Sys, id: nat)
    requires GuardOk(job, s) && id in s.drivers
    ensures GuardOk(job, s.(drivers := s.drivers - {id}, guard := ClaimSafety.Next(s.guard, ClaimSafety.Crash(id))))
  {
    hide ClaimSafety.Inv, CallerOk;
    var t := s.(drivers := s.drivers - {id}, guard := ClaimSafety.Next(s.guard, ClaimSafety.Crash(id)));
    GuardMoves(job, s, t, ClaimSafety.Crash(id));
  }

  lemma ElsewhereKeepsGuard(job: Job, s: Sys, e: ClaimSafety.Event)
    requires GuardOk(job, s) && !exists id :: id in s.drivers && Names(e, id)
    ensures GuardOk(job, s.(guard := ClaimSafety.Next(s.guard, e)))
  {
    hide ClaimSafety.Inv, CallerOk;
    GuardMoves(job, s, s.(guard := ClaimSafety.Next(s.guard, e)), e);
  }

  /** The steps outside the guarded mutation leave the coordination store alone. */
  lemma VerdictStepKeepsGuard(job: Job, s: Sys, e: Event)
    requires GuardOk(job, s) && (e.RunLocalChecks? || e.RunReview? || e.Observe?)
    ensures GuardOk(job, Step(job, s, e))
  {
    hide ClaimSafety.Inv, Observed;
    var t := Step(job, s, e);
    if e.id in s.drivers { assert CallerOk(job, s.guard, e.id, s.drivers[e.id]); }
    hide GuardOk;
    GuardRests(job, s, t);
  }

  lemma LocalStepKeepsGuard(job: Job, s: Sys, e: Event)
    requires GuardOk(job, s) && (e.Submit? || e.SaveDiagnosis? || e.SaveUpdate? || e.Finish?)
    ensures GuardOk(job, Step(job, s, e))
  {}

  lemma StepKeepsGuard(job: Job, s: Sys, e: Event)
    requires GuardOk(job, s)
    ensures GuardOk(job, Step(job, s, e))
  {
    hide GuardOk, SubmitStep, BeginStep, GuardStepOf, EffectStepOf, GuardCompleteOf, LocalChecksStep, ReviewStep,
      ObserveStep, FinishStep, Save, ClaimSafety.Next;
    match e
    case GuardStep(id) => if At(s, id, Guarding) && id in s.guard.callers { GuardStepKeepsGuard(job, s, id); }
    case Effect(id, head) =>
      if At(s, id, Guarding) {
        if ClaimSafety.At(s.guard, id, ClaimSafety.Armed) { EffectKeepsGuard(job, s, id, head); }
        else { NoEffect(s, id, head); }
      }
    case GuardComplete(id) =>
      if id in s.drivers && s.drivers[id].phase.Effected? && id in s.guard.callers { CompleteKeepsGuard(job, s, id); }
    case Begin(id, restored) => if At(s, id, Diagnosed) { BeginKeepsGuard(job, s, id, restored); }
    case Crash(id) => if id in s.drivers { CrashKeepsGuard(job, s, id); }
    case Elsewhere(other) =>
      if !exists id :: id in s.drivers && Names(other, id) { ElsewhereKeepsGuard(job, s, other); }
    case RunLocalChecks(_, _) => VerdictStepKeepsGuard(job, s, e);
    case RunReview(_, _) => VerdictStepKeepsGuard(job, s, e);
    case Observe(_, _) => VerdictStepKeepsGuard(job, s, e);
    case _ => LocalStepKeepsGuard(job, s, e);
  }

  lemma NoEffect(s: Sys, id: nat, head: Option<string>)
    requires id in s.drivers && !ClaimSafety.At(s.guard, id, ClaimSafety.Armed)
    ensures EffectStepOf(s, id, head) == s
  {}

  // ---------------------------------------------------------------- records

  /** One driver moved, and what it saved is sound. */
  lemma RecordsMove(job: Job, s: Sys, t: Sys, id: nat)
    requires RecordsOk(job, s) && id in t.drivers && t.drivers == s.drivers[id := t.drivers[id]]
    requires t.row.Some? && EvidenceOk(job, t.row.value)
    requires DriverOk(job, t.drivers[id]) && PhaseOk(job, t.drivers[id])
    ensures RecordsOk(job, t)
  {}

  lemma DriverIn(job: Job, s: Sys, id: nat)
    requires RecordsOk(job, s) && id in s.drivers
    ensures DriverOk(job, s.drivers[id]) && PhaseOk(job, s.drivers[id]) && s.row.Some? && EvidenceOk(job, s.row.value)
  {
    hide DriverOk, PhaseOk, EvidenceOk;
  }

  lemma SubmitKeepsRecords(job: Job, s: Sys, e: Event)
    requires RecordsOk(job, s) && e.Submit?
    ensures RecordsOk(job, Step(job, s, e))
  {}

  lemma SaveKeepsRecords(job: Job, s: Sys, id: nat)
    requires RecordsOk(job, s) && At(s, id, Entered)
    ensures RecordsOk(job, Save(s, id, s.drivers[id].evidence, Diagnosed))
  {}

  lemma BeginKeepsRecords(job: Job, s: Sys, id: nat, restored: bool)
    requires RecordsOk(job, s) && At(s, id, Diagnosed)
    ensures RecordsOk(job, BeginStep(job, s, id, restored))
  {
    DriverIn(job, s, id);
    var d, t := s.drivers[id], BeginStep(job, s, id, restored);
    var refusal := Refusal(job, d.head, d.claimed.count, d.diagnosis);
    RefusedAs(job, d.head, d.claimed.count, d.diagnosis);
    VerdictSound(job, d.evidence, None);
    EndsSound(job, d.evidence, if refusal.Some? then refusal.value else NeedsHuman);
    hide RecordsOk, ClaimSafety.Next, Refusal, EvidenceOk, Final;
    if !d.inserted && d.claimed.update.Some? && !restored {
      FailKeepsRecords(job, s, id);
    } else {
      assert DriverOk(job, t.drivers[id]) && PhaseOk(job, t.drivers[id]);
      hide BeginStep, DriverOk, PhaseOk;
      MovedOnly(job, s, id, restored);
      RecordsMove(job, s, t, id);
    }
  }

  lemma MovedOnly(job: Job, s: Sys, id: nat, restored: bool)
    requires id in s.drivers
    ensures var t := BeginStep(job, s, id, restored);
      t.row == s.row && id in t.drivers && t.drivers == s.drivers[id := t.drivers[id]]
  {
    hide ClaimSafety.Next, Refusal;
  }

  lemma FailKeepsRecords(job: Job, s: Sys, id: nat)
    requires RecordsOk(job, s) && id in s.drivers
    ensures RecordsOk(job, Fail(s, id))
  {}

  /** Between the guarded steps the record is as it was when the driver was admitted. */
  lemma GuardKeepsRecords(job: Job, s: Sys, id: nat, phase: Phase)
    requires RecordsOk(job, s) && id in s.drivers
    requires s.drivers[id].phase.Guarding? || s.drivers[id].phase.Effected?
    requires phase.Guarding? || phase.Effected? || phase.Updated?
    ensures RecordsOk(job, Goto(s, id, phase))
  {}

  lemma GuardStepKeepsRecords(job: Job, s: Sys, id: nat)
    requires RecordsOk(job, s) && At(s, id, Guarding) && id in s.guard.callers
    ensures RecordsOk(job, GuardStepOf(s, id))
  {
    hide ClaimSafety.Next, Claims.Propose, RecordsOk;
    var t := GuardStepOf(s, id);
    var u := s.(guard := t.guard);
    FewerDrivers(job, s, u);
    FailKeepsRecords(job, u, id);
    if t.drivers[id].phase.Updated? { GuardKeepsRecords(job, u, id, t.drivers[id].phase); }
  }

  lemma EffectKeepsRecords(job: Job, s: Sys, id: nat, head: Option<string>)
    requires RecordsOk(job, s) && At(s, id, Guarding)
    ensures RecordsOk(job, EffectStepOf(s, id, head))
  {}

  lemma CompleteKeepsRecords(job: Job, s: Sys, id: nat)
    requires RecordsOk(job, s) && id in s.drivers && s.drivers[id].phase.Effected? && id in s.guard.callers
    ensures RecordsOk(job, GuardCompleteOf(s, id))
  {
    hide ClaimSafety.Next, Claims.CanComplete, RecordsOk;
    var t := GuardCompleteOf(s, id);
    var u := s.(guard := t.guard);
    FewerDrivers(job, s, u);
    FailKeepsRecords(job, u, id);
    GuardKeepsRecords(job, u, id, Updated(s.drivers[id].phase.head));
  }

  lemma UpdateKeepsRecords(job: Job, s: Sys, id: nat)
    requires RecordsOk(job, s) && id in s.drivers && s.drivers[id].phase.Updated?
    ensures RecordsOk(job, Save(s, id, s.drivers[id].evidence.(update := Some(s.drivers[id].phase.head)), Applied))
  {}

  /** Ending without a repair keeps a sound record sound. */
  lemma EndsSound(job: Job, e: Evidence, outcome: Outcome)
    requires EvidenceOk(job, e) && outcome != Repaired
    ensures EvidenceOk(job, Final(e, outcome, |e.observations|))
  {}

  /** A verdict is recorded before anything was observed. */
  lemma VerdictSound(job: Job, e: Evidence, verdict: Option<bool>)
    requires EvidenceOk(job, e)
    ensures e.localChecks.None? ==> EvidenceOk(job, e.(localChecks := verdict))
    ensures e.review.None? ==> EvidenceOk(job, e.(review := verdict))
    ensures e.count == |e.observations|
  {}

  lemma LocalChecksKeepRecords(job: Job, s: Sys, id: nat, verdict: Option<bool>)
    requires RecordsOk(job, s) && At(s, id, Applied)
    ensures RecordsOk(job, LocalChecksStep(s, id, verdict))
  {
    DriverIn(job, s, id);
    var e := s.drivers[id].evidence;
    VerdictSound(job, e, verdict);
    VerdictSound(job, s.drivers[id].claimed, verdict);
    EndsSound(job, e, NeedsHuman);
    if e.localChecks.None? { EndsSound(job, e.(localChecks := verdict), NeedsHuman); }
    hide RecordsOk, Refusal, EvidenceOk, Final;
    RecordsMove(job, s, LocalChecksStep(s, id, verdict), id);
  }

  lemma ReviewKeepsRecords(job: Job, s: Sys, id: nat, verdict: Option<bool>)
    requires RecordsOk(job, s) && At(s, id, Checked)
    ensures RecordsOk(job, ReviewStep(s, id, verdict))
  {
    DriverIn(job, s, id);
    var e := s.drivers[id].evidence;
    VerdictSound(job, e, verdict);
    VerdictSound(job, s.drivers[id].claimed, verdict);
    EndsSound(job, e, NeedsHuman);
    if e.review.None? { EndsSound(job, e.(review := verdict), NeedsHuman); }
    hide RecordsOk, Refusal, EvidenceOk, Final;
    RecordsMove(job, s, ReviewStep(s, id, verdict), id);
  }

  lemma ObserveKeepsRecords(job: Job, s: Sys, id: nat, seen: Option<Observation>)
    requires RecordsOk(job, s) && At(s, id, Reviewed)
    ensures RecordsOk(job, ObserveStep(s, id, seen))
  {
    var t := ObserveStep(s, id, seen);
    assert DriverOk(job, s.drivers[id]) && PhaseOk(job, s.drivers[id]);
    RecordsMove(job, s, t, id);
  }

  lemma FinishKeepsRecords(job: Job, s: Sys, id: nat)
    requires RecordsOk(job, s) && id in s.drivers && s.drivers[id].phase.Ending?
    ensures RecordsOk(job, FinishStep(s, id))
  {
    hide EvidenceOk, Final, DriverOk;
  }

  lemma StepKeepsRecords(job: Job, s: Sys, e: Event)
    requires RecordsOk(job, s)
    ensures RecordsOk(job, Step(job, s, e))
  {
    hide RecordsOk, SubmitStep, BeginStep, GuardStepOf, EffectStepOf, GuardCompleteOf, LocalChecksStep, ReviewStep,
      ObserveStep, FinishStep, Save, ClaimSafety.Next;
    match e
    case Observe(id, seen) => if At(s, id, Reviewed) { ObserveKeepsRecords(job, s, id, seen); }
    case Finish(id) => if id in s.drivers && s.drivers[id].phase.Ending? { FinishKeepsRecords(job, s, id); }
    case Crash(id) => FewerDrivers(job, s, Step(job, s, e));
    case Elsewhere(_) => FewerDrivers(job, s, Step(job, s, e));
    case Submit(_, _, _, _, _) => SubmitKeepsRecords(job, s, e);
    case SaveDiagnosis(id) => if At(s, id, Entered) { SaveKeepsRecords(job, s, id); }
    case Begin(id, restored) => if At(s, id, Diagnosed) { BeginKeepsRecords(job, s, id, restored); }
    case GuardStep(id) => if At(s, id, Guarding) && id in s.guard.callers { GuardStepKeepsRecords(job, s, id); }
    case Effect(id, head) => if At(s, id, Guarding) { EffectKeepsRecords(job, s, id, head); }
    case GuardComplete(id) =>
      if id in s.drivers && s.drivers[id].phase.Effected? && id in s.guard.callers { CompleteKeepsRecords(job, s, id); }
    case SaveUpdate(id) => if id in s.drivers && s.drivers[id].phase.Updated? { UpdateKeepsRecords(job, s, id); }
    case RunLocalChecks(id, verdict) => if At(s, id, Applied) { LocalChecksKeepRecords(job, s, id, verdict); }
    case RunReview(id, verdict) => if At(s, id, Checked) { ReviewKeepsRecords(job, s, id, verdict); }
  }

  lemma FewerDrivers(job: Job, s: Sys, t: Sys)
    requires RecordsOk(job, s) && t.row == s.row
    requires forall id :: id in t.drivers ==> id in s.drivers && t.drivers[id] == s.drivers[id]
    ensures RecordsOk(job, t)
  {
    hide EvidenceOk, DriverOk, PhaseOk;
  }

  lemma {:induction false} RunKeeps(job: Job, s: Sys, events: seq<Event>)
    requires Inv(job, s)
    ensures Inv(job, Run(job, s, events))
    decreases |events|
  {
    if events != [] {
      hide Step, RecordsOk, GuardOk;
      StepKeepsGuard(job, s, events[0]);
      StepKeepsRecords(job, s, events[0]);
      RunKeeps(job, Step(job, s, events[0]), events[1..]);
    }
  }

  // ---------------------------------------------------------------- main results

  /** Whatever drivers of one key do, however they interleave, crash and resume, and whatever other callers do in the
      coordination store, the repair effect starts at most once. */
  lemma RepairStartsAtMostOnce(job: Job, events: seq<Event>)
    ensures Run(job, Start, events).repairs <= 1
  {
    ClaimSafety.Reachable([]);
    RunKeeps(job, Start, events);
  }

  /** In every reachable store the counters agree with the observations and the budget, and a repaired record passed
      both checks and then passed remotely on exactly the head it recorded. */
  lemma StoredRecordIsSound(job: Job, events: seq<Event>)
    requires Run(job, Start, events).row.Some?
    ensures var e := Run(job, Start, events).row.value;
      && e.count == e.used == |e.observations| <= 2 && e.used + e.remaining == 2
      && (e.outcome == Some(Repaired) ==>
            && e.localChecks == Some(true) && e.review == Some(true) && e.update.Some?
            && e.observations != [] && e.observations[|e.observations| - 1] == Observation(e.update.value, true))
  {
    ClaimSafety.Reachable([]);
    RunKeeps(job, Start, events);
  }

  /** The second observation is out of reach unless the repair left the head as it was. */
  lemma SecondObservationNeedsSameHead(job: Job, events: seq<Event>)
    requires Run(job, Start, events).row.Some?
    ensures var e := Run(job, Start, events).row.value;
      e.count == 2 ==> e.update == Some(job.head)
  {
    ClaimSafety.Reachable([]);
    RunKeeps(job, Start, events);
  }

  // ---------------------------------------------------------------- one driver at a time

  /** A submission finds no driver alive, or is turned away. */
  predicate InTurn(s: Sys, e: Event) {
    e.Submit? ==> s.drivers == map[] || (s.row.Some? && !Resumable(s.row.value, e.resume, e.aged))
  }

  /** No driver starts while another is alive. */
  ghost predicate Serial(job: Job, s: Sys, events: seq<Event>)
    decreases |events|
  {
    events != [] ==> InTurn(s, events[0]) && Serial(job, Step(job, s, events[0]), events[1..])
  }

  /** The one driver's evidence is what is stored. */
  ghost predicate Synced(s: Sys) {
    && (forall x, y :: x in s.drivers && y in s.drivers ==> x == y)
    && forall id :: id in s.drivers ==> s.row == Some(s.drivers[id].evidence)
  }

  predicate Kept<T(==)>(before: Option<T>, after: Option<T>) { before.Some? ==> after == before }

  /** Nothing that was recorded is taken back. */
  predicate Grows(before: Option<Evidence>, after: Option<Evidence>) {
    before.Some? ==>
      && after.Some?
      && Kept(before.value.localChecks, after.value.localChecks)
      && Kept(before.value.review, after.value.review)
      && Kept(before.value.update, after.value.update)
      && before.value.observations <= after.value.observations
  }

  /** A step that saves nothing new and changes no driver's evidence. */
  lemma SyncedRests(s: Sys, t: Sys)
    requires Synced(s) && t.row == s.row
    requires forall id :: id in t.drivers ==> id in s.drivers && t.drivers[id].evidence == s.drivers[id].evidence
    ensures Synced(t) && Grows(s.row, t.row)
  {}

  lemma SerialQuiet(job: Job, s: Sys, e: Event)
    requires Synced(s) && (e.Begin? || e.GuardStep? || e.Effect? || e.GuardComplete? || e.Crash? || e.Elsewhere?)
    ensures Synced(Step(job, s, e)) && Grows(s.row, Step(job, s, e).row)
  {
    hide ClaimSafety.Next, Claims.Propose, Claims.CanComplete, Refusal, ClaimSafety.At, Grows;
    var t := Step(job, s, e);
    assert t.row == s.row;
    assert forall id :: id in t.drivers ==> id in s.drivers && t.drivers[id].evidence == s.drivers[id].evidence;
    hide Step, Synced;
    SyncedRests(s, t);
  }

  lemma SerialSave(job: Job, s: Sys, e: Event)
    requires RecordsOk(job, s) && Synced(s) && (e.SaveUpdate? || e.RunLocalChecks? || e.RunReview?)
    ensures Synced(Step(job, s, e)) && Grows(s.row, Step(job, s, e).row)
  {
    hide Refusal, EvidenceOk;
    if e.id in s.drivers { DriverIn(job, s, e.id); }
    hide RecordsOk;
  }

  lemma SerialEnds(job: Job, s: Sys, e: Event)
    requires RecordsOk(job, s) && Synced(s) && InTurn(s, e)
    requires e.Submit? || e.SaveDiagnosis? || e.Observe? || e.Finish?
    ensures Synced(Step(job, s, e)) && Grows(s.row, Step(job, s, e).row)
  {
    hide Refusal, EvidenceOk, Resumable, RecordsOk;
  }

  lemma SerialStep(job: Job, s: Sys, e: Event)
    requires RecordsOk(job, s) && Synced(s) && InTurn(s, e)
    ensures Synced(Step(job, s, e)) && Grows(s.row, Step(job, s, e).row)
  {
    hide RecordsOk, Synced, Grows, Step;
    match e
    case SaveUpdate(_) => SerialSave(job, s, e);
    case RunLocalChecks(_, _) => SerialSave(job, s, e);
    case RunReview(_, _) => SerialSave(job, s, e);
    case Submit(_, _, _, _, _) => SerialEnds(job, s, e);
    case SaveDiagnosis(_) => SerialEnds(job, s, e);
    case Observe(_, _) => SerialEnds(job, s, e);
    case Finish(_) => SerialEnds(job, s, e);
    case _ => SerialQuiet(job, s, e);
  }

  lemma {:induction false} SerialRun(job: Job, s: Sys, events: seq<Event>)
    requires Inv(job, s) && Synced(s) && Serial(job, s, events)
    ensures Grows(s.row, Run(job, s, events).row)
    decreases |events|
  {
    if events != [] {
      hide Step, RecordsOk, GuardOk, Synced;
      SerialStep(job, s, events[0]);
      StepKeepsGuard(job, s, events[0]);
      StepKeepsRecords(job, s, events[0]);
      SerialRun(job, Step(job, s, events[0]), events[1..]);
    }
  }

  lemma {:induction false} SerialSplits(job: Job, s: Sys, before: seq<Event>, after: seq<Event>)
    requires Synced(s) && Inv(job, s) && Serial(job, s, before + after)
    ensures Synced(Run(job, s, before)) && Serial(job, Run(job, s, before), after)
    ensures Run(job, s, before + after) == Run(job, Run(job, s, before), after)
    decreases |before|
  {
    if before == [] {
      assert before + after == after;
    } else {
      hide Step, RecordsOk, GuardOk, Synced;
      assert (before + after)[1..] == before[1..] + after;
      SerialStep(job, s, before[0]);
      StepKeepsGuard(job, s, before[0]);
      StepKeepsRecords(job, s, before[0]);
      SerialSplits(job, Step(job, s, before[0]), before[1..], after);
    }
  }

  /** Over any sequence of submits, crashes and resumes in which no driver starts beside another, recorded verdicts,
      the recorded update and the recorded observations never change. Submissions that are turned away may come at
      any time. */
  lemma RecordsNeverChange(job: Job, before: seq<Event>, after: seq<Event>)
    requires Serial(job, Start, before + after)
    ensures Grows(Run(job, Start, before).row, Run(job, Start, before + after).row)
  {
    StartOk(job);
    hide RecordsOk, GuardOk, Synced, Step, Grows;
    RunKeeps(job, Start, before);
    SerialSplits(job, Start, before, after);
    SerialRun(job, Run(job, Start, before), after);
  }

  lemma StartOk(job: Job)
    ensures Inv(job, Start) && Synced(Start)
  {
    ClaimSafety.Reachable([]);
  }

  // ---------------------------------------------------------------- drivers side by side

  /** Everything that is stored is in the driver's own copy. */
  predicate UpToDate(s: Sys, id: nat)
    requires id in s.drivers
  {
    Grows(s.row, Some(s.drivers[id].evidence))
  }

  lemma VerdictTakesBack(job: Job, s: Sys, e: Event)
    requires RecordsOk(job, s) && (e.SaveUpdate? || e.RunLocalChecks? || e.RunReview?)
    ensures e.id in s.drivers && UpToDate(s, e.id) ==> Grows(s.row, Step(job, s, e).row)
    ensures e.id !in s.drivers ==> Step(job, s, e).row == s.row
  {
    hide Refusal, EvidenceOk;
    if e.id in s.drivers { DriverIn(job, s, e.id); }
    hide RecordsOk;
  }

  /** In any interleaving, only a driver whose copy lacks something stored can take it back. */
  lemma OnlyBehindTakesBack(job: Job, s: Sys, e: Event)
    requires RecordsOk(job, s) && !Grows(s.row, Step(job, s, e).row)
    ensures (e.SaveDiagnosis? || e.SaveUpdate? || e.RunLocalChecks? || e.RunReview? || e.Observe? || e.Finish?)
    ensures e.id in s.drivers && !UpToDate(s, e.id)
  {
    hide ClaimSafety.Next, Claims.Propose, Claims.CanComplete, Refusal, ClaimSafety.At, Resumable, EvidenceOk;
    if e.SaveUpdate? || e.RunLocalChecks? || e.RunReview? { VerdictTakesBack(job, s, e); }
    hide RecordsOk;
  }

  /** A driver that saves its copy as it is takes something back exactly when the copy lacks something stored. */
  lemma PlainSaveTakesBackIff(job: Job, s: Sys, e: Event)
    requires (e.SaveDiagnosis? && At(s, e.id, Entered))
      || (e.Finish? && e.id in s.drivers && s.drivers[e.id].phase.Ending?)
    ensures Grows(s.row, Step(job, s, e).row) <==> UpToDate(s, e.id)
  {}

  /** A stored verdict is overwritten exactly when the driver's own copy has none and the new one differs. */
  lemma VerdictOverwrittenIff(job: Job, s: Sys, id: nat, verdict: Option<bool>)
    requires s.row.Some?
    ensures At(s, id, Applied) && s.row.value.localChecks.Some? ==>
      (Step(job, s, RunLocalChecks(id, verdict)).row.value.localChecks != s.row.value.localChecks <==>
       s.drivers[id].evidence.localChecks.None? && verdict.Some? && verdict != s.row.value.localChecks)
    ensures At(s, id, Checked) && s.row.value.review.Some? ==>
      (Step(job, s, RunReview(id, verdict)).row.value.review != s.row.value.review <==>
       s.drivers[id].evidence.review.None? && verdict.Some? && verdict != s.row.value.review)
  {}
}
