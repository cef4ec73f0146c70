/** The table of repairs, and one submission from its claim to its final save when no other driver runs. */
module CiRepairStores {
  import opened Text
  import opened CiRepair

  class CiRepairStore {
    var rows: map<string, Evidence>

    constructor ()
      ensures rows == map[]
    {
      rows := map[];
    }

    /** Inserts the initial record unless there is one. */
    method Claim(key: string) returns (evidence: Evidence, inserted: bool)
      modifies this
      ensures inserted <==> key !in old(rows)
      ensures rows == if inserted then old(rows)[key := Initial] else old(rows)
      ensures key in rows && evidence == rows[key]
    {
      inserted := key !in rows;
      if inserted {
        rows := rows[key := Initial];
      }
      evidence := rows[key];
    }

    method Save(key: string, evidence: Evidence)
      modifies this
      ensures rows == old(rows)[key := evidence]
    {
      rows := rows[key := evidence];
    }
  }

  /** What the outside world answers; none stands for an error. `repair` is the head that the guarded mutation
      returned or replayed. */
  datatype World = World(
    restored: bool, repair: Option<string>, localChecks: Option<bool>, review: Option<bool>,
      remote: Option<Observation>)

  function RowOf(rows: map<string, Evidence>, key: string): Evidence {
    if key in rows then rows[key] else Initial
  }

  function Or<T>(recorded: Option<T>, answered: Option<T>): Option<T> {
    if recorded.Some? then recorded else answered
  }

  /** A recorded update could be brought back, if there is one. */
  predicate Ready(row: Evidence, inserted: bool, world: World) { !inserted && row.update.Some? ==> world.restored }

  /** The failed check is on the head that the repair would start from, and the budget is not spent. */
  predicate Current(job: Job, row: Evidence, currentHead: string) {
    job.github && job.head == (if row.update.Some? then row.update.value else currentHead) && row.count < 2
  }

  /** The submission gets past admission: a change of code or tests may repair the failure. */
  predicate Admitted(job: Job, row: Evidence, inserted: bool, currentHead: string, diagnosis: Class, world: World) {
    && Ready(row, inserted, world) && Current(job, row, currentHead)
    && diagnosis in {CodeConfiguration, TestExpectation}
  }

  /** The submission is refused for what the failure is, or where. */
  predicate RefusedFor(
    outcome: Outcome, job: Job, row: Evidence, inserted: bool, currentHead: string, diagnosis: Class, world: World
  ) {
    && Ready(row, inserted, world)
    && match outcome
       case InfraOrFlaky => Current(job, row, currentHead) && diagnosis in {Infrastructure, Flaky}
       case Unsupported =>
         !job.github || (Current(job, row, currentHead) && diagnosis in {Unclear, Requirements})
       case _ => false
  }

  /** There is an updated head, and local checks and review passed; recorded results stand in for fresh ones. */
  predicate ChecksPassed(row: Evidence, world: World) {
    && Or(row.update, world.repair).Some?
    && Or(row.localChecks, world.localChecks) == Some(true)
    && Or(row.review, world.review) == Some(true)
  }

  /** Everything a repaired outcome rests on. */
  predicate AllPassed(row: Evidence, world: World) {
    ChecksPassed(row, world) && world.remote == Some(Observation(Or(row.update, world.repair).value, true))
  }

  /** The remote result belongs to another head than the updated one. */
  predicate HeadMovedOn(row: Evidence, world: World) {
    ChecksPassed(row, world) && world.remote.Some? && world.remote.value.head != Or(row.update, world.repair).value
  }

  /** The head is no longer the observed one when the submission is admitted. */
  predicate HeadMovedBefore(job: Job, row: Evidence, inserted: bool, currentHead: string, world: World) {
    (!inserted && row.update.Some? ==> world.restored) && job.github && job.head != GetOr(row.update, currentHead)
  }

  /** One more remote observation was made. */
  predicate Sighted(row: Evidence, world: World) { ChecksPassed(row, world) && world.remote.Some? }

  /** Each answer is recorded as soon as it is there, and nothing is asked for once a check failed. */
  ghost predicate Records(before: Evidence, after: Evidence, world: World) {
    var updated := Or(before.update, world.repair);
    var checked := if updated.Some? then Or(before.localChecks, world.localChecks) else before.localChecks;
    var reviewed :=
      if updated.Some? && checked == Some(true) then Or(before.review, world.review) else before.review;
    && after.update == updated && after.localChecks == checked && after.review == reviewed
    && after.observations
       == before.observations + if Sighted(before, world) then [world.remote.value] else []
  }

  ghost predicate SameResults(before: Evidence, after: Evidence) {
    && after.update == before.update && after.localChecks == before.localChecks && after.review == before.review
    && after.observations == before.observations
  }

  /** What a submission owes to the record it found, for the outcome it reports. */
  ghost predicate Settles(job: Job, before: Evidence, after: Evidence, result: Result) {
    && Grows(Some(before), Some(after))
    && after.completed && after.outcome == Some(result.outcome) && after.result == Some(result)
    && (EvidenceOk(job, before) ==> EvidenceOk(job, after) && after.count == result.count)
  }

  /** A submission is turned away, or it settles the record: everything recorded before stays, the outcome is
      `Repaired` exactly when the driver was admitted and the update, both verdicts and the remote check passed, and
      `Stale` exactly when the head had moved before the admission or by the time of the remote check. */
  method SubmitCiRepair(
    store: CiRepairStore, job: Job, resume: bool, aged: bool, currentHead: string, diagnosis: Class, world: World
  )
    returns (result: Result, reused: bool)
    requires job.key in store.rows ==> EvidenceOk(job, store.rows[job.key])
    modifies store
    ensures job.key in store.rows && store.rows == old(store.rows)[job.key := store.rows[job.key]]
    ensures reused <==>
      job.key in old(store.rows)
      && var row := old(store.rows)[job.key];
      !resume || if row.completed then row.outcome != Some(NeedsHuman) || row.count >= 2 || row.update.None? else !aged
    ensures reused ==>
      && store.rows == old(store.rows)
      && var row := store.rows[job.key];
      result == if row.result.Some? then row.result.value else Result(NeedsHuman, row.count)
    ensures var before := RowOf(old(store.rows), job.key);
      !reused ==>
        && Settles(job, before, store.rows[job.key], result)
        && (result.outcome == Repaired <==>
            Admitted(job, before, job.key !in old(store.rows), currentHead, diagnosis, world)
              && AllPassed(before, world))
        && (result.outcome == Stale <==>
            HeadMovedBefore(job, before, job.key !in old(store.rows), currentHead, world)
            || (Admitted(job, before, job.key !in old(store.rows), currentHead, diagnosis, world)
              && HeadMovedOn(before, world)))
    ensures var before, inserted := RowOf(old(store.rows), job.key), job.key !in old(store.rows);
      !reused ==>
        && (result.outcome in {InfraOrFlaky, Unsupported} <==>
              RefusedFor(result.outcome, job, before, inserted, currentHead, diagnosis, world))
        && (forall o :: RefusedFor(o, job, before, inserted, currentHead, diagnosis, world) ==> result.outcome == o)
        && if Admitted(job, before, inserted, currentHead, diagnosis, world) then
             && Records(before, store.rows[job.key], world)
             && result.count == before.count + if Sighted(before, world) then 1 else 0
           else SameResults(before, store.rows[job.key]) && result.count == before.count
  {
    hide EvidenceOk, Final, AllPassed, HeadMovedOn, Grows, Sighted, ChecksPassed;
    var claimed, inserted := store.Claim(job.key);
    InitialSound(job);
    if !inserted && !Resumable(claimed, resume, aged) {
      return if claimed.result.Some? then claimed.result.value else Result(NeedsHuman, claimed.count), true;
    }
    reused := false;
    RefusedAs(job, GetOr(claimed.update, currentHead), claimed.count, diagnosis);
    ResumedNotRepaired(job, claimed, resume, aged);
    var head := GetOr(claimed.update, currentHead);
    var refusal := Refusal(job, head, claimed.count, diagnosis);
    var evidence := claimed;
    store.Save(job.key, evidence);
    VerdictSound(job, claimed, None);
    if !inserted && claimed.update.Some? && !world.restored {
      EndsSettled(job, claimed, NeedsHuman);
      result := Result(NeedsHuman, |evidence.observations|);
    } else if refusal.Some? {
      EndsSettled(job, claimed, refusal.value);
      result := Result(refusal.value, claimed.count);
    } else {
      AdmittedHead(job, claimed, currentHead, diagnosis);
      evidence, result := RepairCycle(store, job, claimed, world);
    }
    FinalFields(evidence, result);
    evidence := Final(evidence, result.outcome, result.count);
    store.Save(job.key, evidence);
  }

  lemma InitialSound(job: Job)
    ensures EvidenceOk(job, Initial) && Initial.outcome.None?
  {}

  lemma ResumedNotRepaired(job: Job, claimed: Evidence, resume: bool, aged: bool)
    requires EvidenceOk(job, claimed) && (claimed == Initial || Resumable(claimed, resume, aged))
    ensures claimed.outcome != Some(Repaired)
  {}

  lemma FinalFields(e: Evidence, result: Result)
    ensures var f := Final(e, result.outcome, result.count);
      f.completed && f.outcome == Some(result.outcome) && f.result == Some(result) && f.count == result.count
        && SameResults(e, f)
  {}

  lemma EndsSettled(job: Job, claimed: Evidence, outcome: Outcome)
    requires EvidenceOk(job, claimed) && outcome != Repaired
    ensures Settles(job, claimed, Final(claimed, outcome, |claimed.observations|),
      Result(outcome, |claimed.observations|))
  {
    EndsSound(job, claimed, outcome);
    hide EvidenceOk;
  }

  lemma AdmittedHead(job: Job, claimed: Evidence, currentHead: string, diagnosis: Class)
    requires EvidenceOk(job, claimed)
      && Refusal(job, GetOr(claimed.update, currentHead), claimed.count, diagnosis).None?
    ensures Unobserved(job, claimed)
  {}

  /** One more observation fits, and a recorded update is the head that was observed. */
  predicate Unobserved(job: Job, e: Evidence) {
    && |e.observations| < MAX_OBSERVATIONS
    && (e.update.Some? ==> e.update.value == job.head)
    && (e.observations != [] ==> e.update.Some?)
  }

  lemma UpdateSound(job: Job, e: Evidence, update: Option<string>)
    requires EvidenceOk(job, e) && e.update.None? && e.outcome != Some(Repaired)
    ensures EvidenceOk(job, e.(update := update)) && e.observations == []
  {}

  lemma ObservationSound(job: Job, e: Evidence, seen: Observation, outcome: Outcome)
    requires EvidenceOk(job, e) && |e.observations| < MAX_OBSERVATIONS
    requires e.update.Some? && e.localChecks == Some(true) && e.review == Some(true)
    requires e.observations != [] ==> e.update == Some(job.head)
    requires outcome == Repaired ==> seen == Observation(e.update.value, true)
    ensures EvidenceOk(job, Final(Observed(e, seen), outcome, e.count + 1)) && e.count == |e.observations|
  {}

  /** Nothing observed yet since the driver started. */
  ghost predicate Progress(job: Job, claimed: Evidence, e: Evidence) {
    && EvidenceOk(job, e) && e.outcome != Some(Repaired)
    && Grows(Some(claimed), Some(e)) && e.observations == claimed.observations && e.count == claimed.count
  }

  lemma StopSettles(job: Job, claimed: Evidence, e: Evidence)
    requires Progress(job, claimed, e)
    ensures Settles(job, claimed, Final(e, NeedsHuman, e.count), Result(NeedsHuman, e.count))
    ensures e.count == |e.observations|
  {}

  lemma VerdictProgress(job: Job, claimed: Evidence, e: Evidence, verdict: Option<bool>)
    requires Progress(job, claimed, e)
    ensures e.localChecks.None? ==> Progress(job, claimed, e.(localChecks := verdict))
    ensures e.review.None? ==> Progress(job, claimed, e.(review := verdict))
  {
    VerdictSound(job, e, verdict);
    hide EvidenceOk;
  }

  lemma UpdateProgress(job: Job, claimed: Evidence, e: Evidence, update: Option<string>)
    requires Progress(job, claimed, e) && e.update.None?
    ensures Progress(job, claimed, e.(update := update)) && e.observations == []
  {
    UpdateSound(job, e, update);
    hide EvidenceOk;
  }

  lemma ObservationSettles(job: Job, claimed: Evidence, e: Evidence, seen: Observation, outcome: Outcome)
    requires Progress(job, claimed, e) && |e.observations| < MAX_OBSERVATIONS
    requires e.update.Some? && e.localChecks == Some(true) && e.review == Some(true)
    requires e.observations != [] ==> e.update == Some(job.head)
    requires outcome == Repaired ==> seen == Observation(e.update.value, true)
    ensures Settles(job, claimed, Final(Observed(e, seen), outcome, claimed.count + 1),
      Result(outcome, claimed.count + 1))
  {
    ObservationSound(job, e, seen, outcome);
    hide EvidenceOk;
  }

  /** The update, from the record or from the guarded mutation. */
  method ApplyRepair(store: CiRepairStore, job: Job, claimed: Evidence, world: World) returns (evidence: Evidence)
    requires EvidenceOk(job, claimed) && Unobserved(job, claimed) && claimed.outcome != Some(Repaired)
    requires job.key in store.rows && store.rows[job.key] == claimed
    modifies store
    ensures store.rows == old(store.rows)[job.key := evidence]
    ensures Progress(job, claimed, evidence) && (evidence.observations != [] ==> evidence.update == Some(job.head))
    ensures evidence == claimed.(update := Or(claimed.update, world.repair))
  {
    hide EvidenceOk;
    evidence := claimed;
    if evidence.update.None? && world.repair.Some? {
      UpdateProgress(job, claimed, evidence, world.repair);
      evidence := evidence.(update := world.repair);
      store.Save(job.key, evidence);
    }
  }

  /** Local checks and review; `passed` is none when one of them threw. */
  method Verify(store: CiRepairStore, job: Job, claimed: Evidence, start: Evidence, world: World)
    returns (evidence: Evidence, passed: Option<bool>)
    requires Progress(job, claimed, start) && job.key in store.rows
    modifies store
    ensures job.key in store.rows && store.rows == old(store.rows)[job.key := store.rows[job.key]]
    ensures Progress(job, claimed, evidence) && evidence.update == start.update
    ensures passed == Some(true) <==>
      Or(start.localChecks, world.localChecks) == Some(true) && Or(start.review, world.review) == Some(true)
    ensures passed == Some(true) ==> evidence.localChecks == Some(true) && evidence.review == Some(true)
    ensures evidence.localChecks == Or(start.localChecks, world.localChecks)
    ensures evidence.review ==
      if evidence.localChecks == Some(true) then Or(start.review, world.review) else start.review
  {
    hide Progress;
    evidence := start;
    if evidence.localChecks.None? {
      if world.localChecks.None? { return evidence, None; }
      VerdictProgress(job, claimed, evidence, world.localChecks);
      evidence := evidence.(localChecks := world.localChecks);
      store.Save(job.key, evidence);
    }
    if !evidence.localChecks.value { return evidence, Some(false); }
    if evidence.review.None? {
      if world.review.None? { return evidence, None; }
      VerdictProgress(job, claimed, evidence, world.review);
      evidence := evidence.(review := world.review);
      store.Save(job.key, evidence);
    }
    passed := Some(evidence.review.value);
  }

  /** Repair, local checks, review and one remote observation; every new result is saved before the next is asked
      for. */
  method RepairCycle(
    store: CiRepairStore, job: Job, claimed: Evidence, world: World
  ) returns (evidence: Evidence, result: Result)
    requires EvidenceOk(job, claimed) && Unobserved(job, claimed) && claimed.outcome != Some(Repaired)
    requires job.key in store.rows && store.rows[job.key] == claimed
    modifies store
    ensures job.key in store.rows && store.rows == old(store.rows)[job.key := store.rows[job.key]]
    ensures Settles(job, claimed, Final(evidence, result.outcome, result.count), result)
    ensures result.outcome !in {InfraOrFlaky, Unsupported} && Records(claimed, evidence, world)
    ensures result.count == claimed.count + if Sighted(claimed, world) then 1 else 0
    ensures result.outcome == Repaired <==> AllPassed(claimed, world)
    ensures result.outcome == Stale <==> HeadMovedOn(claimed, world)
  {
    hide EvidenceOk, Settles, Final;
    evidence := ApplyRepair(store, job, claimed, world);
    if evidence.update.None? {
      StopSettles(job, claimed, evidence);
      return evidence, Result(NeedsHuman, |evidence.observations|);
    }
    var passed;
    evidence, passed := Verify(store, job, claimed, evidence, world);
    if passed != Some(true) || world.remote.None? {
      StopSettles(job, claimed, evidence);
      return evidence, Result(NeedsHuman, claimed.count);
    }
    var outcome := if Some(world.remote.value.head) != evidence.update then Stale
                   else if world.remote.value.passed then Repaired else NeedsHuman;
    ObservationSettles(job, claimed, evidence, world.remote.value, outcome);
    evidence := Observed(evidence, world.remote.value);
    store.Save(job.key, evidence);
    return evidence, Result(outcome, claimed.count + 1);
  }
}
