/** What one driver makes of the answers it gets, whatever other drivers did before. */
module CiRepairCycle {
  import opened Text
  import opened CiRepair
  import ClaimSafety
  import Claims

  /** A recorded answer stands in for a fresh one. */
  function Or<T>(recorded: Option<T>, answered: Option<T>): Option<T> {
    if recorded.Some? then recorded else answered
  }

  /** Both checks pass. */
  predicate Passes(e: Evidence, checks: Option<bool>, review: Option<bool>) {
    Or(e.localChecks, checks) == Some(true) && Or(e.review, review) == Some(true)
  }

  /** The outcome of the checks: repaired when the remote check passed on the updated head, stale when it ran on another
      one, and for a human otherwise. */
  function Judged(e: Evidence, checks: Option<bool>, review: Option<bool>, seen: Option<Observation>): Outcome {
    if !Passes(e, checks, review) || seen.None? then NeedsHuman
    else if e.update != Some(seen.value.head) then Stale
    else if seen.value.passed then Repaired else NeedsHuman
  }

  function Cycle(id: nat, checks: Option<bool>, review: Option<bool>, seen: Option<Observation>): seq<Event> {
    [RunLocalChecks(id, checks), RunReview(id, review), Observe(id, seen), Finish(id)]
  }

  lemma RunFour(job: Job, s: Sys, events: seq<Event>)
    requires |events| == 4
    ensures Run(job, s, events)
      == Step(job, Step(job, Step(job, Step(job, s, events[0]), events[1]), events[2]), events[3])
  {
    hide Step;
    var s1 := Step(job, s, events[0]);
    var s2 := Step(job, s1, events[1]);
    var s3 := Step(job, s2, events[2]);
    assert Run(job, s, events) == Run(job, s1, events[1..]);
    assert Run(job, s1, events[1..]) == Run(job, s2, events[2..]) by { assert events[1..][1..] == events[2..]; }
    assert Run(job, s2, events[2..]) == Run(job, s3, events[3..]) by { assert events[2..][1..] == events[3..]; }
    assert events[3..] == [events[3]];
    assert Run(job, s3, [events[3]]) == Run(job, Step(job, s3, events[3]), []);
  }

  /** The driver has moved on with its own evidence, and nothing else has changed but the row. */
  ghost predicate Moved(s: Sys, t: Sys, id: nat, evidence: Evidence, phase: Phase) {
    && id in s.drivers && t == s.(row := t.row, drivers := t.drivers)
    && t.drivers == s.drivers[id := s.drivers[id].(evidence := evidence, phase := phase)]
  }

  lemma ChecksAsked(job: Job, s: Sys, id: nat, checks: Option<bool>)
    requires At(s, id, Applied)
    ensures var d := s.drivers[id];
      var verdict := Or(d.evidence.localChecks, checks);
      Moved(s, Step(job, s, RunLocalChecks(id, checks)), id, d.evidence.(localChecks := verdict),
        if verdict == Some(true) then Checked
        else if verdict.None? then Ending(NeedsHuman, |d.evidence.observations|)
        else Ending(NeedsHuman, d.claimed.count))
  {}

  lemma ReviewAsked(job: Job, s: Sys, id: nat, review: Option<bool>)
    requires At(s, id, Checked)
    ensures var d := s.drivers[id];
      var verdict := Or(d.evidence.review, review);
      Moved(s, Step(job, s, RunReview(id, review)), id, d.evidence.(review := verdict),
        if verdict == Some(true) then Reviewed
        else if verdict.None? then Ending(NeedsHuman, |d.evidence.observations|)
        else Ending(NeedsHuman, d.claimed.count))
  {}

  lemma RemoteAsked(job: Job, s: Sys, id: nat, seen: Option<Observation>)
    requires At(s, id, Reviewed)
    ensures var d, t := s.drivers[id], Step(job, s, Observe(id, seen));
      if seen.None? then Moved(s, t, id, d.evidence, Ending(NeedsHuman, |d.evidence.observations|))
      else
        var used := |d.evidence.observations| + 1;
        Moved(s, t, id,
          d.evidence.(observations := d.evidence.observations + [seen.value], count := used, used := used,
                      remaining := if used >= 2 then 0 else 2 - used),
          Ending(if d.evidence.update != Some(seen.value.head) then Stale
                 else if seen.value.passed then Repaired else NeedsHuman, d.claimed.count + 1))
  {}

  /** A driver that is ending asks for nothing more. */
  lemma EndingAsksNothing(job: Job, s: Sys, id: nat, review: Option<bool>, seen: Option<Observation>)
    requires id in s.drivers && s.drivers[id].phase.Ending?
    ensures Step(job, s, RunReview(id, review)) == s && Step(job, s, Observe(id, seen)) == s
  {}

  lemma EndingFinishes(job: Job, s: Sys, id: nat)
    requires id in s.drivers && s.drivers[id].phase.Ending?
    ensures var t, d := Step(job, s, Finish(id)), s.drivers[id];
      var outcome, count := d.phase.outcome, d.phase.count;
      && t.drivers == s.drivers - {id} && t.guard == s.guard && t.repairs == s.repairs
      && t.row == Some(d.evidence.(
           count := count, used := count, remaining := if count >= 2 then 0 else 2 - count,
           outcome := Some(outcome), completed := true, result := Some(Result(outcome, count))))
  {}

  /** From its update on, a driver asks for what is not recorded, in order and only while everything passes, records
      each answer, and ends with the outcome of the checks. */
  lemma CycleDecides(
    job: Job, s: Sys, id: nat, checks: Option<bool>, review: Option<bool>, seen: Option<Observation>
  )
    requires At(s, id, Applied)
    ensures var t, d := Run(job, s, Cycle(id, checks, review, seen)), s.drivers[id];
      var before, passes := d.evidence, Passes(d.evidence, checks, review);
      && t.row.Some? && id !in t.drivers && t.guard == s.guard && t.repairs == s.repairs
      && var after := t.row.value;
      && after.completed && after.outcome == Some(Judged(before, checks, review, seen))
      && after.result == Some(Result(Judged(before, checks, review, seen), after.count))
      && after.update == before.update && after.localChecks == Or(before.localChecks, checks)
      && after.review == (if after.localChecks == Some(true) then Or(before.review, review) else before.review)
      && after.observations == before.observations + (if passes && seen.Some? then [seen.value] else [])
      && after.used == after.count && after.remaining == (if after.count >= 2 then 0 else 2 - after.count)
      && (before.observations == d.claimed.observations && d.claimed.count == |d.claimed.observations| ==>
            after.count == |after.observations|)
  {
    RunFour(job, s, Cycle(id, checks, review, seen));
    var u := Asked(job, s, id, checks, review, seen);
    hide Run, Step;
    EndingFinishes(job, u, id);
    var d := s.drivers[id];
    hide Passes;
    if Passes(d.evidence, checks, review) && seen.Some? {
      assert |d.evidence.observations + [seen.value]| == |d.evidence.observations| + 1;
    }
  }

  lemma MovedOn(s: Sys, t: Sys, u: Sys, id: nat, e: Evidence, p: Phase, f: Evidence, q: Phase)
    requires Moved(s, t, id, e, p) && Moved(t, u, id, f, q)
    ensures Moved(s, u, id, f, q)
  {
    assert t.drivers[id].(evidence := f, phase := q) == s.drivers[id].(evidence := f, phase := q);
  }

  /** The evidence and the phase after the three questions. */
  function Collected(d: Driver, checks: Option<bool>, review: Option<bool>, seen: Option<Observation>)
    : (Evidence, Phase)
  {
    var e1 := d.evidence.(localChecks := Or(d.evidence.localChecks, checks));
    var e2 := e1.(review := Or(d.evidence.review, review));
    var used := |d.evidence.observations| + 1;
    if e1.localChecks != Some(true) then
      (e1, Ending(NeedsHuman, if e1.localChecks.None? then used - 1 else d.claimed.count))
    else if e2.review != Some(true) then
      (e2, Ending(NeedsHuman, if e2.review.None? then used - 1 else d.claimed.count))
    else if seen.None? then (e2, Ending(NeedsHuman, used - 1))
    else
      (e2.(observations := d.evidence.observations + [seen.value], count := used, used := used,
           remaining := if used >= 2 then 0 else 2 - used),
       Ending(Judged(d.evidence, checks, review, seen), d.claimed.count + 1))
  }

  lemma Asked(
    job: Job, s: Sys, id: nat, checks: Option<bool>, review: Option<bool>, seen: Option<Observation>
  ) returns (u: Sys)
    requires At(s, id, Applied)
    ensures u == Step(job, Step(job, Step(job, s, RunLocalChecks(id, checks)), RunReview(id, review)),
      Observe(id, seen))
    ensures var (evidence, phase) := Collected(s.drivers[id], checks, review, seen);
      Moved(s, u, id, evidence, phase)
  {
    hide Step;
    var d := s.drivers[id];
    ChecksAsked(job, s, id, checks);
    var s1 := Step(job, s, RunLocalChecks(id, checks));
    var s2 := Step(job, s1, RunReview(id, review));
    u := Step(job, s2, Observe(id, seen));
    var d1 := s1.drivers[id];
    if d1.phase.Ending? {
      EndingAsksNothing(job, s1, id, review, seen);
    } else {
      ReviewAsked(job, s1, id, review);
      var d2 := s2.drivers[id];
      MovedOn(s, s1, s2, id, d1.evidence, d1.phase, d2.evidence, d2.phase);
      if d2.phase.Ending? {
        EndingAsksNothing(job, s2, id, review, seen);
      } else {
        RemoteAsked(job, s2, id, seen);
        var d3 := u.drivers[id];
        MovedOn(s, s2, u, id, d2.evidence, d2.phase, d3.evidence, d3.phase);
      }
    }
  }

  /** Admission: a recorded update must be brought back first; a refusal ends the repair at once; a recorded update goes
      on to the checks, and everything else to the guarded mutation. */
  lemma AdmissionDecides(job: Job, s: Sys, id: nat, restored: bool)
    requires At(s, id, Diagnosed)
    ensures var t, d := Step(job, s, Begin(id, restored)), s.drivers[id];
      var lost := !d.inserted && d.claimed.update.Some? && !restored;
      var current := job.github && job.head == d.head && d.claimed.count < 2;
      var repairable := current && d.diagnosis in {CodeConfiguration, TestExpectation};
      && t.row == s.row && id in t.drivers
      && (lost ==> t.drivers[id].phase == Ending(NeedsHuman, |d.evidence.observations|))
      && (!lost && !repairable ==>
            && t.drivers[id].phase.Ending? && t.drivers[id].phase.count == d.claimed.count
            && t.drivers[id].phase.outcome ==
                 if !job.github then Unsupported
                 else if job.head != d.head then Stale
                 else if d.claimed.count >= 2 then NeedsHuman
                 else if d.diagnosis in {Infrastructure, Flaky} then InfraOrFlaky else Unsupported)
      && (!lost && repairable ==>
            if d.evidence.update.Some? then t == Goto(s, id, Applied)
            else
              && t.drivers[id].phase == Guarding
              && t.guard == ClaimSafety.Next(s.guard, ClaimSafety.Enter(id,
                   ClaimSafety.Config(job.domains, d.head, "ci-repair:" + job.key, job.key))))
  {
    hide ClaimSafety.Next;
  }
}
