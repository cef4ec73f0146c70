/** The wake queue of one domain: coalescing deliveries, one lead, one lease. */
module Wakes {
  import opened Text

  datatype WakeState = Pending | Leased | Done

  datatype Wake = Wake(
    cursor: string, lead: string, deliveries: seq<string>, state: WakeState,
    leaseOwner: Option<string>, leaseUntil: Option<int>, attempts: nat, rerun: bool)

  datatype WakeRole = LeadRole | DuplicateRole | StaleRole | CoalescedRole
  datatype WakeClaim = Process | Skip | Blocked | Absent
  datatype WakeFinish = FinishedDone | FinishedReleased | FinishIgnored

  const WAKE_DELIVERY_LIMIT := 32

  function LastDeliveries(ids: seq<string>): seq<string> {
    if |ids| <= WAKE_DELIVERY_LIMIT then ids else ids[|ids| - WAKE_DELIVERY_LIMIT..]
  }

  function RecordWake(w: Option<Wake>, cursor: string, delivery: string): (Wake, WakeRole) {
    match w
    case None => (Wake(cursor, delivery, [delivery], Pending, None, None, 0, false), LeadRole)
    case Some(wake) =>
      if delivery in wake.deliveries then
        (wake, if delivery == wake.lead && !wake.state.Done? then LeadRole else DuplicateRole)
      else
        var ids := LastDeliveries(wake.deliveries + [delivery]);
        if Less(cursor, wake.cursor) then (wake.(deliveries := ids), StaleRole)
        else if cursor == wake.cursor then (wake.(deliveries := ids), CoalescedRole)
        else
          (wake.(cursor := cursor, lead := delivery, deliveries := ids,
                 state := if wake.state.Done? then Pending else wake.state,
                 rerun := wake.state.Leased? || wake.rerun), LeadRole)
  }

  /** Another owner's lease that has not run out. */
  predicate HeldByOther(wake: Wake, owner: string, now: int) {
    wake.state.Leased? && wake.leaseOwner != Some(owner) && wake.leaseUntil.Some? && wake.leaseUntil.value > now
  }

  function ClaimWake(
    w: Option<Wake>, delivery: string, owner: string, now: int, leaseMs: int
  ): (Option<Wake>, WakeClaim) {
    match w
    case None => (None, Absent)
    case Some(wake) =>
      if wake.lead != delivery then (w, Skip)
      else if HeldByOther(wake, owner, now) then (w, Blocked)
      else
        (Some(wake.(state := Leased, leaseOwner := Some(owner), leaseUntil := Some(now + leaseMs),
                    attempts := wake.attempts + 1, rerun := false)), Process)
  }

  predicate OwnsLease(wake: Wake, owner: string) {
    wake.state.Leased? && wake.leaseOwner == Some(owner)
  }

  function Unleased(wake: Wake): Wake {
    wake.(state := Pending, leaseOwner := None, leaseUntil := None, rerun := false)
  }

  function FinishWake(w: Option<Wake>, delivery: string, owner: string): (Option<Wake>, WakeFinish) {
    match w
    case None => (None, FinishIgnored)
    case Some(wake) =>
      if wake.state.Leased? && !OwnsLease(wake, owner) then (w, FinishIgnored)
      else if wake.lead != delivery || wake.rerun then
        if OwnsLease(wake, owner) then (Some(Unleased(wake)), FinishedReleased) else (w, FinishIgnored)
      else (Some(wake.(state := Done, leaseOwner := None, leaseUntil := None)), FinishedDone)
  }

  function ReleaseWake(w: Option<Wake>, owner: string): Option<Wake> {
    if w.Some? && OwnsLease(w.value, owner) then Some(Unleased(w.value)) else w
  }

  // ================================================================ histories

  datatype WakeEvent =
    | Record(cursor: string, delivery: string)
    | Claim(delivery: string, owner: string, now: int, leaseMs: int)
    | Finish(delivery: string, owner: string)
    | Release(owner: string)

  /** A lease that was given out. `ended` is the number of grants there were when its owner gave it up
      or renewed it; a lease taken over by another owner is never ended. */
  datatype Grant = Grant(owner: string, delivery: string, from: int, until: int, ended: Option<nat>)

  /** `recorded` lists every recorded delivery, `accepted` those that were not recognised as duplicates. `settled` says
      that a finish answered done and nothing newer was accepted or claimed since, `renewed` that a newer cursor was
      accepted since the last lease was given out. */
  datatype Trace = Trace(
    wake: Option<Wake>, recorded: seq<(string, string)>, accepted: seq<(string, string)>,
    grants: seq<Grant>, clock: int, clockForward: bool, settled: bool, renewed: bool)

  const NoWake := Trace(None, [], [], [], 0, true, false, false)

  predicate Newest(cursor: string, pairs: seq<(string, string)>) {
    forall i :: 0 <= i < |pairs| ==> Less(pairs[i].1, cursor)
  }

  function EndGrants(grants: seq<Grant>, owner: string): (r: seq<Grant>)
    ensures |r| == |grants|
  {
    seq(|grants|, i requires 0 <= i < |grants| =>
      if grants[i].owner == owner && grants[i].ended.None? then grants[i].(ended := Some(|grants|)) else grants[i])
  }

  function Step(t: Trace, e: WakeEvent): Trace {
    match e
    case Record(cursor, delivery) =>
      var duplicate := t.wake.Some? && delivery in t.wake.value.deliveries;
      t.(wake := Some(RecordWake(t.wake, cursor, delivery).0),
         recorded := t.recorded + [(delivery, cursor)],
         accepted := if duplicate then t.accepted else t.accepted + [(delivery, cursor)],
         settled := t.settled && (duplicate || !Newest(cursor, t.accepted)),
         renewed := t.renewed || (!duplicate && Newest(cursor, t.accepted)))
    case Claim(delivery, owner, now, leaseMs) =>
      var (w, result) := ClaimWake(t.wake, delivery, owner, now, leaseMs);
      if !result.Process? then t else
        t.(wake := w,
           grants := EndGrants(t.grants, owner) + [Grant(owner, delivery, now, now + leaseMs, None)],
           clock := now,
           clockForward := t.clockForward && (t.grants == [] || t.clock <= now),
           settled := false, renewed := false)
    case Finish(delivery, owner) =>
      var owned := t.wake.Some? && OwnsLease(t.wake.value, owner);
      var (w, result) := FinishWake(t.wake, delivery, owner);
      t.(wake := w,
         grants := if owned then EndGrants(t.grants, owner) else t.grants,
         settled := t.settled || result.FinishedDone?)
    case Release(owner) =>
      var owned := t.wake.Some? && OwnsLease(t.wake.value, owner);
      t.(wake := ReleaseWake(t.wake, owner), grants := if owned then EndGrants(t.grants, owner) else t.grants)
  }

  function Run(t: Trace, events: seq<WakeEvent>): Trace
    decreases |events|
  {
    if events == [] then t else Run(Step(t, events[0]), events[1..])
  }

  // ---------------------------------------------------------------- the newest cursor

  ghost predicate IsMaximum(cursor: string, pairs: seq<(string, string)>) {
    && (exists i :: 0 <= i < |pairs| && pairs[i].1 == cursor)
    && (forall i :: 0 <= i < |pairs| ==> !Less(cursor, pairs[i].1))
  }

  ghost predicate Names(pairs: seq<(string, string)>, delivery: string) {
    exists i :: 0 <= i < |pairs| && pairs[i].0 == delivery
  }

  ghost predicate DeliveriesKnown(t: Trace) {
    && (t.wake.Some? ==> forall d :: d in t.wake.value.deliveries ==> Names(t.accepted, d))
    && (forall p :: p in t.accepted ==> p in t.recorded)
    && (forall p :: p in t.recorded ==> Names(t.accepted, p.0))
  }

  ghost predicate CursorsOk(t: Trace) {
    && (t.wake.None? <==> t.accepted == [])
    && (t.wake.Some? ==> IsMaximum(t.wake.value.cursor, t.accepted))
    && (t.wake.Some? ==> (t.wake.value.lead, t.wake.value.cursor) in t.accepted)
  }

  lemma RecordKeepsMaximum(old_: string, pairs: seq<(string, string)>, p: (string, string))
    requires IsMaximum(old_, pairs)
    ensures IsMaximum(if Less(old_, p.1) then p.1 else old_, pairs + [p])
  {
    var cursor := if Less(old_, p.1) then p.1 else old_;
    var after := pairs + [p];
    var w :| 0 <= w < |pairs| && pairs[w].1 == old_;
    assert after[if cursor == old_ then w else |pairs|].1 == cursor;
    forall i | 0 <= i < |after| ensures !Less(cursor, after[i].1) {
      LessTotal(old_, p.1);
      LessIrreflexive(p.1);
      if i < |pairs| {
        assert after[i] == pairs[i];
        if Less(cursor, pairs[i].1) && cursor != old_ { LessTransitive(old_, cursor, pairs[i].1); }
      }
    }
  }

  lemma RecordKeepsCursors(t: Trace, cursor: string, delivery: string)
    requires CursorsOk(t)
    ensures CursorsOk(Step(t, Record(cursor, delivery)))
  {
    var u := Step(t, Record(cursor, delivery));
    if t.wake.None? {
      LessIrreflexive(cursor);
      assert u.accepted[0].1 == cursor;
    } else if delivery !in t.wake.value.deliveries {
      RecordKeepsMaximum(t.wake.value.cursor, t.accepted, (delivery, cursor));
      LessTotal(t.wake.value.cursor, cursor);
      hide IsMaximum, Less;
    }
  }

  lemma NamesMonotone(pairs: seq<(string, string)>, p: (string, string), delivery: string)
    requires Names(pairs, delivery) || p.0 == delivery
    ensures Names(pairs + [p], delivery)
  {
    var more := pairs + [p];
    if p.0 == delivery {
      assert more[|pairs|].0 == delivery;
    } else {
      var i :| 0 <= i < |pairs| && pairs[i].0 == delivery;
      assert more[i].0 == delivery;
    }
  }

  lemma RecordKeepsKnown(t: Trace, cursor: string, delivery: string)
    requires DeliveriesKnown(t)
    ensures DeliveriesKnown(Step(t, Record(cursor, delivery)))
  {
    hide Less, Names;
    var u := Step(t, Record(cursor, delivery));
    if t.wake.Some? && delivery in t.wake.value.deliveries {
      assert Names(t.accepted, delivery);
    } else {
      NamesMonotone(t.accepted, (delivery, cursor), delivery);
      forall d | Names(t.accepted, d) ensures Names(u.accepted, d) {
        NamesMonotone(t.accepted, (delivery, cursor), d);
      }
    }
  }

  lemma {:induction false} RunKeepsCursors(t: Trace, events: seq<WakeEvent>)
    requires CursorsOk(t) && DeliveriesKnown(t)
    ensures CursorsOk(Run(t, events)) && DeliveriesKnown(Run(t, events))
    decreases |events|
  {
    hide Less, IsMaximum, Names, RecordWake;
    if events != [] {
      var u := Step(t, events[0]);
      if events[0].Record? {
        RecordKeepsCursors(t, events[0].cursor, events[0].delivery);
        RecordKeepsKnown(t, events[0].cursor, events[0].delivery);
      } else {
        assert u.accepted == t.accepted && u.recorded == t.recorded;
      }
      RunKeepsCursors(u, events[1..]);
    }
  }

  /** No delivery was recorded with two cursors. */
  ghost predicate Consistent(pairs: seq<(string, string)>) {
    forall p, q :: p in pairs && q in pairs && p.0 == q.0 ==> p == q
  }

  /** In any order of arrival, the stored cursor is the greatest of the recorded cursors that were not duplicates;
      it is the greatest of all recorded cursors when a delivery always carries the same one. */
  lemma CursorIsMaximum(events: seq<WakeEvent>)
    ensures var t := Run(NoWake, events);
      && (t.wake.None? <==> t.recorded == [])
      && (t.wake.Some? ==> IsMaximum(t.wake.value.cursor, t.accepted))
      && (t.wake.Some? && Consistent(t.recorded) ==> IsMaximum(t.wake.value.cursor, t.recorded))
  {
    hide Run, Less;
    RunKeepsCursors(NoWake, events);
    var t := Run(NoWake, events);
    if t.recorded != [] {
      assert t.recorded[0] in t.recorded;
      assert Names(t.accepted, t.recorded[0].0);
    }
    if t.accepted != [] { assert t.accepted[0] in t.recorded; }
    if t.wake.Some? && Consistent(t.recorded) {
      var cursor := t.wake.value.cursor;
      assert (t.wake.value.lead, cursor) in t.recorded;
      forall i | 0 <= i < |t.recorded| ensures !Less(cursor, t.recorded[i].1) {
        assert Names(t.accepted, t.recorded[i].0);
        var k :| 0 <= k < |t.accepted| && t.accepted[k].0 == t.recorded[i].0;
        assert t.accepted[k] in t.accepted && t.recorded[i] in t.recorded;
      }
    }
  }

  // ---------------------------------------------------------------- leases

  predicate GaveWay(grants: seq<Grant>, i: int, j: int)
    requires 0 <= i < |grants| && 0 <= j < |grants|
  {
    grants[i].owner == grants[j].owner
    || (grants[i].ended.Some? && grants[i].ended.value <= j)
    || grants[i].until <= grants[j].from
  }

  ghost predicate LeasesOk(t: Trace) {
    && (t.wake.None? ==> t.grants == [])
    && (t.wake.Some? ==> t.wake.value.attempts == |t.grants|)
    && (t.wake.Some? && t.wake.value.state.Leased? ==>
          && t.grants != []
          && var last := t.grants[|t.grants| - 1];
          && last.ended.None? && t.wake.value.leaseOwner == Some(last.owner)
            && t.wake.value.leaseUntil == Some(last.until)
          && (!t.wake.value.rerun ==> t.wake.value.lead == last.delivery))
    && (t.wake.Some? && t.wake.value.rerun ==> t.wake.value.state.Leased?)
    && (forall i :: 0 <= i < |t.grants| && t.grants[i].ended.Some? ==> t.grants[i].ended.value <= |t.grants|)
    && (t.clockForward ==> forall i :: 0 <= i < |t.grants| && t.grants[i].ended.None? ==>
          t.grants[i].until <= t.clock || (i == |t.grants| - 1 && t.wake.value.state.Leased?))
    && (t.clockForward ==> forall i, j :: 0 <= i < j < |t.grants| ==> GaveWay(t.grants, i, j))
  }

  lemma ClaimKeepsLeases(t: Trace, e: WakeEvent)
    requires LeasesOk(t) && e.Claim?
    ensures LeasesOk(Step(t, e))
  {
    var u := Step(t, e);
    if u.clockForward && |u.grants| != |t.grants| {
      var n := |t.grants|;
      forall i | 0 <= i < n ensures GaveWay(u.grants, i, n) {
        if u.grants[i].ended.None? && u.grants[i].owner != e.owner {
          assert t.grants[i].ended.None?;
        }
      }
      forall i, j | 0 <= i < j < |u.grants| ensures GaveWay(u.grants, i, j) {
        if j < n { assert GaveWay(t.grants, i, j); }
      }
    }
  }

  lemma EndKeepsLeases(t: Trace, e: WakeEvent)
    requires LeasesOk(t) && (e.Finish? || e.Release?)
    ensures LeasesOk(Step(t, e))
  {
    var u := Step(t, e);
    if u.clockForward {
      forall i, j | 0 <= i < j < |u.grants| ensures GaveWay(u.grants, i, j) {
        assert GaveWay(t.grants, i, j);
      }
    }
  }

  lemma {:induction false} RunKeepsLeases(t: Trace, events: seq<WakeEvent>)
    requires LeasesOk(t)
    ensures LeasesOk(Run(t, events))
    decreases |events|
  {
    if events != [] {
      match events[0] {
        case Record(_, _) =>
        case Claim(_, _, _, _) => ClaimKeepsLeases(t, events[0]);
        case Finish(_, _) => EndKeepsLeases(t, events[0]);
        case Release(_) => EndKeepsLeases(t, events[0]);
      }
      RunKeepsLeases(Step(t, events[0]), events[1..]);
    }
  }

  /** As long as the claiming clocks do not run backwards, a lease of one owner starts only after every earlier
      lease of another owner was given up or ran out; attempts count the leases. */
  lemma LeasesNeverOverlap(events: seq<WakeEvent>)
    ensures var t := Run(NoWake, events);
      && (t.clockForward ==> forall i, j :: 0 <= i < j < |t.grants| && t.grants[i].owner != t.grants[j].owner ==>
            (t.grants[i].ended.Some? && t.grants[i].ended.value <= j) || t.grants[i].until <= t.grants[j].from)
      && (t.wake.Some? ==> t.wake.value.attempts == |t.grants|)
      && (t.wake.Some? && t.wake.value.rerun ==> t.wake.value.state.Leased?)
  {
    RunKeepsLeases(NoWake, events);
    var t := Run(NoWake, events);
    if t.clockForward {
      forall i, j | 0 <= i < j < |t.grants| && t.grants[i].owner != t.grants[j].owner
        ensures (t.grants[i].ended.Some? && t.grants[i].ended.value <= j) || t.grants[i].until <= t.grants[j].from
      {
        assert GaveWay(t.grants, i, j);
      }
    }
  }

  /** The holder of a lease reaches "done" exactly when it names the lead and no newer lead came in meanwhile;
      then that lead was handed out under this lease and carries the greatest cursor. Otherwise the wake goes
      back to pending, so a newer wake is not lost. */
  lemma DoneOnlyForNewest(events: seq<WakeEvent>, delivery: string, owner: string)
    requires var t := Run(NoWake, events); t.wake.Some? && OwnsLease(t.wake.value, owner)
    ensures var t := Run(NoWake, events);
      var wake := t.wake.value;
      var (after, result) := FinishWake(t.wake, delivery, owner);
      && (result.FinishedDone? <==> delivery == wake.lead && !wake.rerun)
      && (result.FinishedDone? ==>
            && t.grants != []
            && t.grants[|t.grants| - 1].delivery == delivery
            && t.grants[|t.grants| - 1].owner == owner
            && (delivery, wake.cursor) in t.accepted
            && IsMaximum(wake.cursor, t.accepted))
      && (!result.FinishedDone? ==>
            result.FinishedReleased? && after == Some(Unleased(wake)) && after.value.state.Pending?)
  {
    hide Run, IsMaximum;
    RunKeepsLeases(NoWake, events);
    RunKeepsCursors(NoWake, events);
  }

  // ---------------------------------------------------------------- what the state means

  predicate LastOpen(grants: seq<Grant>) { grants != [] && grants[|grants| - 1].ended.None? }

  /** The first accepted delivery with the newest cursor. */
  ghost predicate IsLead(lead: string, cursor: string, accepted: seq<(string, string)>) {
    exists i :: 0 <= i < |accepted| && accepted[i] == (lead, cursor) && Newest(cursor, accepted[..i])
      && !exists j :: i < j < |accepted| && Less(cursor, accepted[j].1)
  }

  /** Work is leased while the last lease has not ended, done when it was settled, and pending otherwise; it runs again
      when something newer came in under the lease. */
  ghost predicate StateTells(t: Trace) {
    t.wake.Some? ==>
      var wake := t.wake.value;
      && (wake.state.Leased? <==> LastOpen(t.grants))
      && (wake.state.Done? <==> t.settled)
      && (wake.state.Leased? ==> (wake.rerun <==> t.renewed))
      && (!wake.state.Leased? ==> !wake.rerun && wake.leaseOwner.None? && wake.leaseUntil.None?)
      && IsLead(wake.lead, wake.cursor, t.accepted)
  }

  lemma NewestIff(t: Trace, cursor: string)
    requires t.wake.Some? && IsMaximum(t.wake.value.cursor, t.accepted)
    ensures Newest(cursor, t.accepted) <==> Less(t.wake.value.cursor, cursor)
  {
    var newest := t.wake.value.cursor;
    if Less(newest, cursor) {
      forall i | 0 <= i < |t.accepted| ensures Less(t.accepted[i].1, cursor) {
        LessTotal(t.accepted[i].1, newest);
        if t.accepted[i].1 != newest { LessTransitive(t.accepted[i].1, newest, cursor); }
      }
    }
  }

  lemma LeadStays(t: Trace, p: (string, string))
    requires t.wake.Some? && IsLead(t.wake.value.lead, t.wake.value.cursor, t.accepted)
    requires !Less(t.wake.value.cursor, p.1)
    ensures IsLead(t.wake.value.lead, t.wake.value.cursor, t.accepted + [p])
  {
    var lead, cursor, more := t.wake.value.lead, t.wake.value.cursor, t.accepted + [p];
    var i :| 0 <= i < |t.accepted| && t.accepted[i] == (lead, cursor) && Newest(cursor, t.accepted[..i])
      && !exists j :: i < j < |t.accepted| && Less(cursor, t.accepted[j].1);
    assert more[..i] == t.accepted[..i] && more[i] == (lead, cursor);
    hide Newest, Less;
    assert forall j :: i < j < |more| ==> !Less(cursor, more[j].1);
  }

  lemma NewLead(accepted: seq<(string, string)>, p: (string, string))
    requires Newest(p.1, accepted)
    ensures IsLead(p.0, p.1, accepted + [p])
  {
    var more := accepted + [p];
    assert more[..|accepted|] == accepted && more[|accepted|] == p;
  }

  lemma RecordTells(t: Trace, cursor: string, delivery: string)
    requires StateTells(t) && CursorsOk(t) && (t.wake.None? ==> !t.settled && t.grants == [])
    ensures StateTells(Step(t, Record(cursor, delivery)))
  {
    if t.wake.None? {
      NewLead([], (delivery, cursor));
      assert [] + [(delivery, cursor)] == [(delivery, cursor)];
    } else if delivery !in t.wake.value.deliveries {
      NewestIff(t, cursor);
      LessTotal(cursor, t.wake.value.cursor);
      LessIrreflexive(cursor);
      if Less(t.wake.value.cursor, cursor) {
        NewLead(t.accepted, (delivery, cursor));
      } else {
        LeadStays(t, (delivery, cursor));
      }
      hide Less, Newest, IsMaximum, IsLead;
    }
  }

  lemma OtherTells(t: Trace, e: WakeEvent)
    requires StateTells(t) && LeasesOk(t) && !e.Record?
    ensures StateTells(Step(t, e))
  {
    hide IsLead, GaveWay;
    if e.Claim? {
      var u := Step(t, e);
      assert u.grants != t.grants ==> u.grants[|u.grants| - 1].ended.None?;
    }
  }

  ghost predicate NothingYet(t: Trace) { t.wake.None? ==> !t.settled && t.grants == [] }

  lemma NothingStays(t: Trace, e: WakeEvent)
    requires NothingYet(t)
    ensures NothingYet(Step(t, e))
  {
    hide Less, Newest;
  }

  lemma {:induction false} RunTells(t: Trace, events: seq<WakeEvent>)
    requires StateTells(t) && NothingYet(t) && LeasesOk(t) && CursorsOk(t) && DeliveriesKnown(t)
    ensures var u := Run(t, events);
      StateTells(u) && NothingYet(u) && LeasesOk(u) && CursorsOk(u) && DeliveriesKnown(u)
    decreases |events|
  {
    if events != [] {
      var e, u := events[0], Step(t, events[0]);
      assert Run(t, [e]) == u by { assert Run(u, []) == u; }
      RunKeepsCursors(t, [e]);
      RunKeepsLeases(t, [e]);
      NothingStays(t, e);
      if e.Record? { RecordTells(t, e.cursor, e.delivery); } else { OtherTells(t, e); }
      hide StateTells, LeasesOk, CursorsOk, DeliveriesKnown, Step, NothingYet;
      RunTells(u, events[1..]);
    }
  }

  // ---------------------------------------------------------------- when the lead is remembered

  function Ids(pairs: seq<(string, string)>): (r: seq<string>)
    ensures |r| == |pairs|
  {
    seq(|pairs|, i requires 0 <= i < |pairs| => pairs[i].0)
  }

  ghost predicate Distinct(ids: seq<string>) {
    forall i, j :: 0 <= i < j < |ids| ==> ids[i] != ids[j]
  }

  /** The stored list is the capped list of what was accepted, and names no delivery twice. */
  ghost predicate ListOk(t: Trace) {
    t.wake.Some? ==>
      t.wake.value.deliveries == LastDeliveries(Ids(t.accepted)) && Distinct(t.wake.value.deliveries)
        && t.accepted != []
  }

  lemma CappedTwice(ids: seq<string>, id: string)
    ensures LastDeliveries(LastDeliveries(ids) + [id]) == LastDeliveries(ids + [id])
    ensures forall x :: x in LastDeliveries(ids) ==> x in ids
  {}

  lemma RecordKeepsList(t: Trace, cursor: string, delivery: string)
    requires ListOk(t) && (t.wake.None? ==> t.accepted == [])
    ensures ListOk(Step(t, Record(cursor, delivery)))
  {
    hide Less;
    var u := Step(t, Record(cursor, delivery));
    assert Ids(t.accepted + [(delivery, cursor)]) == Ids(t.accepted) + [delivery];
    CappedTwice(Ids(t.accepted), delivery);
    if t.wake.Some? && delivery !in t.wake.value.deliveries {
      assert Distinct(t.wake.value.deliveries + [delivery]);
    }
  }

  lemma {:induction false} RunKeepsList(t: Trace, events: seq<WakeEvent>)
    requires ListOk(t) && CursorsOk(t) && DeliveriesKnown(t)
    ensures ListOk(Run(t, events))
    decreases |events|
  {
    hide Less, IsMaximum, Names, RecordWake, LastDeliveries;
    if events != [] {
      RunKeepsCursors(t, [events[0]]);
      assert Run(t, [events[0]]) == Step(t, events[0]) by { assert Run(Step(t, events[0]), []) == Step(t, events[0]); }
      if events[0].Record? { RecordKeepsList(t, events[0].cursor, events[0].delivery); }
      RunKeepsList(Step(t, events[0]), events[1..]);
    }
  }

  /** The delivery is one of the last that were accepted, as many as the list holds. */
  ghost predicate AmongLast(accepted: seq<(string, string)>, delivery: string) {
    exists i :: 0 <= i < |accepted| && |accepted| - i <= WAKE_DELIVERY_LIMIT && accepted[i].0 == delivery
  }

  lemma CappedMembers(accepted: seq<(string, string)>, delivery: string)
    ensures delivery in LastDeliveries(Ids(accepted)) <==> AmongLast(accepted, delivery)
  {
    var ids := Ids(accepted);
    var last := LastDeliveries(ids);
    var skipped := |ids| - |last|;
    assert forall k :: 0 <= k < |last| ==> last[k] == ids[skipped + k];
    if i :| 0 <= i < |accepted| && |accepted| - i <= WAKE_DELIVERY_LIMIT && accepted[i].0 == delivery {
      assert last[i - skipped] == delivery;
    }
    if k :| 0 <= k < |last| && last[k] == delivery { assert accepted[skipped + k].0 == delivery; }
  }

  /** After any events the list is the last 32 accepted deliveries, each once; so a delivery, and in particular the
      lead, is on it exactly when it is among the last 32 that were accepted. */
  lemma LeadKeptIff(events: seq<WakeEvent>)
    ensures var t := Run(NoWake, events);
      t.wake.Some? ==>
        && Distinct(t.wake.value.deliveries) && 0 < |t.wake.value.deliveries| <= WAKE_DELIVERY_LIMIT
        && (t.wake.value.lead in t.wake.value.deliveries <==> AmongLast(t.accepted, t.wake.value.lead))
        && forall delivery :: delivery in t.wake.value.deliveries <==> AmongLast(t.accepted, delivery)
  {
    hide Run;
    RunKeepsList(NoWake, events);
    var t := Run(NoWake, events);
    forall delivery ensures delivery in LastDeliveries(Ids(t.accepted)) <==> AmongLast(t.accepted, delivery) {
      CappedMembers(t.accepted, delivery);
    }
  }

  /** Recording drops the lead exactly when the list is full, the lead is its oldest entry, and the delivery is new
      without carrying a newer cursor. */
  lemma LeadDroppedIff(wake: Wake, cursor: string, delivery: string)
    requires Distinct(wake.deliveries) && 0 < |wake.deliveries| <= WAKE_DELIVERY_LIMIT && wake.lead in wake.deliveries
    ensures var after := RecordWake(Some(wake), cursor, delivery).0;
      after.lead !in after.deliveries <==>
        && |wake.deliveries| == WAKE_DELIVERY_LIMIT && wake.deliveries[0] == wake.lead
        && delivery !in wake.deliveries && !Less(wake.cursor, cursor)
  {
    LessTotal(wake.cursor, cursor);
    LessIrreflexive(cursor);
    hide Less;
    var old_, all := wake.deliveries, wake.deliveries + [delivery];
    var last := LastDeliveries(all);
    assert last[|last| - 1] == delivery;
    var i :| 0 <= i < |old_| && old_[i] == wake.lead;
    if |old_| < WAKE_DELIVERY_LIMIT {
      assert last[i] == wake.lead;
    } else {
      assert last == old_[1..] + [delivery];
      assert i > 0 ==> old_[1..][i - 1] == wake.lead;
    }
  }

  // ---------------------------------------------------------------- what a role promises

  /** A recorder that is told "lead" may claim the wake at once unless another owner holds it, one told "stale" or
      "coalesced" is turned away, and one told "duplicate" only finds work that is done or led by another. The one
      exception is a lead that is no longer on the list of deliveries: recorded again, it may still claim. */
  lemma RoleDecidesClaim(w: Option<Wake>, cursor: string, delivery: string, owner: string, now: int, leaseMs: int)
    ensures var (after, role) := RecordWake(w, cursor, delivery);
      var answer := ClaimWake(Some(after), delivery, owner, now, leaseMs).1;
      var forgotten := w.Some? && w.value.lead == delivery && delivery !in w.value.deliveries;
      && (role.LeadRole? ==> (answer.Process? <==> !HeldByOther(after, owner, now)) && !after.state.Done?)
      && (role.StaleRole? || role.CoalescedRole? ==> (answer.Skip? <==> !forgotten))
      && (role.DuplicateRole? ==> answer.Skip? || after.state.Done?)
      && delivery in after.deliveries
  {
    if w.Some? && delivery !in w.value.deliveries {
      var all := w.value.deliveries + [delivery];
      assert all[|all| - 1] == delivery && LastDeliveries(all)[|LastDeliveries(all)| - 1] == delivery;
    }
  }

  /** After any events, a recorder told "stale" or "coalesced" is turned away unless it is the lead and 32 other
      deliveries were accepted since. */
  lemma TurnedAwayIff(
    events: seq<WakeEvent>, cursor: string, delivery: string, owner: string, now: int, leaseMs: int
  )
    requires
      var role := RecordWake(Run(NoWake, events).wake, cursor, delivery).1;
      role.StaleRole? || role.CoalescedRole?
    ensures var t := Run(NoWake, events);
      var after := RecordWake(t.wake, cursor, delivery).0;
      var answer := ClaimWake(Some(after), delivery, owner, now, leaseMs).1;
      answer.Skip? <==> !(t.wake.value.lead == delivery && !AmongLast(t.accepted, delivery))
  {
    hide Run, AmongLast;
    LeadKeptIff(events);
    RoleDecidesClaim(Run(NoWake, events).wake, cursor, delivery, owner, now, leaseMs);
  }

  /** The lead can fall off the list: after 32 stale deliveries it is no longer recognised as recorded. */
  lemma LeadCanBeForgotten(wake: Wake, late: seq<string>, cursor: string)
    requires |late| == WAKE_DELIVERY_LIMIT && Less(cursor, wake.cursor)
    requires forall i, j :: 0 <= i < j < |late| ==> late[i] != late[j]
    requires forall i :: 0 <= i < |late| ==> late[i] !in wake.deliveries && late[i] != wake.lead
    requires |wake.deliveries| <= WAKE_DELIVERY_LIMIT
    ensures var after := RecordAll(wake, late, cursor);
      after.lead == wake.lead && after.cursor == wake.cursor && after.deliveries == late
        && wake.lead !in after.deliveries
  {
    RecordedLate(wake, late, cursor, |late|);
    assert late[..|late|] == late;
    var all := wake.deliveries + late;
    assert all[|all| - WAKE_DELIVERY_LIMIT..] == late;
  }

  function RecordAll(wake: Wake, deliveries: seq<string>, cursor: string): Wake {
    if deliveries == [] then wake
    else
      var before := RecordAll(wake, deliveries[..|deliveries| - 1], cursor);
      RecordWake(Some(before), cursor, deliveries[|deliveries| - 1]).0
  }

  lemma {:induction false} RecordedLate(wake: Wake, late: seq<string>, cursor: string, n: nat)
    requires n <= |late| && Less(cursor, wake.cursor) && |wake.deliveries| <= WAKE_DELIVERY_LIMIT
    requires forall i, j :: 0 <= i < j < |late| ==> late[i] != late[j]
    requires forall i :: 0 <= i < |late| ==> late[i] !in wake.deliveries
    ensures RecordAll(wake, late[..n], cursor) == wake.(deliveries := LastDeliveries(wake.deliveries + late[..n]))
  {
    if n > 0 {
      RecordedLate(wake, late, cursor, n - 1);
      assert late[..n][..n - 1] == late[..n - 1];
      var before := wake.deliveries + late[..n - 1];
      assert wake.deliveries + late[..n] == before + [late[n - 1]];
      CappedTwice(before, late[n - 1]);
      assert late[n - 1] !in before;
    } else {
      assert wake.deliveries + late[..0] == wake.deliveries;
    }
  }

  // ---------------------------------------------------------------- what the answers say

  /** The delivery leads: it was the first to bring the newest cursor. */
  ghost predicate Leads(t: Trace, delivery: string) { exists cursor :: IsLead(delivery, cursor, t.accepted) }

  lemma LeadUnique(accepted: seq<(string, string)>, lead: string, cursor: string, other: string, c: string)
    requires IsLead(lead, cursor, accepted) && IsLead(other, c, accepted)
    ensures lead == other && cursor == c
  {
    var i :| 0 <= i < |accepted| && accepted[i] == (lead, cursor) && Newest(cursor, accepted[..i])
      && !exists j :: i < j < |accepted| && Less(cursor, accepted[j].1);
    var k :| 0 <= k < |accepted| && accepted[k] == (other, c) && Newest(c, accepted[..k])
      && !exists j :: k < j < |accepted| && Less(c, accepted[j].1);
    NewestBefore(accepted, i, cursor);
    NewestBefore(accepted, k, c);
  }

  lemma NewestBefore(accepted: seq<(string, string)>, n: nat, cursor: string)
    requires n <= |accepted| && Newest(cursor, accepted[..n])
    ensures forall i :: 0 <= i < n ==> Less(accepted[i].1, cursor)
  {
    forall i | 0 <= i < n ensures Less(accepted[i].1, cursor) { assert accepted[..n][i] == accepted[i]; }
  }

  lemma LeadsIff(t: Trace, delivery: string)
    requires t.wake.Some? && StateTells(t)
    ensures Leads(t, delivery) <==> t.wake.value.lead == delivery
  {
    hide IsLead;
    if cursor :| IsLead(delivery, cursor, t.accepted) {
      LeadUnique(t.accepted, t.wake.value.lead, t.wake.value.cursor, delivery, cursor);
    }
  }

  lemma RunMeans(events: seq<WakeEvent>)
    ensures var t := Run(NoWake, events);
      && StateTells(t) && NothingYet(t) && LeasesOk(t) && CursorsOk(t)
      && (t.wake.None? <==> t.accepted == [])
      && (t.wake.Some? ==> forall d :: Leads(t, d) <==> t.wake.value.lead == d)
      && (t.wake.Some? ==> forall d :: d in t.wake.value.deliveries <==> AmongLast(t.accepted, d))
  {
    RunTells(NoWake, events);
    LeadKeptIff(events);
    var t := Run(NoWake, events);
    if t.wake.Some? {
      hide Run, IsLead, Leads, AmongLast, StateTells;
      forall d ensures Leads(t, d) <==> t.wake.value.lead == d { LeadsIff(t, d); }
    }
  }

  /** Over every run, work is leased while the last lease was not given up, done when a finish settled it and nothing
      newer was accepted or claimed since, and pending otherwise; its lead is the first accepted delivery with the
      newest cursor, and it runs again exactly when something newer came in under the lease. */
  lemma StateMeans(events: seq<WakeEvent>)
    ensures var t := Run(NoWake, events);
      t.wake.Some? ==>
        var wake := t.wake.value;
        && (wake.state.Leased? <==> LastOpen(t.grants))
        && (wake.state.Done? <==> t.settled)
        && (wake.rerun <==> LastOpen(t.grants) && t.renewed)
        && IsLead(wake.lead, wake.cursor, t.accepted)
  {
    RunMeans(events);
    hide Run, LeasesOk, CursorsOk, IsLead;
  }

  /** Over every run: a delivery that is still known leads or is a duplicate, a new one leads, is stale or coalesces by
      how its cursor compares with every accepted one. */
  lemma RolesTell(events: seq<WakeEvent>, cursor: string, delivery: string)
    ensures var t := Run(NoWake, events);
      var role := RecordWake(t.wake, cursor, delivery).1;
      var known := AmongLast(t.accepted, delivery);
      var outdated := exists i :: 0 <= i < |t.accepted| && Less(cursor, t.accepted[i].1);
      && (role.LeadRole? <==> if known then Leads(t, delivery) && !t.settled else Newest(cursor, t.accepted))
      && (role.DuplicateRole? <==> known && !(Leads(t, delivery) && !t.settled))
      && (role.StaleRole? <==> !known && outdated)
      && (role.CoalescedRole? <==> !known && !outdated && !Newest(cursor, t.accepted))
  {
    RunMeans(events);
    var t := Run(NoWake, events);
    hide Run, LeasesOk, AmongLast, Leads, IsLead;
    assert t.wake.None? ==> !AmongLast(t.accepted, delivery) by { NoneAmong(delivery); }
    if t.wake.Some? {
      NewestIff(t, cursor);
      OutdatedIff(t, cursor);
      LessTotal(cursor, t.wake.value.cursor);
      LessIrreflexive(cursor);
    }
  }

  lemma NoneAmong(delivery: string)
    ensures !AmongLast([], delivery)
  {}

  lemma OutdatedIff(t: Trace, cursor: string)
    requires t.wake.Some? && IsMaximum(t.wake.value.cursor, t.accepted)
    ensures (exists i :: 0 <= i < |t.accepted| && Less(cursor, t.accepted[i].1)) <==> Less(cursor, t.wake.value.cursor)
  {
    if i :| 0 <= i < |t.accepted| && Less(cursor, t.accepted[i].1) {
      LessTotal(t.accepted[i].1, t.wake.value.cursor);
      if t.accepted[i].1 != t.wake.value.cursor { LessTransitive(cursor, t.accepted[i].1, t.wake.value.cursor); }
    }
  }

  /** The last lease is open and was given to the owner. */
  predicate Holds(t: Trace, owner: string) { LastOpen(t.grants) && t.grants[|t.grants| - 1].owner == owner }

  /** Over every run: only the lead may claim, and it must wait exactly while another owner's lease is open and has not
      run out; the new lease is the claimer's and ends when it asked for. */
  lemma ClaimsTell(events: seq<WakeEvent>, delivery: string, owner: string, now: int, leaseMs: int)
    ensures var t := Run(NoWake, events);
      var (after, answer) := ClaimWake(t.wake, delivery, owner, now, leaseMs);
      var other := LastOpen(t.grants) && !Holds(t, owner) && t.grants[|t.grants| - 1].until > now;
      && (answer.Absent? <==> t.accepted == [])
      && (answer.Skip? <==> t.accepted != [] && !Leads(t, delivery))
      && (answer.Blocked? <==> t.accepted != [] && Leads(t, delivery) && other)
      && (answer.Process? ==> after.value.leaseOwner == Some(owner) && after.value.leaseUntil == Some(now + leaseMs))
  {
    RunMeans(events);
    hide Run, CursorsOk, AmongLast, Leads, IsLead;
  }

  /** Over every run: a finish settles the work exactly when it names the lead and no lease stands in the way, be it
      another owner's or the own one with newer work under it; and the holder gives the lease up in any other case. */
  lemma FinishesTell(events: seq<WakeEvent>, delivery: string, owner: string)
    ensures var t := Run(NoWake, events);
      var answer := FinishWake(t.wake, delivery, owner).1;
      && (answer.FinishedDone? <==>
            t.accepted != [] && Leads(t, delivery) && (LastOpen(t.grants) ==> Holds(t, owner) && !t.renewed))
      && (answer.FinishedReleased? <==> Holds(t, owner) && !answer.FinishedDone?)
  {
    RunMeans(events);
    hide Run, CursorsOk, AmongLast, Leads, IsLead;
  }

  /** A lease that is given up leaves everything else as it was: the lead can be recorded and claimed at once, by any
      owner. A release by anyone but the holder changes nothing. */
  lemma ReleaseGivesBack(
    events: seq<WakeEvent>, owner: string, cursor: string, next: string, now: int, leaseMs: int
  )
    ensures var t := Run(NoWake, events);
      var after := ReleaseWake(t.wake, owner);
      && (!Holds(t, owner) ==> after == t.wake)
      && (Holds(t, owner) ==>
            && after.Some?
            && after.value.cursor == t.wake.value.cursor && after.value.lead == t.wake.value.lead
            && after.value.deliveries == t.wake.value.deliveries && after.value.attempts == t.wake.value.attempts
            && ClaimWake(after, t.wake.value.lead, next, now, leaseMs).1.Process?
            && (AmongLast(t.accepted, t.wake.value.lead) ==> RecordWake(after, cursor, t.wake.value.lead).1.LeadRole?))
  {
    RunMeans(events);
    hide Run, CursorsOk, AmongLast, Leads, IsLead;
  }

  /** So does the holder's finish when it does not settle the work. */
  lemma UnsettledGivesBack(events: seq<WakeEvent>, delivery: string, owner: string)
    requires Holds(Run(NoWake, events), owner)
    ensures var t := Run(NoWake, events);
      var (after, answer) := FinishWake(t.wake, delivery, owner);
      answer.FinishedReleased? ==> after == ReleaseWake(t.wake, owner)
  {
    RunMeans(events);
    hide Run, CursorsOk, AmongLast, Leads, IsLead;
  }
}
