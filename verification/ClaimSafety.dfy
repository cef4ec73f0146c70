/** Any number of guarded mutations, interleaved transaction by transaction and crashing anywhere. */
module ClaimSafety {
  import opened Text
  import opened Claims

  // ================================================================ what every transaction keeps

  ghost predicate FreshRows(db: Db) {
    forall p :: p in db.claims && Active(db.claims[p]) ==>
      db.claims[p].seenCursor == Current(db, p.domain, Some(db.claims[p].seenCursor))
  }

  function CompletedOn(claims: map<ClaimKey, ClaimRow>, d: string): set<ClaimKey> {
    set p | p in claims && p.domain == d && claims[p].status.Completed?
  }

  ghost predicate RevisionsCount(db: Db) {
    forall d :: Revision(db, d) == |CompletedOn(db.claims, d)|
  }

  ghost predicate WorldOk(db: Db) {
    forall d :: d in db.world ==>
      db.world[d].revision >= 1 && ValidHead(db.world[d].head) && db.world[d].summary == "head " + db.world[d].head
  }

  ghost predicate ResultsRecorded(claims: map<ClaimKey, ClaimRow>) {
    forall p :: p in claims ==> (claims[p].status.Completed? <==> claims[p].result.Some?)
  }

  ghost predicate TablesOk(db: Db) {
    UniqueActive(db.claims) && FreshRows(db) && RevisionsCount(db) && WorldOk(db) && ResultsRecorded(db.claims)
  }

  /** How one set of tables may follow another: nothing that happened is undone. */
  ghost predicate Evolves(before: Db, after: Db) {
    && before.holds <= after.holds
    && (forall p :: p in before.claims && before.claims[p].status.Completed? ==>
          p in after.claims && after.claims[p] == before.claims[p])
    && (forall p :: p in before.claims && before.claims[p].status.Unknown? ==>
          p in after.claims && after.claims[p].runId == before.claims[p].runId && !after.claims[p].status.Claimed?)
    && (forall d :: Revision(before, d) <= Revision(after, d))
    && (forall d :: d in before.world && Revision(before, d) == Revision(after, d) ==>
          d in after.world && after.world[d] == before.world[d])
  }

  lemma EvolvesTransitive(a: Db, b: Db, c: Db)
    requires Evolves(a, b) && Evolves(b, c)
    ensures Evolves(a, c)
  {}

  /** The rows of a domain that are completed do not change when no row's completion changes. */
  lemma SameCompleted(before: Db, after: Db)
    requires RevisionsCount(before) && after.world == before.world
    requires forall p :: (p in before.claims && before.claims[p].status.Completed?)
                    <==> (p in after.claims && after.claims[p].status.Completed?)
    ensures RevisionsCount(after)
  {
    forall d ensures Revision(after, d) == |CompletedOn(after.claims, d)| {
      assert CompletedOn(after.claims, d) == CompletedOn(before.claims, d);
      assert Revision(before, d) == |CompletedOn(before.claims, d)|;
    }
  }

  /** No other key is active on any of the domains. */
  ghost predicate Unclaimed(claims: map<ClaimKey, ClaimRow>, domains: set<string>, key: string) {
    forall p :: p in claims && p.domain in domains && Active(claims[p]) ==> p.key == key
  }

  lemma ClaimRowsUnique(
    claims: map<ClaimKey, ClaimRow>, domains: set<string>, key: string, runId: string, seen: map<string, string>
  )
    requires UniqueActive(claims) && Unclaimed(claims, domains, key)
    ensures UniqueActive(ClaimRows(claims, domains, key, runId, seen))
  {}

  lemma ClaimRowsFresh(db: Db, domains: set<string>, key: string, runId: string, seen: map<string, string>)
    requires FreshRows(db) && forall d :: d in domains ==> !Stale(db, d, seen)
    ensures FreshRows(db.(claims := ClaimRows(db.claims, domains, key, runId, seen)))
  {}

  lemma ClaimRowsKeeps(db: Db, domains: set<string>, key: string, runId: string, seen: map<string, string>)
    requires TablesOk(db)
    requires Unclaimed(db.claims, domains, key) && forall d :: d in domains ==> !Stale(db, d, seen)
    ensures var after := db.(claims := ClaimRows(db.claims, domains, key, runId, seen));
            TablesOk(after) && Evolves(db, after)
  {
    hide Current, Stale, ValidHead;
    var after := db.(claims := ClaimRows(db.claims, domains, key, runId, seen));
    ClaimRowsUnique(db.claims, domains, key, runId, seen);
    ClaimRowsFresh(db, domains, key, runId, seen);
    hide UniqueActive, FreshRows, Unclaimed;
    ClaimRowsEvolve(db, domains, key, runId, seen);
    hide ClaimRows, Evolves;
    SameCompleted(db, after);
  }

  lemma ClaimRowsEvolve(db: Db, domains: set<string>, key: string, runId: string, seen: map<string, string>)
    requires ResultsRecorded(db.claims)
    ensures var after := db.(claims := ClaimRows(db.claims, domains, key, runId, seen));
      && ResultsRecorded(after.claims) && Evolves(db, after)
      && forall p :: (p in db.claims && db.claims[p].status.Completed?)
                <==> (p in after.claims && after.claims[p].status.Completed?)
  {
    hide Lookup, GetOr;
  }

  lemma HoldsKeep(db: Db, holds: set<HoldRow>)
    requires TablesOk(db) && db.holds <= holds
    ensures TablesOk(db.(holds := holds)) && Evolves(db, db.(holds := holds))
  {}

  lemma ProposeCases(db: Db, domains: seq<string>, seen: map<string, string>, runId: string, key: string)
    requires domains != []
    ensures var after := Propose(db, domains, seen, runId, key).0;
      || (after.claims == db.claims && after.world == db.world && db.holds <= after.holds)
      || (after == db.(claims := ClaimRows(db.claims, SetOf(domains), key, runId, seen))
          && Unclaimed(db.claims, SetOf(domains), key) && forall d :: d in SetOf(domains) ==> !Stale(db, d, seen))
  {
    hide Current, Stale, DeltaLine, ParseRecord;
    if ForeignOwner(db.claims, domains, key).None? {
      forall p | p in db.claims && p.domain in SetOf(domains) && Active(db.claims[p]) ensures p.key == key {
        assert p in ActiveRows(db.claims, p.domain);
      }
    }
  }

  lemma ProposeKeeps(db: Db, domains: seq<string>, seen: map<string, string>, runId: string, key: string)
    requires TablesOk(db) && domains != []
    ensures var after := Propose(db, domains, seen, runId, key).0; TablesOk(after) && Evolves(db, after)
  {
    hide Propose, Stale, TablesOk, Evolves, ClaimRows;
    var after := Propose(db, domains, seen, runId, key).0;
    ProposeCases(db, domains, seen, runId, key);
    if after.claims == db.claims && after.world == db.world && db.holds <= after.holds {
      HoldsKeep(db, after.holds);
      assert after == db.(holds := after.holds);
    } else {
      ClaimRowsKeeps(db, SetOf(domains), key, runId, seen);
    }
  }

  lemma OwnedRow(
    claims: map<ClaimKey, ClaimRow>, domains: seq<string>, d: string, key: string, runId: string, status: Status
  )
    requires AllOwned(claims, domains, key, runId, status) && d in domains
    ensures Owned(claims, d, key, runId, status)
  {
    var i :| 0 <= i < |domains| && domains[i] == d;
    assert !BadAt(claims, domains, i, key, runId, status);
  }

  lemma MarkKeeps(db: Db, domains: seq<string>, key: string, runId: string)
    requires TablesOk(db)
    ensures var after := Mark(db, domains, key, runId); TablesOk(after) && Evolves(db, after)
  {
    var after := Mark(db, domains, key, runId);
    if AllOwned(db.claims, domains, key, runId, Claimed) {
      forall p | p in db.claims && Touches(p, SetOf(domains), key) ensures db.claims[p].status.Claimed? {
        OwnedRow(db.claims, domains, p.domain, key, runId, Claimed);
      }
      forall p | p in after.claims && Active(after.claims[p])
        ensures after.claims[p].seenCursor == Current(after, p.domain, Some(after.claims[p].seenCursor))
      {
        assert Active(db.claims[p]);
      }
      SameCompleted(db, after);
    }
  }

  lemma AbortKeeps(db: Db, domains: seq<string>, key: string, runId: string)
    requires TablesOk(db)
    ensures var after := Abort(db, domains, key, runId); TablesOk(after) && Evolves(db, after)
  {
    var after := Abort(db, domains, key, runId);
    forall p | p in after.claims && Active(after.claims[p])
      ensures after.claims[p].seenCursor == Current(after, p.domain, Some(after.claims[p].seenCursor))
    {
      assert Active(db.claims[p]);
    }
    SameCompleted(db, after);
  }

  /** Completing moves exactly one row of each listed domain into the completed set. */
  lemma CompletedOnAfter(
    claims: map<ClaimKey, ClaimRow>, domains: set<string>, key: string, record: EffectRecord, d: string
  )
    requires d in domains ==> ClaimKey(d, key) in claims && !claims[ClaimKey(d, key)].status.Completed?
    ensures |CompletedOn(CompleteRows(claims, domains, key, record), d)|
         == |CompletedOn(claims, d)| + (if d in domains then 1 else 0)
  {
    var after := CompleteRows(claims, domains, key, record);
    if d in domains {
      assert CompletedOn(after, d) == CompletedOn(claims, d) + {ClaimKey(d, key)};
    } else {
      assert CompletedOn(after, d) == CompletedOn(claims, d);
    }
  }

  lemma CompleteCounts(db: Db, domains: set<string>, key: string, record: EffectRecord)
    requires RevisionsCount(db)
    requires forall d :: d in domains ==> ClaimKey(d, key) in db.claims && db.claims[ClaimKey(d, key)].status.Unknown?
    ensures RevisionsCount(db.(claims := CompleteRows(db.claims, domains, key, record),
                               world := AdvanceWorld(db.world, domains, record.head)))
  {
    var after := db.(claims := CompleteRows(db.claims, domains, key, record),
                     world := AdvanceWorld(db.world, domains, record.head));
    forall d ensures Revision(after, d) == |CompletedOn(after.claims, d)| {
      CompletedOnAfter(db.claims, domains, key, record, d);
      assert Revision(db, d) == |CompletedOn(db.claims, d)|;
    }
  }

  lemma CompleteFresh(db: Db, domains: set<string>, key: string, record: EffectRecord)
    requires FreshRows(db) && UniqueActive(db.claims)
    requires forall d :: d in domains ==> ClaimKey(d, key) in db.claims && db.claims[ClaimKey(d, key)].status.Unknown?
    ensures FreshRows(db.(claims := CompleteRows(db.claims, domains, key, record),
                          world := AdvanceWorld(db.world, domains, record.head)))
  {}

  lemma CompleteRowsOk(claims: map<ClaimKey, ClaimRow>, domains: set<string>, key: string, record: EffectRecord)
    requires UniqueActive(claims) && ResultsRecorded(claims)
    ensures var after := CompleteRows(claims, domains, key, record); UniqueActive(after) && ResultsRecorded(after)
  {
    CompleteRowsUnique(claims, domains, key, record);
    hide UniqueActive;
  }

  lemma CompleteEvolves(db: Db, domains: set<string>, key: string, record: EffectRecord)
    requires WorldOk(db) && ValidHead(record.head)
    requires forall d :: d in domains ==> ClaimKey(d, key) in db.claims && db.claims[ClaimKey(d, key)].status.Unknown?
    ensures var after := db.(claims := CompleteRows(db.claims, domains, key, record),
                             world := AdvanceWorld(db.world, domains, record.head));
            WorldOk(after) && Evolves(db, after)
  {}

  lemma CompleteKeeps(db: Db, domains: seq<string>, key: string, runId: string, record: EffectRecord)
    requires TablesOk(db)
    ensures var after := Complete(db, domains, key, runId, record); TablesOk(after) && Evolves(db, after)
  {
    hide ValidHead, RecordLength, Current, CompleteRows, AdvanceWorld, Evolves, UniqueActive, FreshRows, RevisionsCount,
      WorldOk, ResultsRecorded;
    var after := Complete(db, domains, key, runId, record);
    if CanComplete(db, domains, key, runId, record) {
      forall d | d in SetOf(domains)
        ensures ClaimKey(d, key) in db.claims && db.claims[ClaimKey(d, key)].status.Unknown?
      {
        OwnedRow(db.claims, domains, d, key, runId, Unknown);
      }
      CompleteCounts(db, SetOf(domains), key, Stored(record));
      CompleteFresh(db, SetOf(domains), key, Stored(record));
      CompleteRowsOk(db.claims, SetOf(domains), key, Stored(record));
      CompleteEvolves(db, SetOf(domains), key, Stored(record));
    } else {
      HoldsKeep(db, db.holds);
    }
  }

  // ================================================================ cursors over time

  /** A cursor no newer than the world, once stale, is stale in every later state. */
  lemma StaleForever(before: Db, after: Db, d: string, revision: nat, head: string)
    requires Evolves(before, after) && WorldOk(after)
    requires revision <= Revision(before, d)
    requires CursorText(revision, head) != Current(before, d, Some(CursorText(revision, head)))
    ensures CursorText(revision, head) != Current(after, d, Some(CursorText(revision, head)))
  {
    assert Revision(before, d) <= Revision(after, d);
    if CursorText(revision, head) == Current(after, d, Some(CursorText(revision, head))) {
      if d in after.world {
        CursorTextInjective(revision, head, after.world[d].revision, after.world[d].head);
      }
    }
  }

  // ================================================================ the interleaved system

  datatype Config = Config(domains: seq<string>, observedHead: string, runId: string, key: string)

  /** How far a guarded mutation has come: the last thing it did. */
  datatype Phase = Entered | Snapped(seen: map<string, string>) | Admitted | Armed | Returned

  datatype Caller = Caller(cfg: Config, phase: Phase)

  datatype Event =
    | Enter(id: nat, cfg: Config)
    | TakeSnapshot(id: nat)
    | ProposeStep(id: nat)
    | MarkStep(id: nat)
    | EffectStep(id: nat)
    | CompleteStep(id: nat, record: EffectRecord)
    | Crash(id: nat)
    | AbortCall(domains: seq<string>, key: string, runId: string)
    | ProposeCall(domains: seq<string>, seen: map<string, string>, runId: string, key: string)

  /** `effects` logs the effects that began, `holds` the hold decisions that were given out. */
  datatype Sys = Sys(db: Db, callers: map<nat, Caller>, effects: seq<Config>, holds: seq<HoldRow>)

  const Start := Sys(EmptyDb, map[], [], [])

  predicate At(s: Sys, id: nat, phase: Phase) {
    id in s.callers && s.callers[id].phase == phase
  }

  ghost function ProposeIn(s: Sys, domains: seq<string>, seen: map<string, string>, runId: string, key: string): Sys
    requires domains != []
  {
    var (db, decision) := Propose(s.db, domains, seen, runId, key);
    var a := ActionDomain(domains);
    s.(db := db,
       holds := if decision.Hold? then s.holds + [HoldRow(a, runId, GetOr(Lookup(seen, a), ""))] else s.holds)
  }

  ghost function Next(s: Sys, e: Event): Sys {
    match e
    case Enter(id, cfg) =>
      if id in s.callers then s else s.(callers := s.callers[id := Caller(cfg, Entered)])
    case TakeSnapshot(id) =>
      if !At(s, id, Entered) then s else
        var cfg := s.callers[id].cfg;
        s.(callers := s.callers[id := Caller(cfg, Snapped(Snapshot(s.db, cfg.domains, cfg.observedHead)))])
    case ProposeStep(id) =>
      if !(id in s.callers && s.callers[id].phase.Snapped?) then s else
        var cfg := s.callers[id].cfg;
        if cfg.domains == [] then s.(callers := s.callers - {id}) else
          var decision := Propose(s.db, cfg.domains, s.callers[id].phase.seen, cfg.runId, cfg.key).1;
          var t := ProposeIn(s, cfg.domains, s.callers[id].phase.seen, cfg.runId, cfg.key);
          t.(callers := if decision.Proceed? then s.callers[id := Caller(cfg, Admitted)] else s.callers - {id})
    case MarkStep(id) =>
      if !At(s, id, Admitted) then s else
        var cfg := s.callers[id].cfg;
        if AllOwned(s.db.claims, cfg.domains, cfg.key, cfg.runId, Claimed) then
          s.(db := Mark(s.db, cfg.domains, cfg.key, cfg.runId), callers := s.callers[id := Caller(cfg, Armed)])
        else s.(callers := s.callers - {id})
    case EffectStep(id) =>
      if !At(s, id, Armed) then s else
        var cfg := s.callers[id].cfg;
        s.(callers := s.callers[id := Caller(cfg, Returned)], effects := s.effects + [cfg])
    case CompleteStep(id, record) =>
      if !At(s, id, Returned) then s else
        var cfg := s.callers[id].cfg;
        s.(db := Complete(s.db, cfg.domains, cfg.key, cfg.runId, record), callers := s.callers - {id})
    case Crash(id) => s.(callers := s.callers - {id})
    case AbortCall(domains, key, runId) => s.(db := Abort(s.db, domains, key, runId))
    case ProposeCall(domains, seen, runId, key) =>
      if domains == [] then s else ProposeIn(s, domains, seen, runId, key)
  }

  ghost function Run(s: Sys, events: seq<Event>): Sys
    decreases |events|
  {
    if events == [] then s else Run(Next(s, events[0]), events[1..])
  }

  // ---------------------------------------------------------------- the invariant

  /** Two effects for the same key on a common domain. */
  predicate Overlap(a: Config, b: Config) {
    a.key == b.key && exists d :: d in a.domains && d in b.domains
  }

  predicate Disjoint(a: Config, b: Config) {
    forall d :: d in a.domains ==> d !in b.domains
  }

  predicate InFlight(s: Sys, id: nat) {
    At(s, id, Armed) || At(s, id, Returned)
  }

  /** The rows of a started effect can no longer be claimed. */
  predicate Spent(claims: map<ClaimKey, ClaimRow>, cfg: Config) {
    forall d :: d in cfg.domains ==>
      ClaimKey(d, cfg.key) in claims && claims[ClaimKey(d, cfg.key)].runId == cfg.runId
      && !claims[ClaimKey(d, cfg.key)].status.Claimed?
  }

  predicate OwnsUnknown(claims: map<ClaimKey, ClaimRow>, cfg: Config) {
    AllOwned(claims, cfg.domains, cfg.key, cfg.runId, Unknown)
  }

  ghost predicate TicketsOk(s: Sys) {
    && (forall i :: 0 <= i < |s.effects| ==> Spent(s.db.claims, s.effects[i]))
    && (forall id :: InFlight(s, id) ==> OwnsUnknown(s.db.claims, s.callers[id].cfg))
    && (forall x, y :: InFlight(s, x) && InFlight(s, y) && x != y ==> Disjoint(s.callers[x].cfg, s.callers[y].cfg))
    && (forall i, j :: 0 <= i < j < |s.effects| ==> !Overlap(s.effects[i], s.effects[j]))
    && (forall id, i :: At(s, id, Armed) && 0 <= i < |s.effects| ==> !Overlap(s.callers[id].cfg, s.effects[i]))
  }

  ghost predicate HoldsOk(s: Sys) {
    && (forall i :: 0 <= i < |s.holds| ==> s.holds[i] in s.db.holds)
    && (forall i, j :: 0 <= i < j < |s.holds| ==> s.holds[i] != s.holds[j])
  }

  ghost predicate Inv(s: Sys) {
    TablesOk(s.db) && TicketsOk(s) && HoldsOk(s)
  }

  /** Rows that are unknown or completed survive; in-flight rows survive when nothing completes. */
  lemma SpentSurvives(before: Db, after: Db, cfg: Config)
    requires Evolves(before, after) && Spent(before.claims, cfg)
    ensures Spent(after.claims, cfg)
  {}

  lemma OwnsUnknownSurvives(before: map<ClaimKey, ClaimRow>, after: map<ClaimKey, ClaimRow>, cfg: Config)
    requires OwnsUnknown(before, cfg)
    requires forall d :: d in cfg.domains ==>
               var p := ClaimKey(d, cfg.key); p in before && p in after && after[p] == before[p]
    ensures OwnsUnknown(after, cfg)
  {
    forall i | 0 <= i < |cfg.domains| ensures !BadAt(after, cfg.domains, i, cfg.key, cfg.runId, Unknown) {
      assert !BadAt(before, cfg.domains, i, cfg.key, cfg.runId, Unknown);
      assert cfg.domains[i] in cfg.domains;
    }
  }

  /** A transaction that leaves unknown rows alone and starts nothing keeps the tickets. */
  lemma TicketsSurvive(s: Sys, t: Sys)
    requires TicketsOk(s) && Evolves(s.db, t.db) && t.effects == s.effects
    requires forall p :: p in s.db.claims && s.db.claims[p].status.Unknown? ==>
               p in t.db.claims && t.db.claims[p] == s.db.claims[p]
    requires forall id :: InFlight(t, id) ==> InFlight(s, id) && t.callers[id] == s.callers[id]
    ensures TicketsOk(t)
  {
    forall i | 0 <= i < |t.effects| ensures Spent(t.db.claims, t.effects[i]) {
      SpentSurvives(s.db, t.db, t.effects[i]);
    }
    forall id | InFlight(t, id) ensures OwnsUnknown(t.db.claims, t.callers[id].cfg) {
      var cfg := t.callers[id].cfg;
      assert InFlight(s, id) && OwnsUnknown(s.db.claims, cfg);
      forall d | d in cfg.domains ensures ClaimKey(d, cfg.key) in s.db.claims && ClaimKey(d, cfg.key) in t.db.claims
        && t.db.claims[ClaimKey(d, cfg.key)] == s.db.claims[ClaimKey(d, cfg.key)]
      {
        OwnedRow(s.db.claims, cfg.domains, d, cfg.key, cfg.runId, Unknown);
      }
      OwnsUnknownSurvives(s.db.claims, t.db.claims, cfg);
    }
    forall id, i | At(t, id, Armed) && 0 <= i < |t.effects| ensures !Overlap(t.callers[id].cfg, t.effects[i]) {
      assert InFlight(t, id);
      assert At(s, id, Armed);
    }
  }

  /** A proposal leaves started rows alone, and a hold that it gives out is new. */
  lemma ProposeAdds(db: Db, domains: seq<string>, seen: map<string, string>, runId: string, key: string)
    requires domains != []
    ensures var (after, decision) := Propose(db, domains, seen, runId, key);
      var hold := HoldRow(ActionDomain(domains), runId, GetOr(Lookup(seen, ActionDomain(domains)), ""));
      && (forall p :: p in db.claims && db.claims[p].status.Unknown? ==>
        p in after.claims && after.claims[p] == db.claims[p])
      && db.holds <= after.holds
      && (decision.Hold? ==> hold !in db.holds && hold in after.holds)
  {
    hide StaleLines, ForeignOwner, Current, ActionDomain, ParseRecord;
  }

  lemma ProposeInKeeps(s: Sys, domains: seq<string>, seen: map<string, string>, runId: string, key: string)
    requires Inv(s) && domains != []
    ensures Inv(ProposeIn(s, domains, seen, runId, key))
    ensures Evolves(s.db, ProposeIn(s, domains, seen, runId, key).db)
  {
    var t := ProposeIn(s, domains, seen, runId, key);
    ProposeKeeps(s.db, domains, seen, runId, key);
    ProposeAdds(s.db, domains, seen, runId, key);
    hide Propose, TablesOk, Evolves, TicketsOk;
    TicketsSurvive(s, t);
  }

  predicate Marking(s: Sys, id: nat) {
    At(s, id, Admitted)
    && var cfg := s.callers[id].cfg;
    AllOwned(s.db.claims, cfg.domains, cfg.key, cfg.runId, Claimed)
  }

  lemma MarkedIsOwn(s: Sys, id: nat)
    requires Marking(s, id)
    ensures OwnsUnknown(Next(s, MarkStep(id)).db.claims, s.callers[id].cfg)
  {
    var t, cfg := Next(s, MarkStep(id)), s.callers[id].cfg;
    forall i | 0 <= i < |cfg.domains| ensures !BadAt(t.db.claims, cfg.domains, i, cfg.key, cfg.runId, Unknown) {
      assert !BadAt(s.db.claims, cfg.domains, i, cfg.key, cfg.runId, Claimed);
    }
  }

  /** Marking concerns no domain of an effect in flight. */
  lemma MarkLeavesOthers(s: Sys, id: nat, x: nat)
    requires TablesOk(s.db) && TicketsOk(s) && Marking(s, id) && InFlight(s, x)
    ensures var cfg, other := s.callers[id].cfg, s.callers[x].cfg;
      OwnsUnknown(Next(s, MarkStep(id)).db.claims, other) && Disjoint(other, cfg) && Disjoint(cfg, other)
  {
    var t, cfg, other := Next(s, MarkStep(id)), s.callers[id].cfg, s.callers[x].cfg;
    hide Spent, Overlap, FreshRows, RevisionsCount, WorldOk, ResultsRecorded;
    forall d | d in other.domains ensures d !in cfg.domains && ClaimKey(d, other.key) in s.db.claims
      && ClaimKey(d, other.key) in t.db.claims
      && t.db.claims[ClaimKey(d, other.key)] == s.db.claims[ClaimKey(d, other.key)]
    {
      OwnedRow(s.db.claims, other.domains, d, other.key, other.runId, Unknown);
      if d in cfg.domains { OwnedRow(s.db.claims, cfg.domains, d, cfg.key, cfg.runId, Claimed); }
    }
    OwnsUnknownSurvives(s.db.claims, t.db.claims, other);
  }

  /** A claimed row belongs to no effect that started. */
  lemma MarkIsFresh(s: Sys, id: nat, i: nat)
    requires TicketsOk(s) && Marking(s, id) && i < |s.effects|
    ensures !Overlap(s.callers[id].cfg, s.effects[i])
  {
    var cfg := s.callers[id].cfg;
    assert Spent(s.db.claims, s.effects[i]);
    forall d | d in cfg.domains ensures Owned(s.db.claims, d, cfg.key, cfg.runId, Claimed) {
      OwnedRow(s.db.claims, cfg.domains, d, cfg.key, cfg.runId, Claimed);
    }
  }

  lemma MarkStepKeeps(s: Sys, id: nat)
    requires Inv(s) && At(s, id, Admitted)
    ensures Inv(Next(s, MarkStep(id))) && Evolves(s.db, Next(s, MarkStep(id)).db)
  {
    var t := Next(s, MarkStep(id));
    if !Marking(s, id) {
      hide TablesOk, TicketsOk, HoldsOk, Mark, AllOwned;
      assert t == s.(callers := s.callers - {id});
      CallersOnly(s, t);
      return;
    }
    var cfg := s.callers[id].cfg;
    MarkKeeps(s.db, cfg.domains, cfg.key, cfg.runId);
    MarkedIsOwn(s, id);
    forall x | InFlight(s, x) ensures OwnsUnknown(t.db.claims, s.callers[x].cfg) && Disjoint(s.callers[x].cfg, cfg)
      && Disjoint(cfg, s.callers[x].cfg)
    {
      MarkLeavesOthers(s, id, x);
    }
    forall i | 0 <= i < |s.effects| ensures Spent(t.db.claims, s.effects[i]) && !Overlap(cfg, s.effects[i]) {
      SpentSurvives(s.db, t.db, s.effects[i]);
      MarkIsFresh(s, id, i);
    }
    hide Spent, Overlap, OwnsUnknown, Disjoint, TablesOk, Evolves, Mark, AllOwned;
    forall x | InFlight(t, x) && x != id ensures InFlight(s, x) && t.callers[x] == s.callers[x] {}
  }

  lemma EffectStepKeeps(s: Sys, id: nat)
    requires Inv(s) && At(s, id, Armed)
    ensures Inv(Next(s, EffectStep(id)))
  {
    var t := Next(s, EffectStep(id));
    var cfg := s.callers[id].cfg;
    assert InFlight(s, id);
    forall d | d in cfg.domains ensures Owned(s.db.claims, d, cfg.key, cfg.runId, Unknown) {
      OwnedRow(s.db.claims, cfg.domains, d, cfg.key, cfg.runId, Unknown);
    }
    assert Spent(t.db.claims, cfg);
    forall x | InFlight(t, x) ensures InFlight(s, x) && t.callers[x].cfg == s.callers[x].cfg {}
    forall x, i | At(t, x, Armed) && 0 <= i < |t.effects| ensures !Overlap(t.callers[x].cfg, t.effects[i]) {
      assert At(s, x, Armed) && x != id;
      if i == |s.effects| {
        assert InFlight(s, x) && Disjoint(s.callers[x].cfg, cfg);
      }
    }
    forall i, j | 0 <= i < j < |t.effects| ensures !Overlap(t.effects[i], t.effects[j]) {
      if j == |s.effects| {
        assert !Overlap(s.callers[id].cfg, s.effects[i]);
      }
    }
  }

  lemma CompleteStepKeeps(s: Sys, id: nat, record: EffectRecord)
    requires Inv(s) && At(s, id, Returned)
    ensures Inv(Next(s, CompleteStep(id, record))) && Evolves(s.db, Next(s, CompleteStep(id, record)).db)
  {
    var t := Next(s, CompleteStep(id, record));
    var cfg := s.callers[id].cfg;
    CompleteKeeps(s.db, cfg.domains, cfg.key, cfg.runId, record);
    assert InFlight(s, id);
    forall x | InFlight(t, x) ensures InFlight(s, x) && t.callers[x] == s.callers[x] && x != id
      && OwnsUnknown(t.db.claims, t.callers[x].cfg)
    {
      var other := s.callers[x].cfg;
      assert Disjoint(other, cfg);
      forall d | d in other.domains ensures ClaimKey(d, other.key) in s.db.claims
        && ClaimKey(d, other.key) in t.db.claims
        && t.db.claims[ClaimKey(d, other.key)] == s.db.claims[ClaimKey(d, other.key)]
      {
        OwnedRow(s.db.claims, other.domains, d, other.key, other.runId, Unknown);
      }
      OwnsUnknownSurvives(s.db.claims, t.db.claims, other);
    }
    forall i | 0 <= i < |t.effects| ensures Spent(t.db.claims, t.effects[i]) {
      SpentSurvives(s.db, t.db, t.effects[i]);
    }
    forall x, i | At(t, x, Armed) && 0 <= i < |t.effects| ensures !Overlap(t.callers[x].cfg, t.effects[i]) {
      assert InFlight(t, x);
      assert At(s, x, Armed);
    }
  }

  lemma CallersOnly(s: Sys, t: Sys)
    requires Inv(s) && t == s.(callers := t.callers)
    requires forall id :: InFlight(t, id) ==> InFlight(s, id) && t.callers[id] == s.callers[id]
    ensures Inv(t) && Evolves(s.db, t.db)
  {
    hide TablesOk, Spent, OwnsUnknown, Overlap, Disjoint;
    TicketsSurvive(s, t);
  }

  lemma ProposeStepKeeps(s: Sys, id: nat)
    requires Inv(s) && id in s.callers && s.callers[id].phase.Snapped?
    ensures Inv(Next(s, ProposeStep(id))) && Evolves(s.db, Next(s, ProposeStep(id)).db)
  {
    hide Inv, Evolves, Propose;
    var cfg := s.callers[id].cfg;
    var t := Next(s, ProposeStep(id));
    if cfg.domains == [] {
      CallersOnly(s, t);
    } else {
      var mid := ProposeIn(s, cfg.domains, s.callers[id].phase.seen, cfg.runId, cfg.key);
      ProposeInKeeps(s, cfg.domains, s.callers[id].phase.seen, cfg.runId, cfg.key);
      CallersOnly(mid, t);
    }
  }

  lemma AbortCallKeeps(s: Sys, domains: seq<string>, key: string, runId: string)
    requires Inv(s)
    ensures Inv(Next(s, AbortCall(domains, key, runId))) && Evolves(s.db, Next(s, AbortCall(domains, key, runId)).db)
  {
    hide TablesOk, Spent, OwnsUnknown, Overlap, Disjoint, Evolves;
    AbortKeeps(s.db, domains, key, runId);
    TicketsSurvive(s, Next(s, AbortCall(domains, key, runId)));
  }

  lemma NextKeeps(s: Sys, e: Event)
    requires Inv(s)
    ensures Inv(Next(s, e)) && Evolves(s.db, Next(s, e).db)
  {
    hide Inv, Propose, Mark, Complete, Abort;
    var t := Next(s, e);
    match e
    case Enter(id, cfg) => CallersOnly(s, t);
    case TakeSnapshot(id) => CallersOnly(s, t);
    case ProposeStep(id) =>
      if id in s.callers && s.callers[id].phase.Snapped? { ProposeStepKeeps(s, id); }
    case MarkStep(id) => if At(s, id, Admitted) { MarkStepKeeps(s, id); }
    case EffectStep(id) => if At(s, id, Armed) { EffectStepKeeps(s, id); }
    case CompleteStep(id, record) => if At(s, id, Returned) { CompleteStepKeeps(s, id, record); }
    case Crash(id) => CallersOnly(s, t);
    case AbortCall(domains, key, runId) => AbortCallKeeps(s, domains, key, runId);
    case ProposeCall(domains, seen, runId, key) =>
      if domains != [] { ProposeInKeeps(s, domains, seen, runId, key); }
  }

  lemma {:induction false} RunKeeps(s: Sys, events: seq<Event>)
    requires Inv(s)
    ensures Inv(Run(s, events)) && Evolves(s.db, Run(s, events).db)
    decreases |events|
  {
    if events != [] {
      NextKeeps(s, events[0]);
      RunKeeps(Next(s, events[0]), events[1..]);
      EvolvesTransitive(s.db, Next(s, events[0]).db, Run(s, events).db);
    }
  }

  lemma Reachable(events: seq<Event>)
    ensures Inv(Run(Start, events))
  {
    assert Inv(Start) by {
      forall d ensures Revision(EmptyDb, d) == |CompletedOn(EmptyDb.claims, d)| {
        assert CompletedOn(EmptyDb.claims, d) == {};
      }
    }
    RunKeeps(Start, events);
  }

  // ================================================================ main results

  /** In every interleaving, the effect of a key starts at most once on a domain,
      and effects in flight at the same time have no domain in common. */
  lemma EffectStartsAtMostOnce(events: seq<Event>)
    ensures var s := Run(Start, events);
      && (forall i, j, d :: 0 <= i < j < |s.effects| && d in s.effects[i].domains && d in s.effects[j].domains ==>
            s.effects[i].key != s.effects[j].key)
      && (forall x, y, d :: InFlight(s, x) && InFlight(s, y) && x != y && d in s.callers[x].cfg.domains ==>
            d !in s.callers[y].cfg.domains)
  {
    Reachable(events);
    var s := Run(Start, events);
    forall i, j, d | 0 <= i < j < |s.effects| && d in s.effects[i].domains && d in s.effects[j].domains
      ensures s.effects[i].key != s.effects[j].key
    {
      assert !Overlap(s.effects[i], s.effects[j]);
    }
    forall x, y, d | InFlight(s, x) && InFlight(s, y) && x != y && d in s.callers[x].cfg.domains
      ensures d !in s.callers[y].cfg.domains
    {
      assert Disjoint(s.callers[x].cfg, s.callers[y].cfg);
    }
  }

  /** In every reachable store, a domain has one active row at most, that row's cursor is the current one,
      and the world revision is the number of completed rows. */
  lemma ReachableTables(events: seq<Event>, d: string)
    ensures var db := Run(Start, events).db;
      && |ActiveRows(db.claims, d)| <= 1
      && (forall p :: p in ActiveRows(db.claims, d) ==>
            db.claims[p].seenCursor == (if d in db.world then CursorText(db.world[d].revision, db.world[d].head)
                                        else CursorText(0, HeadOf(Some(db.claims[p].seenCursor)))))
      && Revision(db, d) == |CompletedOn(db.claims, d)|
  {
    Reachable(events);
    var db := Run(Start, events).db;
    var rows := ActiveRows(db.claims, d);
    if p :| p in rows {
      assert rows == {p};
    } else {
      assert rows == {};
    }
  }

  /** A caller whose effect returned can always complete, unless its record is too large; each of its domains
      then advances by one from exactly the version that was claimed, and no other domain moves. */
  lemma NoLostUpdate(events: seq<Event>, id: nat, record: EffectRecord, d: string)
    requires At(Run(Start, events), id, Returned)
    requires RecordLength(Stored(record)) <= RECORD_LIMIT
    ensures var s := Run(Start, events);
      var cfg := s.callers[id].cfg;
      var after := Next(s, CompleteStep(id, record)).db;
      && CanComplete(s.db, cfg.domains, cfg.key, cfg.runId, record)
      && (d in cfg.domains ==>
            && ClaimKey(d, cfg.key) in s.db.claims
            && var row := s.db.claims[ClaimKey(d, cfg.key)];
            && row.seenCursor == Current(s.db, d, Some(row.seenCursor))
            && d in after.world
            && after.world[d].revision == Revision(s.db, d) + 1
            && after.world[d].head == NormalizeHead(record.head)
            && after.claims[ClaimKey(d, cfg.key)].result == Some(Stored(record)))
      && (d !in cfg.domains ==> Lookup(after.world, d) == Lookup(s.db.world, d))
  {
    Reachable(events);
    var s := Run(Start, events);
    var cfg := s.callers[id].cfg;
    assert InFlight(s, id);
    if d in cfg.domains {
      OwnedRow(s.db.claims, cfg.domains, d, cfg.key, cfg.runId, Unknown);
    }
  }

  // ---------------------------------------------------------------- crashes fail closed

  /** An effect that started and whose caller is gone. */
  predicate Orphan(s: Sys, p: ClaimKey) {
    && p in s.db.claims && s.db.claims[p].status.Unknown?
    && forall id :: id in s.callers && InFlight(s, id) ==> p.domain !in s.callers[id].cfg.domains
  }

  lemma OrphanRowStays(s: Sys, e: Event, p: ClaimKey)
    requires Inv(s) && Orphan(s, p)
    ensures p in Next(s, e).db.claims && Next(s, e).db.claims[p] == s.db.claims[p]
  {
    hide TablesOk, TicketsOk, HoldsOk, Snapshot, ParseRecord, StaleLines, ForeignOwner;
    if e.MarkStep? && At(s, e.id, Admitted) {
      var cfg := s.callers[e.id].cfg;
      if AllOwned(s.db.claims, cfg.domains, cfg.key, cfg.runId, Claimed) && Touches(p, SetOf(cfg.domains), cfg.key) {
        OwnedRow(s.db.claims, cfg.domains, p.domain, cfg.key, cfg.runId, Claimed);
      }
    } else if e.CompleteStep? && At(s, e.id, Returned) {
      assert InFlight(s, e.id);
    }
  }

  lemma OrphanStep(s: Sys, e: Event, p: ClaimKey)
    requires Inv(s) && Orphan(s, p)
    ensures Orphan(Next(s, e), p)
  {
    OrphanRowStays(s, e, p);
    var t := Next(s, e);
    forall id | id in t.callers && InFlight(t, id) ensures p.domain !in t.callers[id].cfg.domains {
      hide Propose, Complete, Abort, Snapshot;
      var cfg := t.callers[id].cfg;
      if !InFlight(s, id) && p.domain in cfg.domains {
        OwnedRow(s.db.claims, cfg.domains, p.domain, cfg.key, cfg.runId, Claimed);
      }
    }
  }

  lemma {:induction false} OrphanStays(s: Sys, events: seq<Event>, p: ClaimKey)
    requires Inv(s) && Orphan(s, p)
    ensures Orphan(Run(s, events), p)
    decreases |events|
  {
    if events != [] {
      OrphanStep(s, events[0], p);
      NextKeeps(s, events[0]);
      OrphanStays(Next(s, events[0]), events[1..], p);
    }
  }

  /** Once a caller is gone after its effect could have started, no effect ever starts on its domains again,
      under any key and in any continuation. */
  lemma CrashFreezesDomain(events: seq<Event>, id: nat, more: seq<Event>, d: string)
    requires InFlight(Run(Start, events), id) && d in Run(Start, events).callers[id].cfg.domains
    ensures var s := Run(Start, events);
      var t := Run(Next(s, Crash(id)), more);
      && (forall x :: InFlight(t, x) ==> d !in t.callers[x].cfg.domains)
      && ClaimKey(d, s.callers[id].cfg.key) in t.db.claims
      && t.db.claims[ClaimKey(d, s.callers[id].cfg.key)].status.Unknown?
  {
    Reachable(events);
    var s := Run(Start, events);
    var cfg := s.callers[id].cfg;
    OwnedRow(s.db.claims, cfg.domains, d, cfg.key, cfg.runId, Unknown);
    NextKeeps(s, Crash(id));
    forall x | x in Next(s, Crash(id)).callers && InFlight(Next(s, Crash(id)), x)
      ensures d !in Next(s, Crash(id)).callers[x].cfg.domains
    {
      assert InFlight(s, x) && Disjoint(s.callers[x].cfg, cfg);
    }
    OrphanStays(Next(s, Crash(id)), more, ClaimKey(d, cfg.key));
  }

  /** Each hold decision is given at most once for an action domain, run and cursor: any later proposal that
      would hold again reports the reevaluation limit instead. */
  lemma HoldGivenOnce(events: seq<Event>, more: seq<Event>)
    ensures var s := Run(Start, events);
      && (forall i, j :: 0 <= i < j < |s.holds| ==> s.holds[i] != s.holds[j])
      && (forall i :: 0 <= i < |s.holds| ==> s.holds[i] in Run(s, more).db.holds)
  {
    Reachable(events);
    var s := Run(Start, events);
    RunKeeps(s, more);
    forall i | 0 <= i < |s.holds| ensures s.holds[i] in Run(s, more).db.holds {
      assert s.holds[i] in s.db.holds;
    }
  }

  /** A cursor that a snapshot once gave out is stale for good from the moment it is stale. */
  lemma SnapshotCursorStaysStale(
    events: seq<Event>, more: seq<Event>, later: seq<Event>, domains: seq<string>, head: string, d: string
  )
    requires d in domains
    requires var a := Run(Start, events); var b := Run(a, more);
             Stale(b.db, d, Snapshot(a.db, domains, head))
    ensures var a := Run(Start, events); var b := Run(a, more);
            Stale(Run(b, later).db, d, Snapshot(a.db, domains, head))
  {
    var a := Run(Start, events);
    Reachable(events);
    RunKeeps(a, more);
    RunKeeps(Run(a, more), later);
    assert Revision(a.db, d) <= Revision(Run(a, more).db, d);
    StaleForever(Run(a, more).db, Run(Run(a, more), later).db, d, Revision(a.db, d), NormalizeHead(head));
  }

  // ================================================================ what "proceed" does not promise

  lemma AllOwnedIff(claims: map<ClaimKey, ClaimRow>, domains: seq<string>, key: string, runId: string, status: Status)
    ensures AllOwned(claims, domains, key, runId, status) <==>
      && (forall i, j :: 0 <= i < j < |domains| ==> domains[i] != domains[j])
      && (forall d :: d in domains ==> Owned(claims, d, key, runId, status))
  {
    if AllOwned(claims, domains, key, runId, status) {
      forall i, j | 0 <= i < j < |domains| ensures domains[i] != domains[j] {
        assert !BadAt(claims, domains, j, key, runId, status);
        assert domains[i] in domains[..j];
      }
      forall d | d in domains ensures Owned(claims, d, key, runId, status) {
        OwnedRow(claims, domains, d, key, runId, status);
      }
    } else {
      var i :| 0 <= i < |domains| && BadAt(claims, domains, i, key, runId, status);
      assert domains[i] in domains;
    }
  }

  lemma ProceedOwnsAt(db: Db, domains: seq<string>, seen: map<string, string>, runId: string, key: string, d: string)
    requires domains != [] && Propose(db, domains, seen, runId, key).1.Proceed? && d in domains
    ensures Owned(Propose(db, domains, seen, runId, key).0.claims, d, key, runId, Claimed) <==>
      if ClaimKey(d, key) in db.claims then Owned(db.claims, d, key, runId, Claimed)
      else !Owned(db.claims, ActionDomain(domains), key, runId, Claimed)
  {
    hide StaleLines, ForeignOwner, Current, ActionDomain, ParseRecord;
    assert Touches(ClaimKey(d, key), SetOf(domains), key);
  }

  /** After a proceed, the caller may start its effect exactly when no row of its key was already there,
      except rows it had claimed itself, and no domain is listed twice. */
  lemma ProceedOwnsIff(db: Db, domains: seq<string>, seen: map<string, string>, runId: string, key: string)
    requires domains != [] && Propose(db, domains, seen, runId, key).1.Proceed?
    ensures var after := Propose(db, domains, seen, runId, key).0;
      AllOwned(after.claims, domains, key, runId, Claimed) <==>
        && (forall i, j :: 0 <= i < j < |domains| ==> domains[i] != domains[j])
        && (forall d :: d in domains ==>
              if ClaimKey(d, key) in db.claims then Owned(db.claims, d, key, runId, Claimed)
              else !Owned(db.claims, ActionDomain(domains), key, runId, Claimed))
  {
    hide Propose, AllOwned, Owned, ActionDomain;
    AllOwnedIff(Propose(db, domains, seen, runId, key).0.claims, domains, key, runId, Claimed);
    forall d | d in domains
      ensures Owned(Propose(db, domains, seen, runId, key).0.claims, d, key, runId, Claimed) <==>
        if ClaimKey(d, key) in db.claims then Owned(db.claims, d, key, runId, Claimed)
        else !Owned(db.claims, ActionDomain(domains), key, runId, Claimed)
    {
      ProceedOwnsAt(db, domains, seen, runId, key, d);
    }
  }

  /** Two runs may be told to proceed with one key; only the first can mark its effect as started. */
  lemma ProceedIsNotOwnership()
    ensures var (db1, first) := Propose(EmptyDb, ["d"], map["d" := CursorText(0, "none")], "run-a", "k");
      var (db2, second) := Propose(db1, ["d"], map["d" := CursorText(0, "none")], "run-b", "k");
      && first.Proceed? && second.Proceed?
      && AllOwned(db2.claims, ["d"], "k", "run-a", Claimed)
      && !AllOwned(db2.claims, ["d"], "k", "run-b", Claimed)
  {
    var seen := map["d" := CursorText(0, "none")];
    var row := ClaimRow("run-a", CursorText(0, "none"), Claimed, None);
    var db1 := EmptyDb.(claims := map[ClaimKey("d", "k") := row]);
    LoneProceed(EmptyDb, "run-a");
    LoneProceed(db1, "run-b");
    hide Propose;
    LoneRows(EmptyDb.claims, "run-a");
    LoneRows(db1.claims, "run-b");
    hide ClaimRows;
    assert !BadAt(db1.claims, ["d"], 0, "k", "run-a", Claimed);
    assert BadAt(db1.claims, ["d"], 0, "k", "run-b", Claimed);
  }

  /** A proposal for one domain that nothing holds back goes straight to the upsert. */
  lemma LoneProceed(db: Db, runId: string)
    requires db.world == map[] && forall p :: p in db.claims ==> p == ClaimKey("d", "k")
    requires ClaimKey("d", "k") in db.claims ==> Owned(db.claims, "d", "k", "run-a", Claimed) && runId != "run-a"
    ensures var seen := map["d" := CursorText(0, "none")];
      Propose(db, ["d"], seen, runId, "k")
        == (db.(claims := ClaimRows(db.claims, SetOf(["d"]), "k", runId, seen)), Proceed)
  {
    var seen := map["d" := CursorText(0, "none")];
    CursorHead(0, "none");
    assert ActionDomain(["d"]) == "d";
    assert !Stale(db, "d", seen);
    assert ForeignOwner(db.claims, ["d"], "k").None?;
    hide CursorText, ClaimRows;
  }

  lemma LoneRows(claims: map<ClaimKey, ClaimRow>, runId: string)
    requires forall p :: p in claims ==> p == ClaimKey("d", "k")
    requires ClaimKey("d", "k") in claims ==> claims[ClaimKey("d", "k")].runId != runId
    ensures ClaimRows(claims, SetOf(["d"]), "k", runId, map["d" := CursorText(0, "none")])
      == if ClaimKey("d", "k") in claims then claims
        else map[ClaimKey("d", "k") := ClaimRow(runId, CursorText(0, "none"), Claimed, None)]
  {}
}
