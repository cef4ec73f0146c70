/** The store itself: tables updated row by row inside transactions that roll back when they throw. */
module CoordinationStores {
  import opened Text
  import opened Claims
  import opened Wakes

  lemma SetOfStep(domains: seq<string>, i: nat)
    requires i < |domains|
    ensures SetOf(domains[..i + 1]) == SetOf(domains[..i]) + {domains[i]}
  {
    assert domains[..i + 1] == domains[..i] + [domains[i]];
  }

  /** One upsert moves the claimed rows from a set of domains to that set with one more domain. */
  lemma ClaimRowsStep(
    claims: map<ClaimKey, ClaimRow>, domains: set<string>, d: string, key: string, runId: string,
    seen: map<string, string>
  )
    ensures var before := ClaimRows(claims, domains, key, runId, seen);
      var p := ClaimKey(d, key);
      var cursor := GetOr(Lookup(seen, d), "");
      ClaimRows(claims, domains + {d}, key, runId, seen) ==
        if p !in before then before[p := ClaimRow(runId, cursor, Claimed, None)]
        else if before[p].status.Claimed? && before[p].runId == runId then before[p := before[p].(seenCursor := cursor)]
        else before
  {
    hide Lookup, GetOr;
    var p := ClaimKey(d, key);
    var before, after := ClaimRows(claims, domains, key, runId, seen),
      ClaimRows(claims, domains + {d}, key, runId, seen);
    forall q ensures Touches(q, domains + {d}, key) <==> Touches(q, domains, key) || q == p {}
    assert after.Keys == before.Keys + {p};
    forall q | q in before && q != p ensures after[q] == before[q] {
      assert Touches(q, domains + {d}, key) <==> Touches(q, domains, key);
    }
    assert after == before[p := after[p]];
    assert Touches(p, domains + {d}, key);
  }

  lemma MarkRowsStep(claims: map<ClaimKey, ClaimRow>, domains: set<string>, d: string, key: string)
    requires ClaimKey(d, key) in claims
    ensures MarkRows(claims, domains + {d}, key)
         == MarkRows(claims, domains, key)[ClaimKey(d, key) := claims[ClaimKey(d, key)].(status := Unknown)]
  {}

  lemma CompleteRowsStep(
    claims: map<ClaimKey, ClaimRow>, domains: set<string>, d: string, key: string, record: EffectRecord
  )
    requires ClaimKey(d, key) in claims
    ensures CompleteRows(claims, domains + {d}, key, record)
         == CompleteRows(claims, domains, key, record)[ClaimKey(d, key) :=
              claims[ClaimKey(d, key)].(status := Completed, result := Some(record))]
  {}

  lemma StaleLinesStep(db: Db, domains: seq<string>, i: nat, seen: map<string, string>)
    requires i < |domains|
    ensures StaleLines(db, domains[i..], seen)
         == (if Stale(db, domains[i], seen) then [DeltaLine(db, domains[i])] else [])
           + StaleLines(db, domains[i + 1..], seen)
  {
    hide Stale, DeltaLine;
    assert domains[i..][1..] == domains[i + 1..];
  }

  lemma AdvanceWorldStep(world: map<string, WorldRow>, domains: set<string>, d: string, head: string)
    requires d !in domains
    ensures AdvanceWorld(world, domains + {d}, head)
         == AdvanceWorld(world, domains, head)[d :=
              WorldRow((if d in world then world[d].revision else 0) + 1, head, "head " + head)]
  {}

  ghost predicate FirstInvalid(domains: seq<string>, d: string) {
    exists i :: 0 <= i < |domains| && d == domains[i] && !ValidDomain(d)
      && forall j :: 0 <= j < i ==> ValidDomain(domains[j])
  }

  /** The error for a list of domains that is empty or malformed. */
  ghost predicate BadDomains(domains: seq<string>, e: StoreError) {
    (domains == [] && e == NoDomains) || (e.InvalidDomain? && FirstInvalid(domains, e.domain))
  }

  method AssertDomains(domains: seq<string>) returns (invalid: Option<string>)
    ensures invalid.None? <==> forall i :: 0 <= i < |domains| ==> ValidDomain(domains[i])
    ensures invalid.Some? ==> FirstInvalid(domains, invalid.value)
  {
    for i := 0 to |domains|
      invariant forall j :: 0 <= j < i ==> ValidDomain(domains[j])
    {
      if !ValidDomain(domains[i]) {
        return Some(domains[i]);
      }
    }
    return None;
  }

  class CoordinationStore {
    var world: map<string, WorldRow>
    var claims: map<ClaimKey, ClaimRow>
    var holds: set<HoldRow>
    var wakes: map<string, Wake>

    function Tables(): Db
      reads this
    {
      Db(world, claims, holds)
    }

    /** The unique index is enforced by the database. */
    ghost predicate Valid()
      reads this
    {
      UniqueActive(claims)
    }

    constructor ()
      ensures Valid() && Tables() == EmptyDb && wakes == map[]
    {
      world, claims, holds, wakes := map[], map[], {}, map[];
    }

    method Snapshot(domains: seq<string>, observedHead: string) returns (r: Outcome<map<string, string>>)
      ensures r.Ok? <==> forall i :: 0 <= i < |domains| ==> ValidDomain(domains[i])
      ensures r.Ok? ==> r.value == Claims.Snapshot(Tables(), domains, observedHead)
      ensures r.Thrown? ==> r.error.InvalidDomain? && FirstInvalid(domains, r.error.domain)
    {
      var head := NormalizeHead(observedHead);
      var cursors: map<string, string> := map[];
      for i := 0 to |domains|
        invariant forall j :: 0 <= j < i ==> ValidDomain(domains[j])
        invariant cursors == Claims.Snapshot(Tables(), domains[..i], observedHead)
      {
        var domain := domains[i];
        if !ValidDomain(domain) {
          return Thrown(InvalidDomain(domain));
        }
        var revision := if domain in world then world[domain].revision else 0;
        cursors := cursors[domain := CursorText(revision, head)];
        assert domains[..i + 1] == domains[..i] + [domain];
      }
      assert domains[..|domains|] == domains;
      return Ok(cursors);
    }

    /** The stale lines of a proposal, gathered domain by domain. */
    method CollectStale(domains: seq<string>, seen: map<string, string>) returns (stale: seq<string>)
      ensures stale == StaleLines(Tables(), domains, seen)
    {
      hide Current, DeltaLine, StaleLines;
      stale := [];
      assert domains[0..] == domains;
      for i := 0 to |domains|
        invariant stale + StaleLines(Tables(), domains[i..], seen) == StaleLines(Tables(), domains, seen)
      {
        var domain := domains[i];
        StaleLinesStep(Tables(), domains, i, seen);
        if Lookup(seen, domain) != Some(Current(Tables(), domain, Lookup(seen, domain))) {
          stale := stale + [DeltaLine(Tables(), domain)];
        }
      }
    }

    /** The run whose active row blocks the proposal, if there is one. */
    method FindConflict(domains: seq<string>, key: string) returns (owner: Option<string>)
      requires Valid()
      ensures owner == ForeignOwner(claims, domains, key)
    {
      for i := 0 to |domains|
        invariant ForeignOwner(claims, domains, key) == ForeignOwner(claims, domains[i..], key)
      {
        var rows := ActiveRows(claims, domains[i]);
        assert domains[i..][1..] == domains[i + 1..];
        if rows != {} {
          var active :| active in rows;
          assert forall q :: q in rows ==> q == active;
          if active.key != key {
            return Some(claims[active].runId);
          }
        }
      }
      return None;
    }

    /** An insert; the primary key and the unique index are obligations of every caller. */
    method InsertClaim(p: ClaimKey, row: ClaimRow)
      requires Valid() && p !in claims
      requires Active(row) ==> ActiveRows(claims, p.domain) == {}
      modifies this`claims
      ensures Valid() && claims == old(claims)[p := row]
    {
      assert Active(row) ==> forall q :: q in claims && q.domain == p.domain && Active(claims[q]) ==>
        q in ActiveRows(claims, p.domain);
      claims := claims[p := row];
    }

    method UpsertClaims(domains: seq<string>, seen: map<string, string>, runId: string, key: string)
      requires Valid() && ForeignOwner(claims, domains, key).None?
      modifies this`claims
      ensures Valid() && claims == ClaimRows(old(claims), SetOf(domains), key, runId, seen)
    {
      var before := claims;
      assert ClaimRows(before, SetOf([]), key, runId, seen) == before;
      assert domains[..0] == [];
      for i := 0 to |domains|
        invariant Valid() && claims == ClaimRows(before, SetOf(domains[..i]), key, runId, seen)
      {
        var domain := domains[i];
        var p := ClaimKey(domain, key);
        var cursor := GetOr(Lookup(seen, domain), "");
        SetOfStep(domains, i);
        ClaimRowsStep(before, SetOf(domains[..i]), domain, key, runId, seen);
        forall q | q in ActiveRows(claims, domain) ensures q == p {
          assert q in before ==> q in ActiveRows(before, domain);
        }
        if p in claims {
          if claims[p].status.Claimed? && claims[p].runId == runId {
            claims := claims[p := claims[p].(status := Claimed, seenCursor := cursor)];
          }
        } else {
          InsertClaim(p, ClaimRow(runId, cursor, Claimed, None));
        }
      }
      assert domains[..|domains|] == domains;
    }

    method Propose(domains: seq<string>, seen: map<string, string>, runId: string, key: string)
      returns (r: Outcome<Decision>)
      requires Valid()
      modifies this
      ensures Valid() && wakes == old(wakes)
      ensures r.Thrown? ==> Tables() == old(Tables()) && BadDomains(domains, r.error)
      ensures r.Ok? ==> domains != [] && (Tables(), r.value) == Claims.Propose(old(Tables()), domains, seen, runId, key)
    {
      if domains == [] {
        return Thrown(NoDomains);
      }
      var invalid := AssertDomains(domains);
      if invalid.Some? {
        return Thrown(InvalidDomain(invalid.value));
      }
      var action := ActionDomain(domains);
      var sameKey := Lookup(claims, ClaimKey(action, key));
      if sameKey.Some? {
        if sameKey.value.status.Completed? {
          return Ok(Replay(ParseRecord(sameKey.value.result)));
        }
        if sameKey.value.status.Unknown? {
          return Ok(EffectStarted);
        }
        if sameKey.value.runId == runId {
          return Ok(Proceed);
        }
      }
      var stale := CollectStale(domains, seen);
      if stale != [] {
        var seenCursor := GetOr(Lookup(seen, action), "");
        var nextCursor := Current(Tables(), action, Some(seenCursor));
        var delta := if |stale| <= DELTA_LIMIT then stale else stale[..DELTA_LIMIT];
        var hold := HoldRow(action, runId, seenCursor);
        if hold in holds {
          return Ok(ReevaluationLimit(nextCursor, delta));
        }
        holds := holds + {hold};
        return Ok(Hold(nextCursor, delta));
      }
      var owner := FindConflict(domains, key);
      if owner.Some? {
        return Ok(Conflict(owner.value));
      }
      UpsertClaims(domains, seen, runId, key);
      return Ok(Proceed);
    }

    method MarkEffectStarted(domains: seq<string>, key: string, runId: string) returns (r: Outcome<()>)
      requires Valid()
      modifies this`claims
      ensures Valid() && Tables() == Mark(old(Tables()), domains, key, runId)
      ensures r.Ok? <==> AllOwned(old(claims), domains, key, runId, Claimed)
      ensures r.Thrown? ==> r.error.NotClaimed? && FailsAt(old(claims), domains, r.error.domain, key, runId, Claimed)
    {
      var before := claims;
      assert MarkRows(before, SetOf([]), key) == before;
      assert domains[..0] == [];
      for i := 0 to |domains|
        invariant claims == MarkRows(before, SetOf(domains[..i]), key)
        invariant forall j :: 0 <= j < i ==> !BadAt(before, domains, j, key, runId, Claimed)
      {
        var p := ClaimKey(domains[i], key);
        assert Owned(claims, domains[i], key, runId, Claimed) <==> !BadAt(before, domains, i, key, runId, Claimed);
        if p !in claims || claims[p].runId != runId || claims[p].status != Claimed {
          claims := before;
          return Thrown(NotClaimed(domains[i]));
        }
        SetOfStep(domains, i);
        MarkRowsStep(before, SetOf(domains[..i]), domains[i], key);
        claims := claims[p := claims[p].(status := Unknown)];
      }
      assert domains[..|domains|] == domains;
      forall p, q | p in claims && q in claims && p.domain == q.domain && Active(claims[p]) && Active(claims[q])
        ensures p == q
      {
        assert Touches(p, SetOf(domains), key) ==> Active(before[p]) by {
          if Touches(p, SetOf(domains), key) { TouchedOwned(before, domains, p, key, runId, Claimed); }
        }
        assert Touches(q, SetOf(domains), key) ==> Active(before[q]) by {
          if Touches(q, SetOf(domains), key) { TouchedOwned(before, domains, q, key, runId, Claimed); }
        }
      }
      return Ok(());
    }

    static lemma TouchedOwned(
      before: map<ClaimKey, ClaimRow>, domains: seq<string>, p: ClaimKey, key: string, runId: string, status: Status
    )
      requires AllOwned(before, domains, key, runId, status) && Touches(p, SetOf(domains), key)
      ensures p in before && before[p].runId == runId && before[p].status == status
    {
      var i :| 0 <= i < |domains| && domains[i] == p.domain;
      assert !BadAt(before, domains, i, key, runId, status);
    }

    /** Rows of the listed domains are completed and their worlds advanced, or nothing is. */
    method CompleteDomains(domains: seq<string>, key: string, runId: string, record: EffectRecord)
      returns (r: Outcome<()>)
      modifies this`claims, this`world
      ensures r.Ok? <==> AllOwned(old(claims), domains, key, runId, Unknown)
      ensures r.Ok? ==> claims == CompleteRows(old(claims), SetOf(domains), key, record)
      ensures r.Ok? ==> world == AdvanceWorld(old(world), SetOf(domains), record.head)
      ensures r.Thrown? ==> claims == old(claims) && world == old(world)
      ensures r.Thrown? ==>
        r.error.CannotComplete? && FailsAt(old(claims), domains, r.error.domain, key, runId, Unknown)
    {
      var before, worldBefore := claims, world;
      assert CompleteRows(before, SetOf([]), key, record) == before;
      assert AdvanceWorld(worldBefore, SetOf([]), record.head) == worldBefore;
      assert domains[..0] == [];
      for i := 0 to |domains|
        invariant claims == CompleteRows(before, SetOf(domains[..i]), key, record)
        invariant world == AdvanceWorld(worldBefore, SetOf(domains[..i]), record.head)
        invariant forall j :: 0 <= j < i ==> !BadAt(before, domains, j, key, runId, Unknown)
      {
        var domain := domains[i];
        var p := ClaimKey(domain, key);
        assert Owned(claims, domain, key, runId, Unknown) <==> !BadAt(before, domains, i, key, runId, Unknown);
        if p !in claims || claims[p].runId != runId || claims[p].status != Unknown {
          claims, world := before, worldBefore;
          return Thrown(CannotComplete(domain));
        }
        SetOfStep(domains, i);
        CompleteRowsStep(before, SetOf(domains[..i]), domain, key, record);
        AdvanceWorldStep(worldBefore, SetOf(domains[..i]), domain, record.head);
        claims := claims[p := claims[p].(status := Completed, result := Some(record))];
        var revision := (if domain in world then world[domain].revision else 0) + 1;
        world := world[domain := WorldRow(revision, record.head, "head " + record.head)];
      }
      assert domains[..|domains|] == domains;
      return Ok(());
    }

    method Complete(domains: seq<string>, key: string, runId: string, head: string, url: Option<string>)
      returns (r: Outcome<()>)
      requires Valid()
      modifies this`claims, this`world
      ensures Valid()
      ensures Tables() == Claims.Complete(old(Tables()), domains, key, runId, EffectRecord(url, head))
      ensures r.Ok? <==> CanComplete(old(Tables()), domains, key, runId, EffectRecord(url, head))
      ensures r.Thrown? ==>
        (r.error == RecordTooLarge || r.error.CannotComplete?)
        && (r.error.CannotComplete? ==> FailsAt(old(claims), domains, r.error.domain, key, runId, Unknown))
    {
      hide AllOwned, CompleteRows, AdvanceWorld, FailsAt, RecordLength, ValidHead;
      var record := EffectRecord(url, NormalizeHead(head));
      if RecordLength(record) > RECORD_LIMIT {
        return Thrown(RecordTooLarge);
      }
      CompleteRowsUnique(claims, SetOf(domains), key, record);
      r := CompleteDomains(domains, key, runId, record);
    }

    method Abort(domains: seq<string>, key: string, runId: string)
      requires Valid()
      modifies this`claims
      ensures Valid() && Tables() == Claims.Abort(old(Tables()), domains, key, runId)
    {
      var before := claims;
      for i := 0 to |domains|
        invariant claims == (map p | p in before &&
          !(Touches(p, SetOf(domains[..i]), key) && before[p].runId == runId && before[p].status.Claimed?) :: before[p])
      {
        var p := ClaimKey(domains[i], key);
        SetOfStep(domains, i);
        if p in claims && claims[p].runId == runId && claims[p].status.Claimed? {
          claims := claims - {p};
        }
      }
      assert domains[..|domains|] == domains;
    }

    // -------------------------------------------------------------- wakes

    method RecordWake(domain: string, cursor: string, deliveryId: string) returns (r: Outcome<WakeRole>)
      modifies this`wakes
      ensures r.Ok? <==> ValidDomain(domain)
      ensures r.Thrown? ==> wakes == old(wakes) && r.error == InvalidDomain(domain)
      ensures r.Ok? ==>
        var (wake, role) := Wakes.RecordWake(Lookup(old(wakes), domain), Bound(cursor), Bound(deliveryId));
        wakes == old(wakes)[domain := wake] && r.value == role
    {
      if !ValidDomain(domain) {
        return Thrown(InvalidDomain(domain));
      }
      var c, id := Bound(cursor), Bound(deliveryId);
      if domain !in wakes {
        wakes := wakes[domain := Wake(c, id, [id], Pending, None, None, 0, false)];
        return Ok(LeadRole);
      }
      var wake := wakes[domain];
      if id in wake.deliveries {
        assert wakes[domain := wake] == wakes;
        return Ok(if id == wake.lead && wake.state != Done then LeadRole else DuplicateRole);
      }
      var capped := LastDeliveries(wake.deliveries + [id]);
      if Less(c, wake.cursor) {
        wakes := wakes[domain := wake.(deliveries := capped)];
        return Ok(StaleRole);
      }
      if c == wake.cursor {
        wakes := wakes[domain := wake.(deliveries := capped)];
        return Ok(CoalescedRole);
      }
      var rerun := if wake.state == Leased then true else wake.rerun;
      var state := if wake.state == Done then Pending else wake.state;
      wakes := wakes[domain := wake.(cursor := c, lead := id, deliveries := capped, state := state, rerun := rerun)];
      return Ok(LeadRole);
    }

    method ClaimWake(domain: string, deliveryId: string, owner: string, now: int, leaseMs: int)
      returns (r: Outcome<WakeClaim>)
      modifies this`wakes
      ensures r.Ok? <==> ValidDomain(domain)
      ensures r.Thrown? ==> wakes == old(wakes) && r.error == InvalidDomain(domain)
      ensures r.Ok? ==>
        var (wake, answer) := Wakes.ClaimWake(Lookup(old(wakes), domain), deliveryId, owner, now, leaseMs);
        r.value == answer && wakes == if wake.Some? then old(wakes)[domain := wake.value] else old(wakes)
    {
      if !ValidDomain(domain) {
        return Thrown(InvalidDomain(domain));
      }
      if domain !in wakes {
        return Ok(Absent);
      }
      var wake := wakes[domain];
      assert wakes[domain := wake] == wakes;
      if wake.lead != deliveryId {
        return Ok(Skip);
      }
      if wake.state == Leased && wake.leaseOwner != Some(owner) && wake.leaseUntil != None
        && wake.leaseUntil.value > now {
        return Ok(Blocked);
      }
      wakes := wakes[domain := wake.(state := Leased, leaseOwner := Some(owner), leaseUntil := Some(now + leaseMs),
                                     attempts := wake.attempts + 1, rerun := false)];
      return Ok(Process);
    }

    method FinishWake(domain: string, deliveryId: string, owner: string) returns (r: WakeFinish)
      modifies this`wakes
      ensures var (wake, answer) := Wakes.FinishWake(Lookup(old(wakes), domain), deliveryId, owner);
        r == answer && wakes == if wake.Some? then old(wakes)[domain := wake.value] else old(wakes)
    {
      if domain !in wakes {
        return FinishIgnored;
      }
      var wake := wakes[domain];
      assert wakes[domain := wake] == wakes;
      var ownsLease := wake.state == Leased && wake.leaseOwner == Some(owner);
      if wake.state == Leased && !ownsLease {
        return FinishIgnored;
      }
      if wake.lead != deliveryId {
        if !ownsLease {
          return FinishIgnored;
        }
        wakes := wakes[domain := wake.(state := Pending, leaseOwner := None, leaseUntil := None, rerun := false)];
        return FinishedReleased;
      }
      if wake.rerun {
        if !ownsLease {
          return FinishIgnored;
        }
        wakes := wakes[domain := wake.(state := Pending, leaseOwner := None, leaseUntil := None, rerun := false)];
        return FinishedReleased;
      }
      wakes := wakes[domain := wake.(state := Done, leaseOwner := None, leaseUntil := None)];
      return FinishedDone;
    }

    method ReleaseWake(domain: string, owner: string)
      modifies this`wakes
      ensures var wake := Wakes.ReleaseWake(Lookup(old(wakes), domain), owner);
        wakes == if wake.Some? then old(wakes)[domain := wake.value] else old(wakes)
    {
      if domain !in wakes || wakes[domain].state != Leased || wakes[domain].leaseOwner != Some(owner) {
        assert domain in wakes ==> wakes[domain := wakes[domain]] == wakes;
        return;
      }
      wakes := wakes[domain :=
        wakes[domain].(state := Pending, leaseOwner := None, leaseUntil := None, rerun := false)];
    }
  }
}
