/** What a proposal is told, in terms of everything that happened before it. */
module ClaimAnswers {
  import opened Text
  import opened Claims
  import opened ClaimSafety
  import CanonicalJson

  // ---------------------------------------------------------------- what happened

  /** An effect whose start was recorded, and one that finished with a record the store could keep. */
  datatype Fact = Started(cfg: Config) | Finished(cfg: Config, record: EffectRecord)

  ghost function FactsOf(s: Sys, e: Event): seq<Fact> {
    match e
    case MarkStep(id) =>
      if At(s, id, Admitted) && At(Next(s, e), id, Armed) then [Started(s.callers[id].cfg)] else []
    case CompleteStep(id, record) =>
      if At(s, id, Returned) && RecordLength(Stored(record)) <= RECORD_LIMIT then [Finished(s.callers[id].cfg, record)]
      else []
    case _ => []
  }

  /** The facts of a run, in the order in which they came about. */
  ghost function Facts(s: Sys, events: seq<Event>): seq<Fact>
    decreases |events|
  {
    if events == [] then [] else FactsOf(s, events[0]) + Facts(Next(s, events[0]), events[1..])
  }

  predicate Concerns(f: Fact, p: ClaimKey) { f.cfg.key == p.key && p.domain in f.cfg.domains }

  predicate StartedAt(facts: seq<Fact>, i: int, p: ClaimKey) {
    0 <= i < |facts| && facts[i].Started? && Concerns(facts[i], p)
  }

  predicate FinishedAt(facts: seq<Fact>, i: int, p: ClaimKey) {
    0 <= i < |facts| && facts[i].Finished? && Concerns(facts[i], p)
  }

  ghost predicate Began(facts: seq<Fact>, p: ClaimKey) { exists i :: StartedAt(facts, i, p) }

  ghost predicate Ended(facts: seq<Fact>, p: ClaimKey) { exists i :: FinishedAt(facts, i, p) }

  predicate Spoken(claims: map<ClaimKey, ClaimRow>, p: ClaimKey) { p in claims && !claims[p].status.Claimed? }

  /** The rows of the table say exactly what happened. */
  ghost predicate RowsTell(claims: map<ClaimKey, ClaimRow>, facts: seq<Fact>) {
    && (forall p :: Spoken(claims, p) <==> Began(facts, p))
    && (forall p :: p in claims && claims[p].status.Completed? <==> Ended(facts, p))
    && (forall i, p :: FinishedAt(facts, i, p) ==> p in claims && claims[p].result == Some(Stored(facts[i].record)))
  }

  // ---------------------------------------------------------------- every step keeps the rows telling

  ghost predicate SameSpoken(before: map<ClaimKey, ClaimRow>, after: map<ClaimKey, ClaimRow>) {
    && (forall p :: Spoken(before, p) <==> Spoken(after, p))
    && (forall p :: Spoken(before, p) ==> after[p] == before[p])
  }

  lemma SameSpokenTells(before: map<ClaimKey, ClaimRow>, after: map<ClaimKey, ClaimRow>, facts: seq<Fact>)
    requires RowsTell(before, facts) && SameSpoken(before, after)
    ensures RowsTell(after, facts)
  {
    hide Began, Ended;
    forall p ensures p in after && after[p].status.Completed? <==> Ended(facts, p) {
      assert Spoken(before, p) <==> Spoken(after, p);
    }
    forall i, p | FinishedAt(facts, i, p) ensures p in after && after[p].result == Some(Stored(facts[i].record)) {
      assert Ended(facts, p) by { FinishedEnds(facts, i, p); }
      assert Spoken(before, p);
    }
  }

  lemma FinishedEnds(facts: seq<Fact>, i: int, p: ClaimKey)
    requires FinishedAt(facts, i, p)
    ensures Ended(facts, p)
  {}

  lemma ProposeSpeaksNot(db: Db, domains: seq<string>, seen: map<string, string>, runId: string, key: string)
    requires domains != []
    ensures SameSpoken(db.claims, Propose(db, domains, seen, runId, key).0.claims)
  {
    ProposeCases(db, domains, seen, runId, key);
    hide Propose, Stale, Unclaimed;
  }

  lemma BeganMore(facts: seq<Fact>, f: Fact, p: ClaimKey)
    ensures Began(facts + [f], p) <==> Began(facts, p) || (f.Started? && Concerns(f, p))
    ensures Ended(facts + [f], p) <==> Ended(facts, p) || (f.Finished? && Concerns(f, p))
  {
    var more := facts + [f];
    if i :| StartedAt(facts, i, p) { assert StartedAt(more, i, p); }
    if i :| FinishedAt(facts, i, p) { assert FinishedAt(more, i, p); }
    if i :| StartedAt(more, i, p) { assert i < |facts| ==> StartedAt(facts, i, p); }
    if i :| FinishedAt(more, i, p) { assert i < |facts| ==> FinishedAt(facts, i, p); }
    if f.Started? && Concerns(f, p) { assert StartedAt(more, |facts|, p); }
    if f.Finished? && Concerns(f, p) { assert FinishedAt(more, |facts|, p); }
  }

  lemma MarkTells(s: Sys, id: nat, facts: seq<Fact>)
    requires Inv(s) && Marking(s, id) && RowsTell(s.db.claims, facts)
    ensures RowsTell(Next(s, MarkStep(id)).db.claims, facts + FactsOf(s, MarkStep(id)))
  {
    var cfg := s.callers[id].cfg;
    var after := Next(s, MarkStep(id)).db.claims;
    var more := facts + [Started(cfg)];
    hide Inv, AllOwned;
    forall d | d in cfg.domains ensures Owned(s.db.claims, d, cfg.key, cfg.runId, Claimed) {
      OwnedRow(s.db.claims, cfg.domains, d, cfg.key, cfg.runId, Claimed);
    }
    hide Began, Ended;
    forall p
      ensures Spoken(after, p) <==> Began(more, p)
      ensures p in after && after[p].status.Completed? <==> Ended(more, p)
    {
      BeganMore(facts, Started(cfg), p);
      assert Touches(p, SetOf(cfg.domains), cfg.key) ==> p == ClaimKey(p.domain, cfg.key);
    }
    forall i, p | FinishedAt(more, i, p) ensures p in after && after[p].result == Some(Stored(more[i].record)) {
      assert FinishedAt(facts, i, p);
    }
  }

  lemma CompleteTells(s: Sys, id: nat, record: EffectRecord, facts: seq<Fact>)
    requires Inv(s) && At(s, id, Returned) && RowsTell(s.db.claims, facts)
    ensures RowsTell(Next(s, CompleteStep(id, record)).db.claims, facts + FactsOf(s, CompleteStep(id, record)))
  {
    var cfg := s.callers[id].cfg;
    assert InFlight(s, id) && OwnsUnknown(s.db.claims, cfg);
    forall d | d in cfg.domains ensures Owned(s.db.claims, d, cfg.key, cfg.runId, Unknown) {
      OwnedRow(s.db.claims, cfg.domains, d, cfg.key, cfg.runId, Unknown);
    }
    hide Inv, AllOwned, OwnsUnknown, RecordLength, Stored;
    if RecordLength(Stored(record)) <= RECORD_LIMIT {
      var after := Next(s, CompleteStep(id, record)).db.claims;
      assert OwnsUnknown(s.db.claims, cfg) ==> AllOwned(s.db.claims, cfg.domains, cfg.key, cfg.runId, Unknown) by {
        OwnsMeans(s.db.claims, cfg);
      }
      assert after == CompleteRows(s.db.claims, SetOf(cfg.domains), cfg.key, Stored(record));
      CompletedTells(s.db.claims, cfg, record, facts);
    } else {
      assert facts + [] == facts;
    }
  }

  lemma OwnsMeans(claims: map<ClaimKey, ClaimRow>, cfg: Config)
    ensures OwnsUnknown(claims, cfg) <==> AllOwned(claims, cfg.domains, cfg.key, cfg.runId, Unknown)
  {}

  lemma CompletedTells(claims: map<ClaimKey, ClaimRow>, cfg: Config, record: EffectRecord, facts: seq<Fact>)
    requires RowsTell(claims, facts)
    requires forall d :: d in cfg.domains ==> Owned(claims, d, cfg.key, cfg.runId, Unknown)
    ensures RowsTell(CompleteRows(claims, SetOf(cfg.domains), cfg.key, Stored(record)), facts + [Finished(cfg, record)])
  {
    var after := CompleteRows(claims, SetOf(cfg.domains), cfg.key, Stored(record));
    var more := facts + [Finished(cfg, record)];
    hide Began, Ended, Stored;
    forall p
      ensures Spoken(after, p) <==> Began(more, p)
      ensures p in after && after[p].status.Completed? <==> Ended(more, p)
    {
      BeganMore(facts, Finished(cfg, record), p);
      assert Touches(p, SetOf(cfg.domains), cfg.key) ==> p == ClaimKey(p.domain, cfg.key);
    }
    forall i, p | FinishedAt(more, i, p) ensures p in after && after[p].result == Some(Stored(more[i].record)) {
      if i < |facts| {
        assert FinishedAt(facts, i, p);
        FinishedEnds(facts, i, p);
      } else {
        assert p == ClaimKey(p.domain, cfg.key);
      }
    }
  }

  lemma NextTells(s: Sys, e: Event, facts: seq<Fact>)
    requires Inv(s) && RowsTell(s.db.claims, facts)
    ensures RowsTell(Next(s, e).db.claims, facts + FactsOf(s, e))
  {
    hide Propose, RowsTell, Mark, Complete, Inv;
    var after := Next(s, e).db.claims;
    if e.MarkStep? && Marking(s, e.id) {
      MarkTells(s, e.id, facts);
    } else if e.CompleteStep? && At(s, e.id, Returned) {
      CompleteTells(s, e.id, e.record, facts);
    } else {
      assert facts + FactsOf(s, e) == facts;
      if e.ProposeStep? && e.id in s.callers && s.callers[e.id].phase.Snapped? && s.callers[e.id].cfg.domains != [] {
        var cfg := s.callers[e.id].cfg;
        ProposeSpeaksNot(s.db, cfg.domains, s.callers[e.id].phase.seen, cfg.runId, cfg.key);
      } else if e.ProposeCall? && e.domains != [] {
        ProposeSpeaksNot(s.db, e.domains, e.seen, e.runId, e.key);
      }
      assert SameSpoken(s.db.claims, after);
      SameSpokenTells(s.db.claims, after, facts);
    }
  }

  lemma {:induction false} RunTells(s: Sys, events: seq<Event>, facts: seq<Fact>)
    requires Inv(s) && RowsTell(s.db.claims, facts)
    ensures Inv(Run(s, events)) && RowsTell(Run(s, events).db.claims, facts + Facts(s, events))
    decreases |events|
  {
    hide Inv, RowsTell, Next, FactsOf;
    if events == [] {
      assert facts + [] == facts;
    } else {
      NextTells(s, events[0], facts);
      NextKeeps(s, events[0]);
      var t := Next(s, events[0]);
      RunTells(t, events[1..], facts + FactsOf(s, events[0]));
      assert facts + FactsOf(s, events[0]) + Facts(t, events[1..])
        == facts + (FactsOf(s, events[0]) + Facts(t, events[1..]));
    }
  }

  lemma ReachableTells(events: seq<Event>)
    ensures Inv(Run(Start, events)) && RowsTell(Run(Start, events).db.claims, Facts(Start, events))
  {
    Reachable([]);
    RunTells(Start, events, []);
    assert [] + Facts(Start, events) == Facts(Start, events);
  }

  // ---------------------------------------------------------------- replayed and unknown

  /** A url on GitHub: the host, and then up to 200 characters without a space. */
  ghost predicate OnGithub(url: string) {
    exists path :: url == "https://github.com/" + path && 1 <= |path| <= 200
      && forall i :: 0 <= i < |path| ==> !IsSpace(path[i])
  }

  /** What a replay says of the record that an effect finished with. */
  ghost predicate Retells(told: EffectRecord, given: EffectRecord) {
    && told.head == NormalizeHead(given.head)
    && (told.url.Some? <==> given.url.Some? && OnGithub(given.url.value))
    && (told.url.Some? ==> told.url == given.url)
  }

  lemma StoredRetells(given: EffectRecord)
    ensures Retells(ParseRecord(Some(Stored(given))), given)
  {
    hide ValidHead, IsSpace;
    var prefix := "https://github.com/";
    if given.url.Some? {
      var url := given.url.value;
      if GithubUrl(url) {
        var path := url[|prefix|..];
        assert url == prefix + path;
        assert OnGithub(url);
      }
      if path :| url == prefix + path && 1 <= |path| <= 200 && forall i :: 0 <= i < |path| ==> !IsSpace(path[i]) {
        assert forall i :: |prefix| <= i < |url| ==> url[i] == path[i - |prefix|];
        assert GithubUrl(url);
      }
    }
  }

  /** Over every run, a proposal is told to replay exactly when the key's effect finished on the action domain, with
      what it finished with; it is told that an effect of unknown outcome started exactly when one was marked there and
      none finished. Neither changes anything. */
  lemma ToldWhatHappened(
    events: seq<Event>, domains: seq<string>, seen: map<string, string>, runId: string, key: string
  )
    requires domains != []
    ensures var db, facts := Run(Start, events).db, Facts(Start, events);
      var p := ClaimKey(ActionDomain(domains), key);
      var (after, answer) := Propose(db, domains, seen, runId, key);
      && (answer.Replay? <==> Ended(facts, p))
      && (forall i :: FinishedAt(facts, i, p) ==> answer.Replay? && Retells(answer.record, facts[i].record))
      && (answer.EffectStarted? <==> Began(facts, p) && !Ended(facts, p))
      && (answer.Replay? || answer.EffectStarted? ==> after == db)
  {
    ReachableTells(events);
    var db, facts := Run(Start, events).db, Facts(Start, events);
    var p := ClaimKey(ActionDomain(domains), key);
    hide Run, Facts, Inv, StaleLines, ForeignOwner, Current, ParseRecord, Retells, ActionDomain, Stored, ClaimRows,
      Stale;
    forall i | FinishedAt(facts, i, p) ensures Retells(ParseRecord(db.claims[p].result), facts[i].record) {
      StoredRetells(facts[i].record);
    }
    assert Spoken(db.claims, p) <==> Began(facts, p);
    assert p in db.claims && db.claims[p].status.Completed? <==> Ended(facts, p);
    hide Began, Ended, FinishedAt;
    forall i | FinishedAt(facts, i, p) ensures Ended(facts, p) { FinishedEnds(facts, i, p); }
  }

  lemma {:induction false} FactsSplit(s: Sys, events: seq<Event>, more: seq<Event>)
    ensures Run(s, events + more) == Run(Run(s, events), more)
    ensures Facts(s, events + more) == Facts(s, events) + Facts(Run(s, events), more)
    decreases |events|
  {
    hide Next, FactsOf;
    if events == [] {
      assert [] + more == more;
    } else {
      assert (events + more)[1..] == events[1..] + more;
      FactsSplit(Next(s, events[0]), events[1..], more);
    }
  }

  /** A finished key stays finished: whatever happens afterwards, whoever proposes it, on domains with the same action
      domain, is told to replay what it finished with, and nothing changes. */
  lemma FinishedKeyReplays(
    events: seq<Event>, more: seq<Event>, i: nat, domains: seq<string>, seen: map<string, string>, runId: string,
    key: string
  )
    requires domains != [] && FinishedAt(Facts(Start, events), i, ClaimKey(ActionDomain(domains), key))
    ensures var db := Run(Run(Start, events), more).db;
      var (after, answer) := Propose(db, domains, seen, runId, key);
      answer.Replay? && Retells(answer.record, Facts(Start, events)[i].record) && after == db
  {
    FactsSplit(Start, events, more);
    ToldWhatHappened(events + more, domains, seen, runId, key);
    hide Run, Facts, Propose, Retells, ActionDomain;
    assert FinishedAt(Facts(Start, events + more), i, ClaimKey(ActionDomain(domains), key));
  }

  /** After a crash with a started effect, whoever proposes its key, with whatever cursors, is told that an effect of
      unknown outcome started, for good. */
  lemma CrashedKeyStaysUnknown(
    events: seq<Event>, id: nat, more: seq<Event>, domains: seq<string>, seen: map<string, string>, runId: string
  )
    requires domains != [] && InFlight(Run(Start, events), id)
    requires ActionDomain(domains) in Run(Start, events).callers[id].cfg.domains
    ensures var s := Run(Start, events);
      var db := Run(Next(s, Crash(id)), more).db;
      Propose(db, domains, seen, runId, s.callers[id].cfg.key) == (db, EffectStarted)
  {
    CrashFreezesDomain(events, id, more, ActionDomain(domains));
    hide Run, Next, StaleLines, ForeignOwner, Current, ParseRecord, ActionDomain, ClaimRows, Stale;
  }

  // ---------------------------------------------------------------- proceed, hold and conflict

  /** The key's action row is claimed by the proposing run itself. */
  predicate Holding(db: Db, domains: seq<string>, runId: string, key: string)
    requires domains != []
  {
    Owned(db.claims, ActionDomain(domains), key, runId, Claimed)
  }

  /** The proposal presents the version of the domain that the store has, or any head while the store has none. */
  predicate UpToDate(db: Db, d: string, seen: map<string, string>) {
    d in seen &&
    if d in db.world then seen[d] == CursorText(db.world[d].revision, db.world[d].head)
    else seen[d] == CursorText(0, NormalizeHead(AfterColon(seen[d])))
  }

  ghost predicate AllUpToDate(db: Db, domains: seq<string>, seen: map<string, string>) {
    forall d :: d in domains ==> UpToDate(db, d, seen)
  }

  /** Another key is active on the domain, on behalf of the given run. */
  ghost predicate Blocks(db: Db, d: string, key: string, owner: string) {
    exists k :: k != key && ClaimKey(d, k) in db.claims && Active(db.claims[ClaimKey(d, k)])
      && db.claims[ClaimKey(d, k)].runId == owner
  }

  ghost predicate Blocked(db: Db, d: string, key: string) { exists owner :: Blocks(db, d, key, owner) }

  ghost predicate FirstBlocks(db: Db, domains: seq<string>, i: int, key: string, owner: string) {
    && 0 <= i < |domains| && Blocks(db, domains[i], key, owner)
    && forall j :: 0 <= j < i ==> !Blocked(db, domains[j], key)
  }

  ghost predicate NoneBlocked(db: Db, domains: seq<string>, key: string) {
    forall d :: d in domains ==> !Blocked(db, d, key)
  }

  lemma StaleIsOutdated(db: Db, d: string, seen: map<string, string>)
    ensures Stale(db, d, seen) <==> !UpToDate(db, d, seen)
  {}

  lemma ActiveBlocks(db: Db, d: string, key: string, p: ClaimKey)
    requires p in ActiveRows(db.claims, d) && p.key != key
    ensures Blocks(db, d, key, db.claims[p].runId) && Blocked(db, d, key)
  {
    assert p == ClaimKey(d, p.key) && Active(db.claims[p]);
    var owner := db.claims[p].runId;
    assert Blocks(db, d, key, owner);
  }

  lemma BlockedIsActive(db: Db, d: string, key: string)
    ensures Blocked(db, d, key) <==> exists p :: p in ActiveRows(db.claims, d) && p.key != key
  {
    if owner :| Blocks(db, d, key, owner) {
      var k :| k != key && ClaimKey(d, k) in db.claims && Active(db.claims[ClaimKey(d, k)]);
      assert ClaimKey(d, k) in ActiveRows(db.claims, d);
    }
    if p :| p in ActiveRows(db.claims, d) && p.key != key { ActiveBlocks(db, d, key, p); }
  }

  lemma {:induction false} OwnerIsFirst(db: Db, domains: seq<string>, key: string)
    ensures var owner := ForeignOwner(db.claims, domains, key);
      && (owner.None? <==> NoneBlocked(db, domains, key))
      && (owner.Some? ==> exists i :: FirstBlocks(db, domains, i, key, owner.value))
  {
    if domains != [] {
      hide Blocks, Blocked, ActiveRows;
      var rest := domains[1..];
      OwnerIsFirst(db, rest, key);
      BlockedIsActive(db, domains[0], key);
      assert forall d :: d in domains <==> d == domains[0] || d in rest;
      var owner := ForeignOwner(db.claims, domains, key);
      if exists p :: p in ActiveRows(db.claims, domains[0]) && p.key != key {
        var p :| p in ActiveRows(db.claims, domains[0]) && p.key != key
          && owner == Some(db.claims[p].runId);
        ActiveBlocks(db, domains[0], key, p);
        assert FirstBlocks(db, domains, 0, key, owner.value);
      } else if owner.Some? {
        var i :| FirstBlocks(db, rest, i, key, owner.value);
        forall j | 0 <= j < i + 1 ensures !Blocked(db, domains[j], key) {
          assert j > 0 ==> domains[j] == rest[j - 1];
        }
        assert FirstBlocks(db, domains, i + 1, key, owner.value);
      }
    }
  }

  /** The domains whose presented version is not the stored one, in the order given. */
  function Outdated(db: Db, domains: seq<string>, seen: map<string, string>): (r: seq<string>)
    ensures r == [] <==> forall d :: d in domains ==> UpToDate(db, d, seen)
  {
    if domains == [] then []
    else
      var rest := Outdated(db, domains[1..], seen);
      assert forall d :: d in domains <==> d == domains[0] || d in domains[1..];
      if UpToDate(db, domains[0], seen) then rest else [domains[0]] + rest
  }

  /** What a delta tells of a domain. */
  function Told(db: Db, d: string): string {
    d + if d in db.world then " head " + db.world[d].head else " absent"
  }

  /** The first 160 characters, which is all of it for short domains. */
  function Cut(line: string): string { if |line| <= 160 then line else line[..160] }

  lemma {:induction false} StaleLinesTell(db: Db, domains: seq<string>, seen: map<string, string>)
    ensures var lines, names := StaleLines(db, domains, seen), Outdated(db, domains, seen);
      |lines| == |names| && forall i :: 0 <= i < |lines| ==> lines[i] == DeltaLine(db, names[i])
  {
    hide Stale, UpToDate, DeltaLine;
    if domains != [] {
      StaleLinesTell(db, domains[1..], seen);
      StaleIsOutdated(db, domains[0], seen);
    }
  }

  lemma LineTells(db: Db, d: string)
    requires WorldOk(db) && ValidDomain(d)
    ensures DeltaLine(db, d) == Cut(Told(db, d))
  {
    var line := Told(db, d);
    assert forall i :: 0 <= i < |line| ==> line[i] >= ' ' by {
      assert d in db.world ==> forall i :: 0 <= i < |db.world[d].head| ==> HeadChar(db.world[d].head[i]);
    }
    assert DeltaLine(db, d) == Bound(line);
    hide ValidDomain, WorldOk, Told;
    assert seq(|line|, i requires 0 <= i < |line| => if line[i] < ' ' then ' ' else line[i]) == line;
  }

  /** A run's presented version of the action domain, as a hold records it. */
  function HoldOf(domains: seq<string>, seen: map<string, string>, runId: string): HoldRow
    requires domains != []
  {
    var action := ActionDomain(domains);
    HoldRow(action, runId, if action in seen then seen[action] else "")
  }

  /** The next cursor of a hold brings the action domain up to date, and its delta names the first eight outdated
      domains with the version the store has. */
  ghost predicate Reevaluates(
    db: Db, domains: seq<string>, seen: map<string, string>, nextCursor: string, delta: seq<string>
  )
    requires domains != []
  {
    var action, names := ActionDomain(domains), Outdated(db, domains, seen);
    && UpToDate(db, action, seen[action := nextCursor])
    && |delta| == (if |names| <= 8 then |names| else 8)
    && forall i :: 0 <= i < |delta| && ValidDomain(names[i]) ==> delta[i] == Cut(Told(db, names[i]))
  }

  lemma NextCursorIsCurrent(db: Db, d: string, seen: map<string, string>, cursor: string)
    ensures UpToDate(db, d, seen[d := Current(db, d, Some(cursor))])
  {
    CursorHead(0, HeadOf(Some(cursor)));
    hide CursorText;
  }

  lemma DeltaTells(db: Db, domains: seq<string>, seen: map<string, string>)
    requires domains != [] && WorldOk(db)
    ensures var stale, action := StaleLines(db, domains, seen), ActionDomain(domains);
      Reevaluates(db, domains, seen, Current(db, action, Some(GetOr(Lookup(seen, action), ""))),
        if |stale| <= DELTA_LIMIT then stale else stale[..DELTA_LIMIT])
  {
    StaleLinesTell(db, domains, seen);
    var names, action := Outdated(db, domains, seen), ActionDomain(domains);
    NextCursorIsCurrent(db, action, seen, GetOr(Lookup(seen, action), ""));
    hide UpToDate, Current, DeltaLine, ValidDomain, Told, Cut, WorldOk, ActionDomain, StaleLines, Outdated;
    forall i | 0 <= i < |names| && ValidDomain(names[i]) ensures DeltaLine(db, names[i]) == Cut(Told(db, names[i])) {
      LineTells(db, names[i]);
    }
  }

  /** A proposal for a key of which nothing started: told to proceed exactly when the run holds the action row already
      or everything it presents is up to date and no other key blocks it; told of a conflict with the first owner that
      blocks it; and held when something is outdated, the second time with the limit reached. */
  ghost predicate Judged(
    db: Db, given: seq<HoldRow>, domains: seq<string>, seen: map<string, string>, runId: string, key: string,
    answer: Decision
  )
    requires domains != []
  {
    var holding, timely := Holding(db, domains, runId, key), AllUpToDate(db, domains, seen);
    && (answer.Proceed? <==> holding || (timely && NoneBlocked(db, domains, key)))
    && (answer.Conflict? <==> !holding && timely && !NoneBlocked(db, domains, key))
    && (answer.Conflict? ==> exists i :: FirstBlocks(db, domains, i, key, answer.ownerRunId))
    && (answer.Hold? <==> !holding && !timely && HoldOf(domains, seen, runId) !in given)
    && (answer.ReevaluationLimit? <==> !holding && !timely && HoldOf(domains, seen, runId) in given)
    && (answer.Hold? || answer.ReevaluationLimit? ==>
          Reevaluates(db, domains, seen, answer.nextCursor, answer.delta))
  }

  /** The store remembers the holds that were given out and no others. */
  ghost predicate HoldsTell(s: Sys) { forall h :: h in s.db.holds <==> h in s.holds }

  lemma NextHolds(s: Sys, e: Event)
    requires HoldsTell(s)
    ensures HoldsTell(Next(s, e))
  {
    hide StaleLines, ForeignOwner, Current, ActionDomain, ParseRecord, ClaimRows, AllOwned, RecordLength, Stale;
  }

  lemma {:induction false} RunHolds(s: Sys, events: seq<Event>)
    requires HoldsTell(s)
    ensures HoldsTell(Run(s, events))
    decreases |events|
  {
    if events != [] {
      NextHolds(s, events[0]);
      hide Next, HoldsTell;
      RunHolds(Next(s, events[0]), events[1..]);
    }
  }

  lemma AllUpToDateIff(db: Db, domains: seq<string>, seen: map<string, string>)
    ensures StaleLines(db, domains, seen) == [] <==> AllUpToDate(db, domains, seen)
  {
    forall d ensures Stale(db, d, seen) <==> !UpToDate(db, d, seen) { StaleIsOutdated(db, d, seen); }
    hide Stale, UpToDate;
  }

  lemma Unspoken(db: Db, domains: seq<string>, seen: map<string, string>, runId: string, key: string)
    requires domains != [] && !Spoken(db.claims, ClaimKey(ActionDomain(domains), key))
    ensures var answer := Propose(db, domains, seen, runId, key).1;
      var stale, owner := StaleLines(db, domains, seen), ForeignOwner(db.claims, domains, key);
      var next := Current(db, ActionDomain(domains), Some(GetOr(Lookup(seen, ActionDomain(domains)), "")));
      var delta := if |stale| <= DELTA_LIMIT then stale else stale[..DELTA_LIMIT];
      answer == if Holding(db, domains, runId, key) then Proceed
                else if stale != [] then
                  if HoldOf(domains, seen, runId) in db.holds then ReevaluationLimit(next, delta) else Hold(next, delta)
                else if owner.Some? then Conflict(owner.value) else Proceed
  {
    hide StaleLines, ForeignOwner, Current, ActionDomain, ParseRecord, ClaimRows;
  }

  lemma JudgedAt(s: Sys, domains: seq<string>, seen: map<string, string>, runId: string, key: string)
    requires domains != [] && HoldsTell(s) && WorldOk(s.db)
    requires !Spoken(s.db.claims, ClaimKey(ActionDomain(domains), key))
    ensures Judged(s.db, s.holds, domains, seen, runId, key, Propose(s.db, domains, seen, runId, key).1)
  {
    AllUpToDateIff(s.db, domains, seen);
    OwnerIsFirst(s.db, domains, key);
    DeltaTells(s.db, domains, seen);
    Unspoken(s.db, domains, seen, runId, key);
    hide Propose, StaleLines, ForeignOwner, Current, ActionDomain, AllUpToDate, NoneBlocked, FirstBlocks, Reevaluates,
      WorldOk, Holding, HoldOf;
  }

  /** So it is over every run. */
  lemma ToldWhatToDo(events: seq<Event>, domains: seq<string>, seen: map<string, string>, runId: string, key: string)
    requires domains != []
    requires !Began(Facts(Start, events), ClaimKey(ActionDomain(domains), key))
    ensures var s := Run(Start, events);
      Judged(s.db, s.holds, domains, seen, runId, key, Propose(s.db, domains, seen, runId, key).1)
  {
    ReachableTells(events);
    RunHolds(Start, events);
    hide Run, Facts, Judged, Propose, Began, ActionDomain;
    var s := Run(Start, events);
    assert WorldOk(s.db);
    JudgedAt(s, domains, seen, runId, key);
  }

  // ---------------------------------------------------------------- what a transaction leaves alone

  /** Rows of other keys, other domains and other runs stay as they are, and new rows are the run's own. */
  ghost predicate OwnRowsOnly(before: Db, after: Db, domains: seq<string>, key: string, runId: string) {
    && (forall p :: p in before.claims && !(p.key == key && p.domain in domains && before.claims[p].runId == runId) ==>
          p in after.claims && after.claims[p] == before.claims[p])
    && (forall p :: p in after.claims && p !in before.claims ==>
          p.key == key && p.domain in domains && after.claims[p].runId == runId)
  }

  lemma ProposeOwnRows(db: Db, domains: seq<string>, seen: map<string, string>, runId: string, key: string)
    requires domains != []
    ensures OwnRowsOnly(db, Propose(db, domains, seen, runId, key).0, domains, key, runId)
  {
    ProposeCases(db, domains, seen, runId, key);
    hide Propose, Stale, Unclaimed, Lookup, GetOr;
  }

  lemma StatusOwnRows(db: Db, domains: seq<string>, key: string, runId: string, record: EffectRecord)
    ensures OwnRowsOnly(db, Mark(db, domains, key, runId), domains, key, runId)
    ensures OwnRowsOnly(db, Complete(db, domains, key, runId, record), domains, key, runId)
  {
    forall status, d | AllOwned(db.claims, domains, key, runId, status) && d in domains
      ensures Owned(db.claims, d, key, runId, status)
    {
      OwnedRow(db.claims, domains, d, key, runId, status);
    }
    hide RecordLength, Stored, AdvanceWorld, AllOwned;
  }

  /** No transaction of a run touches a row of another one; an abort gives up exactly the rows that were claimed and
      whose effect did not start; and no domain's version moves but by completing on it. */
  lemma OthersUntouched(
    db: Db, domains: seq<string>, seen: map<string, string>, runId: string, key: string, record: EffectRecord
  )
    requires domains != []
    ensures OwnRowsOnly(db, Propose(db, domains, seen, runId, key).0, domains, key, runId)
    ensures OwnRowsOnly(db, Mark(db, domains, key, runId), domains, key, runId)
    ensures OwnRowsOnly(db, Complete(db, domains, key, runId, record), domains, key, runId)
    ensures var after := Abort(db, domains, key, runId);
      && OwnRowsOnly(db, after, domains, key, runId)
      && forall d :: d in domains && Owned(db.claims, d, key, runId, Claimed) ==> ClaimKey(d, key) !in after.claims
    ensures forall d, status :: d in domains && status != Claimed && Owned(db.claims, d, key, runId, status) ==>
      Owned(Abort(db, domains, key, runId).claims, d, key, runId, status)
    ensures Propose(db, domains, seen, runId, key).0.world == Mark(db, domains, key, runId).world == db.world
    ensures Abort(db, domains, key, runId).world == db.world
    ensures forall d :: d !in domains ==>
      Lookup(Complete(db, domains, key, runId, record).world, d) == Lookup(db.world, d)
  {
    ProposeOwnRows(db, domains, seen, runId, key);
    StatusOwnRows(db, domains, key, runId, record);
    AbortFrees(db, domains, key, runId);
    WorldStays(db, domains, seen, runId, key, record);
    hide Propose, Mark, Complete, Abort, OwnRowsOnly, Owned;
  }

  lemma AbortFrees(db: Db, domains: seq<string>, key: string, runId: string)
    ensures var after := Abort(db, domains, key, runId);
      && OwnRowsOnly(db, after, domains, key, runId)
      && (forall d :: d in domains && Owned(db.claims, d, key, runId, Claimed) ==> ClaimKey(d, key) !in after.claims)
      && (forall d, status :: d in domains && status != Claimed && Owned(db.claims, d, key, runId, status) ==>
            Owned(after.claims, d, key, runId, status))
  {}

  lemma WorldStays(
    db: Db, domains: seq<string>, seen: map<string, string>, runId: string, key: string, record: EffectRecord
  )
    requires domains != []
    ensures Propose(db, domains, seen, runId, key).0.world == Mark(db, domains, key, runId).world == db.world
    ensures Abort(db, domains, key, runId).world == db.world
    ensures forall d :: d !in domains ==>
      Lookup(Complete(db, domains, key, runId, record).world, d) == Lookup(db.world, d)
  {
    ProposeCases(db, domains, seen, runId, key);
    hide Propose, Stale, ClaimRows, RecordLength, Stored, AllOwned, Unclaimed;
  }

  /** A snapshot is up to date the moment it is taken exactly when the observed head is the one the store has. */
  lemma SnapshotTimelyIff(events: seq<Event>, domains: seq<string>, head: string, d: string)
    requires d in domains
    ensures var db := Run(Start, events).db;
      UpToDate(db, d, Snapshot(db, domains, head)) <==> d in db.world ==> db.world[d].head == NormalizeHead(head)
  {
    Reachable(events);
    var db := Run(Start, events).db;
    hide Run, Inv;
    CursorHead(0, NormalizeHead(head));
    if d in db.world {
      assert Snapshot(db, domains, head)[d] == CursorText(db.world[d].revision, NormalizeHead(head));
      if UpToDate(db, d, Snapshot(db, domains, head)) {
        CursorTextInjective(db.world[d].revision, NormalizeHead(head), db.world[d].revision, db.world[d].head);
      }
    }
  }

  /** The conflict domain that decides is the first action domain, or the first of all when there is none. */
  lemma {:induction false} ActionDomainIs(domains: seq<string>)
    requires domains != []
    ensures exists i ::
      && 0 <= i < |domains| && ActionDomain(domains) == domains[i]
      && (forall j :: 0 <= j < i ==> !("action:" <= domains[j]))
      && ("action:" <= domains[i] || (i == 0 && forall j :: 0 <= j < |domains| ==> !("action:" <= domains[j])))
  {
    FirstActionIs(domains, domains[0]);
    if forall j :: 0 <= j < |domains| ==> !("action:" <= domains[j]) {
      assert ActionDomain(domains) == domains[0];
    }
  }

  lemma {:induction false} FirstActionIs(domains: seq<string>, default: string)
    ensures (forall j :: 0 <= j < |domains| ==> !("action:" <= domains[j])) ==> FirstAction(domains, default) == default
    ensures (exists j :: 0 <= j < |domains| && "action:" <= domains[j]) ==>
      exists i ::
        && 0 <= i < |domains| && FirstAction(domains, default) == domains[i] && "action:" <= domains[i]
        && forall j :: 0 <= j < i ==> !("action:" <= domains[j])
  {
    if domains != [] && !("action:" <= domains[0]) {
      var rest := domains[1..];
      FirstActionIs(rest, default);
      if j :| 0 <= j < |domains| && "action:" <= domains[j] {
        assert rest[j - 1] == domains[j];
        var i :| 0 <= i < |rest| && FirstAction(rest, default) == rest[i] && "action:" <= rest[i]
          && forall j :: 0 <= j < i ==> !("action:" <= rest[j]);
        assert domains[i + 1] == rest[i];
        forall j | 0 <= j < i + 1 ensures !("action:" <= domains[j]) {
          assert j > 0 ==> domains[j] == rest[j - 1];
        }
      } else {
        forall j | 0 <= j < |rest| ensures !("action:" <= rest[j]) { assert rest[j] == domains[j + 1]; }
      }
    }
  }

  // ---------------------------------------------------------------- the size of a record

  /** The JSON text of a record, with the url first when there is one. */
  function RecordText(r: EffectRecord): string {
    "{" + (if r.url.Some? then "\"url\":" + CanonicalJson.Quote(r.url.value) + "," else "")
    + "\"head\":" + CanonicalJson.Quote(r.head) + "}"
  }

  /** Every character is one UTF-16 code unit. */
  predicate SingleUnits(s: string) { forall i :: 0 <= i < |s| ==> s[i] <= '\U{FFFF}' }

  lemma {:induction false} EscapedIs(s: string)
    requires SingleUnits(s)
    ensures |CanonicalJson.EscapeAll(s)| == EscapedLength(s)
  {
    if s != "" { EscapedIs(s[1..]); }
  }

  /** The length that decides whether a record can be kept is that of its JSON text. */
  lemma RecordLengthIs(r: EffectRecord)
    requires SingleUnits(r.head) && (r.url.Some? ==> SingleUnits(r.url.value))
    ensures RecordLength(r) == |RecordText(r)|
  {
    EscapedIs(r.head);
    if r.url.Some? { EscapedIs(r.url.value); }
    hide CanonicalJson.EscapeAll, EscapedLength;
  }
}
