/** The claim tables and what each transaction on them means, as functions from tables to tables. */
module Claims {
  import opened Text

  datatype Status = Claimed | Unknown | Completed

  datatype EffectRecord = EffectRecord(url: Option<string>, head: string)

  datatype WorldRow = WorldRow(revision: nat, head: string, summary: string)

  datatype ClaimKey = ClaimKey(domain: string, key: string)

  datatype ClaimRow = ClaimRow(runId: string, seenCursor: string, status: Status, result: Option<EffectRecord>)

  datatype HoldRow = HoldRow(domain: string, runId: string, seenCursor: string)

  datatype Db = Db(world: map<string, WorldRow>, claims: map<ClaimKey, ClaimRow>, holds: set<HoldRow>)

  datatype Decision =
    | Proceed
    | Replay(record: EffectRecord)
    | Hold(nextCursor: string, delta: seq<string>)
    | ReevaluationLimit(nextCursor: string, delta: seq<string>)
    | Conflict(ownerRunId: string)
    | EffectStarted

  datatype StoreError =
    | NoDomains
    | InvalidDomain(domain: string)
    | NotClaimed(domain: string)
    | CannotComplete(domain: string)
    | RecordTooLarge
    | UniqueIndexViolated

  datatype Outcome<+T> = Ok(value: T) | Thrown(error: StoreError)

  const DELTA_LIMIT := 8
  const RECORD_LIMIT := 500
  const EmptyDb := Db(map[], map[], {})

  // ---------------------------------------------------------------- domains and records

  predicate DomainChar(c: char) {
    'A' <= c <= 'Z' || 'a' <= c <= 'z' || '0' <= c <= '9' || c in ":._#/@+-"
  }

  predicate ValidDomain(d: string) {
    && 1 <= |d| <= 201
    && ('A' <= d[0] <= 'Z' || 'a' <= d[0] <= 'z' || '0' <= d[0] <= '9')
    && forall i :: 0 <= i < |d| ==> DomainChar(d[i])
  }

  /** The first domain starting with "action:", or else the first domain. */
  function ActionDomain(domains: seq<string>): string
    requires domains != []
  {
    FirstAction(domains, domains[0])
  }

  function FirstAction(domains: seq<string>, default: string): string {
    if domains == [] then default
    else if "action:" <= domains[0] then domains[0]
    else FirstAction(domains[1..], default)
  }

  predicate GithubUrl(url: string) {
    var prefix := "https://github.com/";
    && prefix <= url
    && 1 <= |url| - |prefix| <= 200
    && forall i :: |prefix| <= i < |url| ==> !IsSpace(url[i])
  }

  /** What reading a stored result back yields. */
  function ParseRecord(result: Option<EffectRecord>): EffectRecord {
    match result
    case None => EffectRecord(None, "none")
    case Some(r) =>
      EffectRecord(if r.url.Some? && GithubUrl(r.url.value) then r.url else None, NormalizeHead(r.head))
  }

  function EscapedLength(s: string): nat {
    if s == "" then 0 else
      (if s[0] == '"' || s[0] == '\\' || ('\U{8}' <= s[0] <= '\r' && s[0] != '\U{B}') then 2
       else if s[0] < ' ' then 6
       else if s[0] > '\U{FFFF}' then 2
       else 1) + EscapedLength(s[1..])
  }

  /** The length of `{"url":"...","head":"..."}`, without the url member when there is none. */
  function RecordLength(r: EffectRecord): nat {
    (if r.url.Some? then 9 + EscapedLength(r.url.value) else 0) + 11 + EscapedLength(r.head)
  }

  // ---------------------------------------------------------------- reading the tables

  predicate Active(row: ClaimRow) {
    row.status.Claimed? || row.status.Unknown?
  }

  function ActiveRows(claims: map<ClaimKey, ClaimRow>, d: string): set<ClaimKey> {
    set p | p in claims && p.domain == d && Active(claims[p])
  }

  /** The partial unique index `claims_active`. */
  ghost predicate UniqueActive(claims: map<ClaimKey, ClaimRow>) {
    forall p, q :: p in claims && q in claims && p.domain == q.domain && Active(claims[p]) && Active(claims[q]) ==>
      p == q
  }

  function Revision(db: Db, d: string): nat {
    if d in db.world then db.world[d].revision else 0
  }

  /** The cursor of a domain as compared with a presented one; an absent world row adopts the presented head. */
  function Current(db: Db, d: string, seen: Option<string>): string {
    if d in db.world then CursorText(db.world[d].revision, db.world[d].head)
    else CursorText(0, HeadOf(seen))
  }

  predicate Stale(db: Db, d: string, seen: map<string, string>) {
    Lookup(seen, d) != Some(Current(db, d, Lookup(seen, d)))
  }

  function DeltaLine(db: Db, d: string): string {
    if d in db.world then Bound(d + " " + db.world[d].summary) else Bound(d + " absent")
  }

  /** One line for each stale domain, in the order given. */
  function StaleLines(db: Db, domains: seq<string>, seen: map<string, string>): (r: seq<string>)
    ensures r == [] <==> forall d :: d in domains ==> !Stale(db, d, seen)
  {
    if domains == [] then []
    else
      var rest := StaleLines(db, domains[1..], seen);
      assert forall d :: d in domains <==> d == domains[0] || d in domains[1..];
      if Stale(db, domains[0], seen) then [DeltaLine(db, domains[0])] + rest else rest
  }

  function Snapshot(db: Db, domains: seq<string>, observedHead: string): map<string, string> {
    map d | d in domains :: CursorText(Revision(db, d), NormalizeHead(observedHead))
  }

  /** The run that holds the first domain whose active row has another key. */
  ghost function ForeignOwner(claims: map<ClaimKey, ClaimRow>, domains: seq<string>, key: string): (r: Option<string>)
    ensures r.None? <==> forall d, p :: d in domains && p in ActiveRows(claims, d) ==> p.key == key
  {
    if domains == [] then None
    else if exists p :: p in ActiveRows(claims, domains[0]) && p.key != key then
      var p :| p in ActiveRows(claims, domains[0]) && p.key != key;
      assert domains[0] in domains;
      Some(claims[p].runId)
    else
      assert forall d :: d in domains <==> d == domains[0] || d in domains[1..];
      ForeignOwner(claims, domains[1..], key)
  }

  // ---------------------------------------------------------------- transactions

  function SetOf(domains: seq<string>): (r: set<string>)
    ensures forall d :: d in r <==> d in domains
  {
    set d | d in domains
  }

  /** A row of `key` on one of `domains`. */
  predicate Touches(p: ClaimKey, domains: set<string>, key: string) {
    p.key == key && p.domain in domains
  }

  function RowKeys(domains: set<string>, key: string): (r: set<ClaimKey>)
    ensures forall p :: p in r <==> Touches(p, domains, key)
  {
    var r := set d | d in domains :: ClaimKey(d, key);
    assert forall p :: Touches(p, domains, key) ==> p == ClaimKey(p.domain, key) && p in r;
    r
  }

  /** The upsert over all domains: new rows are inserted, own claimed rows refreshed, other rows left alone. */
  function ClaimRows(
    claims: map<ClaimKey, ClaimRow>, domains: set<string>, key: string, runId: string, seen: map<string, string>
  ): map<ClaimKey, ClaimRow> {
    map p | p in claims.Keys + RowKeys(domains, key) ::
      var cursor := GetOr(Lookup(seen, p.domain), "");
      if p !in claims then ClaimRow(runId, cursor, Claimed, None)
      else if Touches(p, domains, key) && claims[p].status.Claimed? && claims[p].runId == runId then
        claims[p].(seenCursor := cursor)
      else claims[p]
  }

  ghost function Propose(
    db: Db, domains: seq<string>, seen: map<string, string>, runId: string, key: string
  ): (Db, Decision)
    requires domains != []
  {
    var action := ActionDomain(domains);
    var same := Lookup(db.claims, ClaimKey(action, key));
    if same.Some? && same.value.status.Completed? then (db, Replay(ParseRecord(same.value.result)))
    else if same.Some? && same.value.status.Unknown? then (db, EffectStarted)
    else if same.Some? && same.value.status.Claimed? && same.value.runId == runId then (db, Proceed)
    else
      var stale := StaleLines(db, domains, seen);
      if stale != [] then
        var seenCursor := GetOr(Lookup(seen, action), "");
        var next := Current(db, action, Some(seenCursor));
        var delta := if |stale| <= DELTA_LIMIT then stale else stale[..DELTA_LIMIT];
        var hold := HoldRow(action, runId, seenCursor);
        if hold in db.holds then (db, ReevaluationLimit(next, delta))
        else (db.(holds := db.holds + {hold}), Hold(next, delta))
      else
        var owner := ForeignOwner(db.claims, domains, key);
        if owner.Some? then (db, Conflict(owner.value))
        else (db.(claims := ClaimRows(db.claims, SetOf(domains), key, runId, seen)), Proceed)
  }

  predicate Owned(claims: map<ClaimKey, ClaimRow>, d: string, key: string, runId: string, status: Status) {
    var p := ClaimKey(d, key);
    p in claims && claims[p].runId == runId && claims[p].status == status
  }

  predicate BadAt(
    claims: map<ClaimKey, ClaimRow>, domains: seq<string>, i: nat, key: string, runId: string, status: Status
  )
    requires i < |domains|
  {
    domains[i] in domains[..i] || !Owned(claims, domains[i], key, runId, status)
  }

  /** Every row is the caller's in the given status, and no domain is listed twice. */
  predicate AllOwned(
    claims: map<ClaimKey, ClaimRow>, domains: seq<string>, key: string, runId: string, status: Status
  ) {
    forall i :: 0 <= i < |domains| ==> !BadAt(claims, domains, i, key, runId, status)
  }

  /** The domain at which an all-or-nothing status change gives up. */
  ghost predicate FailsAt(
    claims: map<ClaimKey, ClaimRow>, domains: seq<string>, d: string, key: string, runId: string, status: Status
  ) {
    exists i :: 0 <= i < |domains| && d == domains[i] && BadAt(claims, domains, i, key, runId, status)
      && forall j :: 0 <= j < i ==> !BadAt(claims, domains, j, key, runId, status)
  }

  function MarkRows(claims: map<ClaimKey, ClaimRow>, domains: set<string>, key: string): map<ClaimKey, ClaimRow> {
    map p | p in claims :: if Touches(p, domains, key) then claims[p].(status := Unknown) else claims[p]
  }

  function CompleteRows(
    claims: map<ClaimKey, ClaimRow>, domains: set<string>, key: string, record: EffectRecord
  ): map<ClaimKey, ClaimRow> {
    map p | p in claims ::
      if Touches(p, domains, key) then claims[p].(status := Completed, result := Some(record)) else claims[p]
  }

  lemma CompleteRowsUnique(claims: map<ClaimKey, ClaimRow>, domains: set<string>, key: string, record: EffectRecord)
    requires UniqueActive(claims)
    ensures UniqueActive(CompleteRows(claims, domains, key, record))
  {}

  function AdvanceWorld(world: map<string, WorldRow>, domains: set<string>, head: string): map<string, WorldRow> {
    map d | d in world.Keys + domains ::
      if d in domains then WorldRow((if d in world then world[d].revision else 0) + 1, head, "head " + head)
      else world[d]
  }

  function Mark(db: Db, domains: seq<string>, key: string, runId: string): Db {
    if AllOwned(db.claims, domains, key, runId, Claimed) then db.(claims := MarkRows(db.claims, SetOf(domains), key))
    else db
  }

  /** The record as it is stored: the url as given, the head normalised. */
  function Stored(record: EffectRecord): EffectRecord {
    record.(head := NormalizeHead(record.head))
  }

  predicate CanComplete(db: Db, domains: seq<string>, key: string, runId: string, record: EffectRecord) {
    RecordLength(Stored(record)) <= RECORD_LIMIT && AllOwned(db.claims, domains, key, runId, Unknown)
  }

  function Complete(db: Db, domains: seq<string>, key: string, runId: string, record: EffectRecord): Db {
    if CanComplete(db, domains, key, runId, record) then
      db.(claims := CompleteRows(db.claims, SetOf(domains), key, Stored(record)),
          world := AdvanceWorld(db.world, SetOf(domains), NormalizeHead(record.head)))
    else db
  }

  function Abort(db: Db, domains: seq<string>, key: string, runId: string): Db {
    db.(claims := map p | p in db.claims &&
      !(Touches(p, SetOf(domains), key) && db.claims[p].runId == runId && db.claims[p].status.Claimed?) :: db.claims[p])
  }
}
