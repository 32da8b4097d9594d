/** The rows the ingest path reads and writes, and the two forms of the
    correlation query: the ORM select of the slow path and the fused
    data-modifying statement of the fast path. */
module Tables {
  import opened Wrappers

  type EventId = nat
  type CaseId = nat
  type Time = int // microseconds; durations are given in seconds

  const SECOND: int := 1_000_000

  function WindowStart(now: Time, seconds: int): Time { now - seconds * SECOND }

  /** A jsonb value, as far as the correlation-window override looks at it.
      A number carries the text PostgreSQL prints for it. */
  datatype Json = JNull | JBool(b: bool) | JNumber(text: string) | JString(text: string) | JOther

  type Config = map<string, Json>

  datatype PlatformRow = PlatformRow(status: string, config: Config)
  datatype Case = Case(platform: string, status: string, trigger: EventId)
  datatype Disposition = Opened | Merged | Rejected
  datatype EventRow = EventRow(platform: string, fingerprint: string, disposition: Disposition,
                               caseId: Option<CaseId>, receivedAt: Time)
  datatype AuditAction = EventReceived | EventMerged | EventRejected
  datatype AuditRow = AuditRow(action: AuditAction, event: EventId, caseId: Option<CaseId>)

  /** Committed tables. Audit rows have no order of their own here. */
  datatype Db = Db(platforms: map<string, PlatformRow>, events: map<EventId, EventRow>,
                   cases: map<CaseId, Case>, audit: multiset<AuditRow>)

  /** An alert as `normalize_payload` leaves it. */
  datatype Event = Event(id: EventId, platform: string, fingerprint: string)

  const NON_TERMINAL: set<string> :=
    {"RECEIVED", "OPEN", "INVESTIGATING", "AWAITING_APPROVAL", "EXECUTING", "VERIFYING"}

  // ----- integer texts -----

  predicate IsDigit(c: char) { '0' <= c <= '9' }

  predicate AllDigits(s: string) { forall i | 0 <= i < |s| :: IsDigit(s[i]) }

  function DigitsValue(s: string): nat
    requires AllDigits(s)
  {
    if s == [] then 0
    else DigitsValue(s[..|s| - 1]) * 10 + (s[|s| - 1] - '0') as nat
  }

  /** `^-?[0-9]+$` */
  predicate IsIntegerText(s: string) {
    if s != [] && s[0] == '-' then |s| > 1 && AllDigits(s[1..]) else s != [] && AllDigits(s)
  }

  function IntegerValue(s: string): int
    requires IsIntegerText(s)
  {
    if s[0] == '-' then -(DigitsValue(s[1..]) as int) else DigitsValue(s)
  }

  function Pow10(n: nat): nat { if n == 0 then 1 else 10 * Pow10(n - 1) }

  lemma {:induction false} DigitsValueBound(s: string)
    requires AllDigits(s)
    ensures DigitsValue(s) < Pow10(|s|)
  {
    if s == [] {
    } else {
      DigitsValueBound(s[..|s| - 1]);
    }
  }

  lemma {:induction false} Pow10Monotone(m: nat, n: nat)
    requires m <= n
    ensures Pow10(m) <= Pow10(n)
  {
    if m < n { Pow10Monotone(m, n - 1); }
  }

  // ----- the window the fused statement computes (SQL) -----

  const INT32_MIN: int := -2147483648
  const INT32_MAX: int := 2147483647
  const INT64_MAX: int := 9223372036854775807
  const MAX_WINDOW_OCTETS := 11

  /** Both guards of the SQL `CASE`, in front of the `::bigint` cast. An integer
      text is ASCII, so its octets are its characters. */
  predicate CastGuard(j: Json) {
    (j.JNumber? || j.JString?) && IsIntegerText(j.text) && |j.text| <= MAX_WINDOW_OCTETS
  }

  function SqlInteger(j: Json): Option<int> {
    if CastGuard(j) then
      var v := IntegerValue(j.text);
      if INT32_MIN <= v <= INT32_MAX then Some(v) else None
    else None
  }

  function SqlWindow(config: Config, default: int): Option<int> {
    if "correlation_window_seconds" in config then SqlInteger(config["correlation_window_seconds"])
    else if "correlation_window" in config then SqlInteger(config["correlation_window"])
    else Some(default)
  }

  /** The cast behind the guards never leaves bigint, on any jsonb value. */
  lemma BigintCastNeverOverflows(j: Json)
    requires CastGuard(j)
    ensures -INT64_MAX <= IntegerValue(j.text) <= INT64_MAX
    ensures -(Pow10(MAX_WINDOW_OCTETS) as int) < IntegerValue(j.text) < Pow10(MAX_WINDOW_OCTETS)
  {
    var digits := if j.text[0] == '-' then j.text[1..] else j.text;
    DigitsValueBound(digits);
    Pow10Monotone(|digits|, MAX_WINDOW_OCTETS);
    assert Pow10(MAX_WINDOW_OCTETS) == 100_000_000_000 by {
      assert Pow10(5) == 100_000;
      assert Pow10(11) == 1_000_000 * Pow10(5);
    }
  }

  // ----- the window the slow path computes (Python `int`) -----

  predicate IsSpace(c: char) { c in {' ', '\t', '\n', '\r'} }

  function StripLeft(s: string): string {
    if s != [] && IsSpace(s[0]) then StripLeft(s[1..]) else s
  }

  function StripRight(s: string): string {
    if s != [] && IsSpace(s[|s| - 1]) then StripRight(s[..|s| - 1]) else s
  }

  /** Digits with single underscores between them. */
  predicate GroupedDigits(s: string) {
    && s != [] && IsDigit(s[0]) && IsDigit(s[|s| - 1])
    && (forall i | 0 <= i < |s| :: IsDigit(s[i]) || (s[i] == '_' && IsDigit(s[i - 1])))
  }

  function Ungrouped(s: string): (r: string)
    requires forall i | 0 <= i < |s| :: IsDigit(s[i]) || s[i] == '_'
    ensures AllDigits(r)
  {
    if s == [] then []
    else if s[0] == '_' then Ungrouped(s[1..]) else [s[0]] + Ungrouped(s[1..])
  }

  function PyIntOfText(text: string): Option<int> {
    var t := StripRight(StripLeft(text));
    var signed := t != [] && (t[0] == '-' || t[0] == '+');
    var body := if signed then t[1..] else t;
    if !GroupedDigits(body) then None
    else
      var v := DigitsValue(Ungrouped(body));
      Some(if signed && t[0] == '-' then -(v as int) else v)
  }

  function BeforePoint(s: string): string {
    if s == [] || s[0] == '.' then [] else [s[0]] + BeforePoint(s[1..])
  }

  /** `int(v)` of a decoded jsonb value; None is a raised TypeError or ValueError. */
  function PyInt(j: Json): Option<int> {
    match j
    case JNull | JOther => None
    case JBool(b) => Some(if b then 1 else 0)
    case JNumber(text) => var t := BeforePoint(text); if IsIntegerText(t) then Some(IntegerValue(t)) else None
    case JString(text) => PyIntOfText(text)
  }

  function SlowWindow(config: Config, default: int): Option<int> {
    if "correlation_window_seconds" in config then PyInt(config["correlation_window_seconds"])
    else if "correlation_window" in config then PyInt(config["correlation_window"])
    else Some(default)
  }

  lemma {:induction false} UngroupedDigits(s: string)
    requires AllDigits(s)
    ensures Ungrouped(s) == s
  {
    if s == [] {
    } else {
      UngroupedDigits(s[1..]);
    }
  }

  lemma {:induction false} NoPoint(s: string)
    requires '.' !in s
    ensures BeforePoint(s) == s
  {
    if s == [] {
    } else {
      NoPoint(s[1..]);
    }
  }

  lemma PyIntOfIntegerText(j: Json)
    requires (j.JNumber? || j.JString?) && IsIntegerText(j.text)
    ensures PyInt(j) == Some(IntegerValue(j.text))
  {
    var t := j.text;
    IntegerTextChars(t);
    NoPoint(t);
    UngroupedDigits(if t[0] == '-' then t[1..] else t);
  }

  lemma IntegerTextChars(t: string)
    requires IsIntegerText(t)
    ensures forall i | 0 <= i < |t| :: t[i] == '-' || IsDigit(t[i])
    ensures StripRight(StripLeft(t)) == t && GroupedDigits(if t[0] == '-' then t[1..] else t)
  {
    var body := if t[0] == '-' then t[1..] else t;
    forall i | 0 <= i < |t| ensures t[i] == '-' || IsDigit(t[i]) {
      if t[0] == '-' && i > 0 { assert t[i] == body[i - 1]; }
    }
    assert !IsSpace(t[0]) && !IsSpace(t[|t| - 1]);
  }

  /** Whatever window the fused statement accepts is the window the slow path computes. */
  lemma SqlWindowAgreesWithSlowWindow(config: Config, default: int)
    ensures SqlWindow(config, default).Some? ==> SlowWindow(config, default) == SqlWindow(config, default)
  {
    if "correlation_window_seconds" in config {
      if CastGuard(config["correlation_window_seconds"]) {
        PyIntOfIntegerText(config["correlation_window_seconds"]);
      }
    } else if "correlation_window" in config {
      if CastGuard(config["correlation_window"]) {
        PyIntOfIntegerText(config["correlation_window"]);
      }
    }
  }

  // ----- platform readiness -----

  function Lower(s: string): string {
    seq(|s|, i requires 0 <= i < |s| => if 'A' <= s[i] <= 'Z' then s[i] - 'A' + 'a' else s[i])
  }

  predicate Online(p: PlatformRow) { Lower(p.status) == "online" }

  // ----- the correlation select (ORM form) -----

  predicate Eligible(db: Db, platform: string, fingerprint: string, start: Time, id: EventId) {
    && id in db.events
    && var row := db.events[id];
    && row.fingerprint == fingerprint && row.platform == platform
    && row.caseId.Some? && row.receivedAt >= start
    && row.caseId.value in db.cases && db.cases[row.caseId.value].status in NON_TERMINAL
  }

  /** `ORDER BY received_at DESC LIMIT 1`: ties may go either way. */
  ghost predicate Newest(db: Db, platform: string, fingerprint: string, start: Time, id: EventId) {
    && Eligible(db, platform, fingerprint, start, id)
    && forall other | Eligible(db, platform, fingerprint, start, other) ::
         db.events[other].receivedAt <= db.events[id].receivedAt
  }

  /** `result` is an answer `find_open_by_fingerprint` may give on this snapshot. */
  ghost predicate FindOpen(db: Db, platform: string, fingerprint: string, window: int, now: Time,
                           result: Option<CaseId>)
  {
    var start := WindowStart(now, window);
    match result
    case None => forall id :: !Eligible(db, platform, fingerprint, start, id)
    case Some(c) => exists id :: Newest(db, platform, fingerprint, start, id) && db.events[id].caseId == Some(c)
  }

  // ----- the fused statement -----

  datatype MergeResult = Hit(caseId: CaseId) | Miss

  /** Rows of the `platform` CTE joined with alert_events and investigations. */
  ghost predicate Joined(db: Db, e: Event, now: Time, default: int, id: EventId) {
    && e.platform in db.platforms
    && var p := db.platforms[e.platform];
    && Lower(p.status) == "online"
    && var w := SqlWindow(p.config, default);
    && w.Some?
    && id in db.events
    && db.events[id].platform == e.platform
    && db.events[id].fingerprint == e.fingerprint
    && db.events[id].caseId.Some?
    && db.events[id].receivedAt >= WindowStart(now, w.value)
    && db.events[id].caseId.value in db.cases
    && db.cases[db.events[id].caseId.value].status in NON_TERMINAL
  }

  /** `result` is an answer the fused statement may give on this snapshot. */
  ghost predicate Fused(db: Db, e: Event, now: Time, default: int, result: MergeResult) {
    match result
    case Miss => forall id :: !Joined(db, e, now, default, id)
    case Hit(c) =>
      exists id :: Joined(db, e, now, default, id) && db.events[id].caseId == Some(c)
                   && forall other | Joined(db, e, now, default, other) ::
                        db.events[other].receivedAt <= db.events[id].receivedAt
  }

  /** The rows a hit inserts: one merged event and its audit row. */
  function MergedRow(e: Event, c: CaseId, at: Time): EventRow {
    EventRow(e.platform, e.fingerprint, Merged, Some(c), at)
  }

  function InsertMerged(db: Db, e: Event, c: CaseId, at: Time): Db {
    db.(events := db.events[e.id := MergedRow(e, c, at)],
        audit := db.audit + multiset{AuditRow(EventMerged, e.id, Some(c))})
  }

  /** What the statement leaves behind: a miss writes nothing. */
  function AfterFused(db: Db, e: Event, at: Time, result: MergeResult): Db {
    if result.Hit? then InsertMerged(db, e, result.caseId, at) else db
  }

  /** A hit means the slow path, on the same snapshot, would find the platform
      online, compute the same window and merge into that very case, and could
      not open. */
  lemma HitRefinesSlowPath(db: Db, e: Event, now: Time, default: int, c: CaseId)
    requires Fused(db, e, now, default, Hit(c))
    ensures e.platform in db.platforms && Online(db.platforms[e.platform])
    ensures var w := SlowWindow(db.platforms[e.platform].config, default);
            && w.Some? && w == SqlWindow(db.platforms[e.platform].config, default)
            && FindOpen(db, e.platform, e.fingerprint, w.value, now, Some(c))
            && !FindOpen(db, e.platform, e.fingerprint, w.value, now, None)
  {
    var id :| Joined(db, e, now, default, id) && db.events[id].caseId == Some(c)
              && forall other | Joined(db, e, now, default, other) ::
                   db.events[other].receivedAt <= db.events[id].receivedAt;
    var p := db.platforms[e.platform];
    SqlWindowAgreesWithSlowWindow(p.config, default);
    var start := WindowStart(now, SqlWindow(p.config, default).value);
    forall other | Eligible(db, e.platform, e.fingerprint, start, other)
      ensures db.events[other].receivedAt <= db.events[id].receivedAt
    {
      assert Joined(db, e, now, default, other);
    }
    assert Newest(db, e.platform, e.fingerprint, start, id);
    assert Eligible(db, e.platform, e.fingerprint, start, id);
  }

  /** A miss, exactly: the platform is unknown or not online, its override is not
      one the statement accepts, or the slow re-read would find nothing either. */
  lemma MissExactly(db: Db, e: Event, now: Time, default: int)
    ensures Fused(db, e, now, default, Miss) <==>
            || e.platform !in db.platforms
            || !Online(db.platforms[e.platform])
            || SqlWindow(db.platforms[e.platform].config, default).None?
            || FindOpen(db, e.platform, e.fingerprint,
                        SqlWindow(db.platforms[e.platform].config, default).value, now, None)
  {
    if e.platform in db.platforms {
      var p := db.platforms[e.platform];
      SqlWindowAgreesWithSlowWindow(p.config, default);
      if Online(p) && SqlWindow(p.config, default).Some? {
        var start := WindowStart(now, SqlWindow(p.config, default).value);
        assert forall id :: Joined(db, e, now, default, id)
                            <==> Eligible(db, e.platform, e.fingerprint, start, id);
      }
    }
  }

  /** Without equal timestamps among eligible events, both paths answer the same case. */
  lemma SameCaseWithoutTies(db: Db, e: Event, now: Time, default: int, c: CaseId, d: Option<CaseId>)
    requires Fused(db, e, now, default, Hit(c))
    requires var w := SlowWindow(db.platforms[e.platform].config, default);
             w.Some? && FindOpen(db, e.platform, e.fingerprint, w.value, now, d)
    requires forall i, j | i in db.events && j in db.events && i != j ::
               db.events[i].receivedAt != db.events[j].receivedAt
    ensures d == Some(c)
  {
    HitRefinesSlowPath(db, e, now, default, c);
    var start := WindowStart(now, SlowWindow(db.platforms[e.platform].config, default).value);
    var i :| Newest(db, e.platform, e.fingerprint, start, i) && db.events[i].caseId == Some(c);
    var j :| Newest(db, e.platform, e.fingerprint, start, j) && db.events[j].caseId == d;
    assert db.events[i].receivedAt == db.events[j].receivedAt;
  }

  /** Every non-empty set of events has a newest one. */
  lemma {:induction false} NewestExists(events: map<EventId, EventRow>, ids: set<EventId>) returns (top: EventId)
    requires ids != {} && ids <= events.Keys
    ensures top in ids && forall id | id in ids :: events[id].receivedAt <= events[top].receivedAt
    decreases ids
  {
    var one :| one in ids;
    top := one;
    var rest := ids - {one};
    assert forall id | id in ids :: id == one || id in rest;
    if rest != {} {
      var best := NewestExists(events, rest);
      if events[one].receivedAt < events[best].receivedAt { top := best; }
    }
  }

  /** The fused statement always has an answer. */
  lemma FusedIsTotal(db: Db, e: Event, now: Time, default: int) returns (result: MergeResult)
    ensures Fused(db, e, now, default, result)
  {
    var ids := set id | id in db.events && Joined(db, e, now, default, id);
    if ids == {} {
      assert forall id :: Joined(db, e, now, default, id) ==> id in ids;
      return Miss;
    }
    var top := NewestExists(db.events, ids);
    result := Hit(db.events[top].caseId.value);
    forall other | Joined(db, e, now, default, other)
      ensures db.events[other].receivedAt <= db.events[top].receivedAt
    {
      assert other in ids;
    }
  }
}
