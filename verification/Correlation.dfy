/** Case correlation under concurrency: any number of gateway workers run group
    merges and individual ingest transactions against one database, while case
    statuses and platform rows change underneath. A transaction's reads see
    committed rows plus its own (READ COMMITTED); its writes appear at commit;
    a transaction-scoped advisory lock is held until commit or rollback. */
module Correlation {
  import opened Wrappers
  import opened Tables

  type TxnId = nat

  /** An ingest transaction between two of its database round trips. */
  datatype Txn =
    | Started(event: Event)
    | Rejecting(event: Event)
    | AwaitingLock(event: Event, window: int)
    | Locked(event: Event, window: int)
    | Decided(event: Event, window: int, snap: Db, readAt: Time, found: Option<CaseId>)
    | Group(rows: map<EventId, EventRow>, audit: multiset<AuditRow>)

  /** A committed opening, with the snapshot its deciding re-read saw. */
  datatype Opening = Opening(event: Event, caseId: CaseId, snap: Db, readAt: Time, window: int)

  datatype State = State(db: Db, txns: map<TxnId, Txn>, locks: map<int, TxnId>, openings: seq<Opening>)

  datatype Action =
    | Begin(t: TxnId, event: Event)
    | ReadPlatform(t: TxnId)
    | AcquireLock(t: TxnId)
    | DecidingRead(t: TxnId, now: Time, found: Option<CaseId>)
    | CommitReject(t: TxnId, now: Time)
    | CommitMerge(t: TxnId, now: Time)
    | CommitOpen(t: TxnId, now: Time, caseId: CaseId)
    | BeginGroup(t: TxnId)
    | GroupStatement(t: TxnId, event: Event, now: Time, result: MergeResult)
    | CommitGroup(t: TxnId)
    | Abort(t: TxnId)
    | SetStatus(caseId: CaseId, status: string)
    | SetPlatform(key: string, row: PlatformRow)

  /** Configuration: the default window and the digest behind the lock key. */
  datatype Params = Params(default: int, digest: string -> int)

  function LockKey(p: Params, e: Event): int {
    p.digest(e.platform + [0 as char] + e.fingerprint)
  }

  predicate HoldsLock(txn: Txn) { txn.Locked? || txn.Decided? }

  function Visible(s: State, g: Txn): Db
    requires g.Group?
  {
    s.db.(events := s.db.events + g.rows, audit := s.db.audit + g.audit)
  }

  /** The primary key on event_id: not committed, and held by no other open transaction. */
  ghost predicate KeyFree(s: State, t: TxnId, id: EventId) {
    && id !in s.db.events
    && forall u | u in s.txns && u != t && s.txns[u].Group? :: id !in s.txns[u].rows
  }

  ghost predicate Enabled(p: Params, s: State, a: Action) {
    match a
    case Begin(t, event) => t !in s.txns
    case ReadPlatform(t) => t in s.txns && s.txns[t].Started?
    case AcquireLock(t) => t in s.txns && s.txns[t].AwaitingLock? && LockKey(p, s.txns[t].event) !in s.locks
    case DecidingRead(t, now, found) =>
      && t in s.txns && s.txns[t].Locked?
      && var x := s.txns[t];
      FindOpen(s.db, x.event.platform, x.event.fingerprint, x.window, now, found)
    case CommitReject(t, now) => t in s.txns && s.txns[t].Rejecting? && KeyFree(s, t, s.txns[t].event.id)
    case CommitMerge(t, now) =>
      t in s.txns && s.txns[t].Decided? && s.txns[t].found.Some? && KeyFree(s, t, s.txns[t].event.id)
    case CommitOpen(t, now, caseId) =>
      && t in s.txns && s.txns[t].Decided? && s.txns[t].found.None? && KeyFree(s, t, s.txns[t].event.id)
      && caseId !in s.db.cases // a fresh uuid4
    case BeginGroup(t) => t !in s.txns
    case GroupStatement(t, event, now, result) =>
      && t in s.txns && s.txns[t].Group?
      && Fused(Visible(s, s.txns[t]), event, now, p.default, result)
      && (result.Hit? ==> KeyFree(s, t, event.id) && event.id !in s.txns[t].rows)
    case CommitGroup(t) => t in s.txns && s.txns[t].Group?
    case Abort(t) => t in s.txns
    case SetStatus(caseId, status) => caseId in s.db.cases
    case SetPlatform(key, row) => true
  }

  function Insert(db: Db, id: EventId, row: EventRow): Db {
    db.(events := db.events[id := row], audit := db.audit + multiset{AuditFor(id, row)})
  }

  /** The audit row each disposition is written with. */
  function AuditFor(id: EventId, row: EventRow): AuditRow {
    AuditRow(match row.disposition case Opened => EventReceived case Merged => EventMerged case Rejected => EventRejected,
             id, row.caseId)
  }

  /** Commit or rollback: the transaction is gone and so is its lock. */
  function End(s: State, t: TxnId): State {
    s.(txns := s.txns - {t}, locks := map k | k in s.locks && s.locks[k] != t :: s.locks[k])
  }

  function AfterReadPlatform(p: Params, s: State, t: TxnId): State
    requires t in s.txns && s.txns[t].Started?
  {
    var e := s.txns[t].event;
    if e.platform !in s.db.platforms || !Online(s.db.platforms[e.platform]) then s.(txns := s.txns[t := Rejecting(e)])
    else
      match SlowWindow(s.db.platforms[e.platform].config, p.default)
      case None => End(s, t) // int() raised
      case Some(w) => s.(txns := s.txns[t := AwaitingLock(e, w)])
  }

  function Next(p: Params, s: State, a: Action): State
    requires Enabled(p, s, a)
  {
    match a
    case Begin(t, event) => s.(txns := s.txns[t := Started(event)])
    case ReadPlatform(t) => AfterReadPlatform(p, s, t)
    case AcquireLock(t) =>
      var x := s.txns[t];
      s.(txns := s.txns[t := Locked(x.event, x.window)], locks := s.locks[LockKey(p, x.event) := t])
    case DecidingRead(t, now, found) =>
      s.(txns := s.txns[t := Decided(s.txns[t].event, s.txns[t].window, s.db, now, found)])
    case CommitReject(t, now) =>
      var e := s.txns[t].event;
      End(s.(db := Insert(s.db, e.id, EventRow(e.platform, e.fingerprint, Rejected, None, now))), t)
    case CommitMerge(t, now) =>
      var e := s.txns[t].event;
      End(s.(db := Insert(s.db, e.id, EventRow(e.platform, e.fingerprint, Merged, s.txns[t].found, now))), t)
    case CommitOpen(t, now, caseId) =>
      var x := s.txns[t];
      var row := EventRow(x.event.platform, x.event.fingerprint, Opened, Some(caseId), now);
      var db := Insert(s.db, x.event.id, row);
      var db' := db.(cases := db.cases[caseId := Case(x.event.platform, "RECEIVED", x.event.id)]);
      End(s.(db := db', openings := s.openings + [Opening(x.event, caseId, x.snap, x.readAt, x.window)]), t)
    case BeginGroup(t) => s.(txns := s.txns[t := Group(map[], multiset{})])
    case GroupStatement(t, event, now, result) =>
      if result.Miss? then s
      else
        var g := s.txns[t];
        var row := MergedRow(event, result.caseId, now);
        s.(txns := s.txns[t := Group(g.rows[event.id := row], g.audit + multiset{AuditFor(event.id, row)})])
    case CommitGroup(t) => End(s.(db := Visible(s, s.txns[t])), t)
    case Abort(t) => End(s, t)
    case SetStatus(caseId, status) =>
      s.(db := s.db.(cases := s.db.cases[caseId := s.db.cases[caseId].(status := status)]))
    case SetPlatform(key, row) => s.(db := s.db.(platforms := s.db.platforms[key := row]))
  }

  /** A run: `states[0]` is the start and every step is one enabled action. */
  ghost predicate IsRun(p: Params, states: seq<State>, actions: seq<Action>) {
    && |states| == |actions| + 1
    && forall i | 0 <= i < |actions| ::
         Enabled(p, states[i], actions[i]) && states[i + 1] == Next(p, states[i], actions[i])
  }

  // ----- what a start state must satisfy -----

  /** Event rows and audit rows match one to one by event id, and each audit row
      is the one its event's disposition calls for. */
  ghost predicate Ledger(events: map<EventId, EventRow>, audit: multiset<AuditRow>) {
    forall a: AuditRow :: audit[a] == if a.event in events && a == AuditFor(a.event, events[a.event]) then 1 else 0
  }

  /** Rejected events name no case; the others name a case that exists. */
  ghost predicate RowsSound(events: map<EventId, EventRow>, cases: map<CaseId, Case>) {
    forall id | id in events ::
      var row := events[id];
      if row.disposition == Rejected then row.caseId.None? else row.caseId.Some? && row.caseId.value in cases
  }

  ghost predicate OpenedOnce(events: map<EventId, EventRow>) {
    forall i, j | i in events && j in events && events[i].disposition == Opened && events[j].disposition == Opened
                  && events[i].caseId == events[j].caseId :: i == j
  }

  ghost predicate Sound(db: Db) {
    Ledger(db.events, db.audit) && RowsSound(db.events, db.cases) && OpenedOnce(db.events)
  }

  ghost predicate Init(s: State) {
    Sound(s.db) && s.txns == map[] && s.locks == map[] && s.openings == []
  }

  // ----- invariants -----

  predicate SameSlot(a: Event, b: Event) { a.platform == b.platform && a.fingerprint == b.fingerprint }

  /** A lock is held by the one transaction past its acquisition, and by no other. */
  ghost predicate LocksSound(p: Params, s: State) {
    && (forall t | t in s.txns && HoldsLock(s.txns[t]) ::
          LockKey(p, s.txns[t].event) in s.locks && s.locks[LockKey(p, s.txns[t].event)] == t)
    && (forall k | k in s.locks ::
          s.locks[k] in s.txns && HoldsLock(s.txns[s.locks[k]]) && LockKey(p, s.txns[s.locks[k]].event) == k)
  }

  /** The opening's case and its opened event are in these tables. */
  predicate OpenedIn(db: Db, o: Opening) {
    && o.caseId in db.cases
    && o.event.id in db.events
    && var row := db.events[o.event.id];
    row.platform == o.event.platform && row.fingerprint == o.event.fingerprint
    && row.disposition == Opened && row.caseId == Some(o.caseId)
  }

  /** The deciding re-read's answer, on the snapshot it was given. */
  ghost predicate ReadFound(e: Event, window: int, snap: Db, readAt: Time, found: Option<CaseId>) {
    FindOpen(snap, e.platform, e.fingerprint, window, readAt, found)
  }

  /** A decided transaction has seen every opening of its slot. */
  ghost predicate DecisionsSound(s: State) {
    forall t | t in s.txns && s.txns[t].Decided? ::
      var x := s.txns[t];
      && ReadFound(x.event, x.window, x.snap, x.readAt, x.found)
      && (x.found.Some? ==> x.found.value in s.db.cases)
      && forall i | 0 <= i < |s.openings| && SameSlot(s.openings[i].event, x.event) :: OpenedIn(x.snap, s.openings[i])
  }

  ghost predicate OpeningsSound(s: State) {
    && (forall i | 0 <= i < |s.openings| ::
          && OpenedIn(s.db, s.openings[i])
          && var o := s.openings[i]; ReadFound(o.event, o.window, o.snap, o.readAt, None))
    && (forall i, j | 0 <= i < j < |s.openings| && SameSlot(s.openings[i].event, s.openings[j].event) ::
          OpenedIn(s.openings[j].snap, s.openings[i]))
  }

  /** Uncommitted group rows: merged rows of existing cases under free keys. */
  ghost predicate GroupsSound(s: State) {
    && (forall t | t in s.txns && s.txns[t].Group? ::
          && Ledger(s.txns[t].rows, s.txns[t].audit)
          && s.txns[t].rows.Keys !! s.db.events.Keys
          && RowsSound(s.txns[t].rows, s.db.cases)
          && forall id | id in s.txns[t].rows :: s.txns[t].rows[id].disposition == Merged)
    && GroupsApart(s)
  }

  /** No two open groups hold a row under one key. */
  ghost predicate GroupsApart(s: State) {
    forall t, u | t in s.txns && u in s.txns && t != u && s.txns[t].Group? && s.txns[u].Group? ::
      s.txns[t].rows.Keys !! s.txns[u].rows.Keys
  }

  ghost predicate Inv(p: Params, s: State) {
    LocksSound(p, s) && DecisionsSound(s) && OpeningsSound(s) && GroupsSound(s) && Sound(s.db)
  }

  // ----- ledger bookkeeping -----

  lemma LedgerUnion(e1: map<EventId, EventRow>, a1: multiset<AuditRow>, e2: map<EventId, EventRow>,
                    a2: multiset<AuditRow>)
    requires Ledger(e1, a1) && Ledger(e2, a2) && e1.Keys !! e2.Keys
    ensures Ledger(e1 + e2, a1 + a2)
  {
    forall a: AuditRow
      ensures (a1 + a2)[a]
           == if a.event in e1 + e2 && a == AuditFor(a.event, (e1 + e2)[a.event]) then 1 else 0
    {
      assert (a1 + a2)[a] == a1[a] + a2[a];
    }
  }

  lemma LedgerInsert(events: map<EventId, EventRow>, audit: multiset<AuditRow>, id: EventId, row: EventRow)
    requires Ledger(events, audit) && id !in events
    ensures Ledger(events[id := row], audit + multiset{AuditFor(id, row)})
  {
    LedgerUnion(events, audit, map[id := row], multiset{AuditFor(id, row)});
    assert events + map[id := row] == events[id := row];
  }

  // ----- each step keeps the invariant -----

  /** Ending a transaction keeps everything that was about the others. */
  lemma EndKeepsInv(p: Params, s: State, t: TxnId)
    requires Inv(p, s) && t in s.txns
    ensures Inv(p, End(s, t))
  {
    var r := End(s, t);
    assert forall k | k in r.locks :: r.locks[k] == s.locks[k] && s.locks[k] != t;
    assert forall u | u in r.txns :: u in s.txns && r.txns[u] == s.txns[u] && u != t;
  }

  /** A committed row of the slow path, before its transaction ends. */
  lemma InsertKeepsInv(p: Params, s: State, t: TxnId, id: EventId, row: EventRow)
    requires Inv(p, s) && t in s.txns && !s.txns[t].Group? && KeyFree(s, t, id)
    requires row.disposition != Opened
    requires if row.disposition == Rejected then row.caseId.None? else row.caseId.Some? && row.caseId.value in s.db.cases
    ensures Inv(p, s.(db := Insert(s.db, id, row)))
  {
    LedgerInsert(s.db.events, s.db.audit, id, row);
    var r := s.(db := Insert(s.db, id, row));
    assert r.txns == s.txns && r.locks == s.locks && r.openings == s.openings;
    assert OpeningsSound(r) by {
      forall i | 0 <= i < |r.openings| ensures OpenedIn(r.db, r.openings[i]) { assert OpenedIn(s.db, s.openings[i]); }
    }
  }

  /** The committed opening: the lock keeps every other decision of the slot out. */
  lemma OpenKeepsInv(p: Params, s: State, t: TxnId, now: Time, caseId: CaseId)
    requires Inv(p, s) && Enabled(p, s, CommitOpen(t, now, caseId))
    ensures Inv(p, Next(p, s, CommitOpen(t, now, caseId)))
  {
    OpenKeepsLocks(p, s, t, now, caseId);
    OpenKeepsDecisions(p, s, t, now, caseId);
    OpenKeepsOpenings(p, s, t, now, caseId);
    OpenKeepsTables(p, s, t, now, caseId);
  }

  lemma OpenKeepsLocks(p: Params, s: State, t: TxnId, now: Time, caseId: CaseId)
    requires LocksSound(p, s) && Enabled(p, s, CommitOpen(t, now, caseId))
    ensures LocksSound(p, Next(p, s, CommitOpen(t, now, caseId)))
  {
    var r := Next(p, s, CommitOpen(t, now, caseId));
    assert forall k | k in r.locks :: r.locks[k] == s.locks[k] && s.locks[k] != t;
  }

  lemma OpenKeepsDecisions(p: Params, s: State, t: TxnId, now: Time, caseId: CaseId)
    requires LocksSound(p, s) && DecisionsSound(s) && Enabled(p, s, CommitOpen(t, now, caseId))
    ensures DecisionsSound(Next(p, s, CommitOpen(t, now, caseId)))
  {
    var r, x := Next(p, s, CommitOpen(t, now, caseId)), s.txns[t];
    assert r.openings == s.openings + [Opening(x.event, caseId, x.snap, x.readAt, x.window)];
    forall u | u in r.txns && r.txns[u].Decided?
      ensures forall i | 0 <= i < |r.openings| && SameSlot(r.openings[i].event, r.txns[u].event) ::
                OpenedIn(r.txns[u].snap, r.openings[i])
    {
      assert LockKey(p, x.event) != LockKey(p, s.txns[u].event);
    }
  }

  lemma OpenKeepsOpenings(p: Params, s: State, t: TxnId, now: Time, caseId: CaseId)
    requires DecisionsSound(s) && OpeningsSound(s) && Enabled(p, s, CommitOpen(t, now, caseId))
    ensures OpeningsSound(Next(p, s, CommitOpen(t, now, caseId)))
  {
    var r, x := Next(p, s, CommitOpen(t, now, caseId)), s.txns[t];
    assert r.openings == s.openings + [Opening(x.event, caseId, x.snap, x.readAt, x.window)];
    forall i | 0 <= i < |r.openings| ensures OpenedIn(r.db, r.openings[i]) {
      if i < |s.openings| { assert OpenedIn(s.db, s.openings[i]); }
    }
  }

  lemma OpenKeepsTables(p: Params, s: State, t: TxnId, now: Time, caseId: CaseId)
    requires GroupsSound(s) && Sound(s.db) && Enabled(p, s, CommitOpen(t, now, caseId))
    ensures var r := Next(p, s, CommitOpen(t, now, caseId)); GroupsSound(r) && Sound(r.db)
  {
    var x := s.txns[t];
    LedgerInsert(s.db.events, s.db.audit, x.event.id,
                 EventRow(x.event.platform, x.event.fingerprint, Opened, Some(caseId), now));
    assert forall i | i in s.db.events && s.db.events[i].disposition == Opened :: s.db.events[i].caseId != Some(caseId);
  }

  /** Replacing one transaction by one without a lock or rows. */
  lemma SetTxnKeepsInv(p: Params, s: State, t: TxnId, x: Txn)
    requires Inv(p, s) && !HoldsLock(x)
    requires x.Group? ==> x == Group(map[], multiset{})
    requires t in s.txns ==> !HoldsLock(s.txns[t])
    ensures Inv(p, s.(txns := s.txns[t := x]))
  {
    var r := s.(txns := s.txns[t := x]);
    assert forall u | u in r.txns && u != t :: r.txns[u] == s.txns[u];
    assert LocksSound(p, r);
    assert DecisionsSound(r);
    assert GroupsSound(r);
  }

  lemma AcquireLockKeepsInv(p: Params, s: State, t: TxnId)
    requires Inv(p, s) && Enabled(p, s, AcquireLock(t))
    ensures Inv(p, Next(p, s, AcquireLock(t)))
  {
    var r := Next(p, s, AcquireLock(t));
    assert forall u | u in r.txns && u != t :: r.txns[u] == s.txns[u];
    assert LocksSound(p, r);
    assert DecisionsSound(r);
    assert GroupsSound(r);
  }

  lemma GroupStatementKeepsInv(p: Params, s: State, t: TxnId, e: Event, now: Time, c: CaseId)
    requires Inv(p, s) && Enabled(p, s, GroupStatement(t, e, now, Hit(c)))
    ensures Inv(p, Next(p, s, GroupStatement(t, e, now, Hit(c))))
  {
    var row := MergedRow(e, c, now);
    var r := Next(p, s, GroupStatement(t, e, now, Hit(c)));
    assert c in s.db.cases;
    GroupTxnFrame(p, s, t, r.txns[t]);
    GroupRowKeepsGroups(s, t, e.id, row);
  }

  lemma GroupRowKeepsGroups(s: State, t: TxnId, id: EventId, row: EventRow)
    requires GroupsSound(s) && t in s.txns && s.txns[t].Group? && KeyFree(s, t, id) && id !in s.txns[t].rows
    requires row.disposition == Merged && row.caseId.Some? && row.caseId.value in s.db.cases
    ensures var g := s.txns[t];
            GroupsSound(s.(txns := s.txns[t := Group(g.rows[id := row], g.audit + multiset{AuditFor(id, row)})]))
  {
    var g := s.txns[t];
    LedgerInsert(g.rows, g.audit, id, row);
    GroupRowKeepsApart(s, t, id, Group(g.rows[id := row], g.audit + multiset{AuditFor(id, row)}));
  }

  lemma GroupRowKeepsApart(s: State, t: TxnId, id: EventId, g: Txn)
    requires GroupsApart(s) && t in s.txns && s.txns[t].Group? && KeyFree(s, t, id)
    requires g.Group? && g.rows.Keys == s.txns[t].rows.Keys + {id}
    ensures GroupsApart(s.(txns := s.txns[t := g]))
  {
  }

  /** A group's rows bear on no lock, decision or opening. */
  lemma GroupTxnFrame(p: Params, s: State, t: TxnId, g: Txn)
    requires LocksSound(p, s) && DecisionsSound(s) && t in s.txns && s.txns[t].Group? && g.Group?
    ensures LocksSound(p, s.(txns := s.txns[t := g])) && DecisionsSound(s.(txns := s.txns[t := g]))
  {
    var r := s.(txns := s.txns[t := g]);
    assert forall u | u in r.txns && u != t :: r.txns[u] == s.txns[u];
  }

  lemma CommitGroupKeepsInv(p: Params, s: State, t: TxnId)
    requires Inv(p, s) && Enabled(p, s, CommitGroup(t))
    ensures Inv(p, Next(p, s, CommitGroup(t)))
  {
    var g := s.txns[t];
    var r := Next(p, s, CommitGroup(t));
    LedgerUnion(s.db.events, s.db.audit, g.rows, g.audit);
    assert LocksSound(p, r) by {
      assert forall k | k in r.locks :: r.locks[k] == s.locks[k];
    }
    assert OpeningsSound(r) by {
      forall i | 0 <= i < |r.openings| ensures OpenedIn(r.db, r.openings[i]) { assert OpenedIn(s.db, s.openings[i]); }
    }
  }

  lemma StatusKeepsInv(p: Params, s: State, a: Action)
    requires Inv(p, s) && Enabled(p, s, a) && (a.SetStatus? || a.SetPlatform?)
    ensures Inv(p, Next(p, s, a))
  {
    var r := Next(p, s, a);
    assert r.db.cases.Keys == s.db.cases.Keys && r.db.events == s.db.events;
    assert OpeningsSound(r) by {
      forall i | 0 <= i < |r.openings| ensures OpenedIn(r.db, r.openings[i]) { assert OpenedIn(s.db, s.openings[i]); }
    }
  }

  /** The deciding re-read happens under the lock, on the committed tables, and
      every earlier opening is in them. */
  lemma DecidingReadKeepsInv(p: Params, s: State, t: TxnId, now: Time, found: Option<CaseId>)
    requires Inv(p, s) && Enabled(p, s, DecidingRead(t, now, found))
    ensures Inv(p, Next(p, s, DecidingRead(t, now, found)))
  {
    var r := Next(p, s, DecidingRead(t, now, found));
    assert forall u | u in r.txns && u != t :: r.txns[u] == s.txns[u];
  }

  lemma StepKeepsInv(p: Params, s: State, a: Action)
    requires Inv(p, s) && Enabled(p, s, a)
    ensures Inv(p, Next(p, s, a))
  {
    match a
    case Begin(t, event) => SetTxnKeepsInv(p, s, t, Started(event));
    case ReadPlatform(t) =>
      EndKeepsInv(p, s, t);
      SetTxnKeepsInv(p, s, t, Rejecting(s.txns[t].event));
      forall w { SetTxnKeepsInv(p, s, t, AwaitingLock(s.txns[t].event, w)); }
    case AcquireLock(t) => AcquireLockKeepsInv(p, s, t);
    case DecidingRead(t, now, found) => DecidingReadKeepsInv(p, s, t, now, found);
    case CommitReject(t, now) =>
      var e := s.txns[t].event;
      var row := EventRow(e.platform, e.fingerprint, Rejected, None, now);
      InsertKeepsInv(p, s, t, e.id, row);
      EndKeepsInv(p, s.(db := Insert(s.db, e.id, row)), t);
    case CommitMerge(t, now) =>
      var e := s.txns[t].event;
      var row := EventRow(e.platform, e.fingerprint, Merged, s.txns[t].found, now);
      InsertKeepsInv(p, s, t, e.id, row);
      EndKeepsInv(p, s.(db := Insert(s.db, e.id, row)), t);
    case CommitOpen(t, now, caseId) => OpenKeepsInv(p, s, t, now, caseId);
    case BeginGroup(t) => SetTxnKeepsInv(p, s, t, Group(map[], multiset{}));
    case GroupStatement(t, event, now, result) =>
      if result.Hit? { GroupStatementKeepsInv(p, s, t, event, now, result.caseId); }
    case CommitGroup(t) => CommitGroupKeepsInv(p, s, t);
    case Abort(t) => EndKeepsInv(p, s, t);
    case SetStatus(_, _) => StatusKeepsInv(p, s, a);
    case SetPlatform(_, _) => StatusKeepsInv(p, s, a);
  }

  lemma {:induction false} RunKeepsInv(p: Params, states: seq<State>, actions: seq<Action>, n: nat)
    requires IsRun(p, states, actions) && Init(states[0]) && n < |states|
    ensures Inv(p, states[n])
  {
    if n == 0 {
    } else {
      RunKeepsInv(p, states, actions, n - 1);
      StepKeepsInv(p, states[n - 1], actions[n - 1]);
    }
  }

  // ----- openings of one slot are serialised -----

  /** Cases are never deleted, so a case that is absent was absent before. */
  lemma CasesGrow(p: Params, states: seq<State>, actions: seq<Action>, m: nat, n: nat)
    requires IsRun(p, states, actions) && m <= n < |states|
    ensures Grows(states[m], states[n])
  {
    forall i | 0 <= i < |actions| ensures Grows(states[i], states[i + 1]) { RunStepGrows(p, states, actions, i); }
    GrowthAdds(states, m, n);
  }

  ghost predicate Grows(s: State, r: State) { s.db.cases.Keys <= r.db.cases.Keys && s.openings <= r.openings }

  lemma {:induction false} GrowthAdds(states: seq<State>, m: nat, n: nat)
    requires m <= n < |states| && forall i | 0 <= i < |states| - 1 :: Grows(states[i], states[i + 1])
    ensures Grows(states[m], states[n])
  {
    if m == n {
    } else {
      GrowthAdds(states, m, n - 1);
      assert Grows(states[n - 1], states[n - 1 + 1]);
      GrowthJoins(states[m], states[n - 1], states[n]);
    }
  }

  lemma GrowthJoins(s: State, t: State, r: State)
    requires Grows(s, t) && Grows(t, r)
    ensures Grows(s, r)
  {
  }

  lemma RunStepGrows(p: Params, states: seq<State>, actions: seq<Action>, k: nat)
    requires IsRun(p, states, actions) && k < |actions|
    ensures Grows(states[k], states[k + 1])
  {
    StepGrowsCases(p, states[k], actions[k]);
  }

  lemma StepGrowsCases(p: Params, s: State, a: Action)
    requires Enabled(p, s, a)
    ensures Grows(s, Next(p, s, a))
  {
  }

  /** `m` is the step at which this decision's re-read ran. */
  ghost predicate ReadAtStep(states: seq<State>, actions: seq<Action>, m: nat, e: Event, window: int, snap: Db,
                             readAt: Time, found: Option<CaseId>)
    requires |states| == |actions| + 1
  {
    && m < |actions| && actions[m].DecidingRead? && actions[m].now == readAt && actions[m].found == found
    && states[m].db == snap && actions[m].t in states[m].txns && states[m].txns[actions[m].t] == Locked(e, window)
  }

  ghost predicate WasRead(states: seq<State>, actions: seq<Action>, n: nat, e: Event, window: int, snap: Db,
                          readAt: Time, found: Option<CaseId>)
    requires |states| == |actions| + 1
  {
    exists m | 0 <= m < n :: ReadAtStep(states, actions, m, e, window, snap, readAt, found)
  }

  ghost predicate DecisionsWereRead(states: seq<State>, actions: seq<Action>, n: nat)
    requires n < |states| == |actions| + 1
  {
    forall t | t in states[n].txns && states[n].txns[t].Decided? ::
      var x := states[n].txns[t];
      WasRead(states, actions, n, x.event, x.window, x.snap, x.readAt, x.found)
  }

  ghost predicate OpeningsWereRead(states: seq<State>, actions: seq<Action>, n: nat)
    requires n < |states| == |actions| + 1
  {
    forall i | 0 <= i < |states[n].openings| ::
      var o := states[n].openings[i];
      WasRead(states, actions, n, o.event, o.window, o.snap, o.readAt, None)
  }

  /** Every snapshot kept with a decision or an opening is the committed tables of
      an earlier step: the deciding re-read's own. */
  lemma {:induction false} SnapshotsAreReads(p: Params, states: seq<State>, actions: seq<Action>, n: nat)
    requires IsRun(p, states, actions) && Init(states[0]) && n < |states|
    ensures DecisionsWereRead(states, actions, n) && OpeningsWereRead(states, actions, n)
  {
    if n == 0 {
    } else {
      SnapshotsAreReads(p, states, actions, n - 1);
      assert Enabled(p, states[n - 1], actions[n - 1]) && states[n] == Next(p, states[n - 1], actions[n - 1]);
      NextDecisionsWereRead(p, states, actions, n);
      NextOpeningsWereRead(p, states, actions, n);
    }
  }

  lemma NextDecisionsWereRead(p: Params, states: seq<State>, actions: seq<Action>, n: nat)
    requires |states| == |actions| + 1 && 0 < n <= |actions| && DecisionsWereRead(states, actions, n - 1)
    requires Enabled(p, states[n - 1], actions[n - 1]) && states[n] == Next(p, states[n - 1], actions[n - 1])
    ensures DecisionsWereRead(states, actions, n)
  {
    var s, a, r := states[n - 1], actions[n - 1], states[n];
    if a.DecidingRead? {
      var x := r.txns[a.t];
      assert ReadAtStep(states, actions, n - 1, x.event, x.window, x.snap, x.readAt, x.found);
    }
    forall t | t in r.txns && r.txns[t].Decided? ensures
      var x := r.txns[t]; WasRead(states, actions, n, x.event, x.window, x.snap, x.readAt, x.found)
    {
      if !(a.DecidingRead? && a.t == t) { assert t in s.txns && s.txns[t] == r.txns[t]; }
    }
  }

  lemma NextOpeningsWereRead(p: Params, states: seq<State>, actions: seq<Action>, n: nat)
    requires |states| == |actions| + 1 && 0 < n <= |actions|
    requires DecisionsWereRead(states, actions, n - 1) && OpeningsWereRead(states, actions, n - 1)
    requires Enabled(p, states[n - 1], actions[n - 1]) && states[n] == Next(p, states[n - 1], actions[n - 1])
    ensures OpeningsWereRead(states, actions, n)
  {
    var s, r := states[n - 1], states[n];
    forall i | 0 <= i < |r.openings| ensures
      var o := r.openings[i]; WasRead(states, actions, n, o.event, o.window, o.snap, o.readAt, None)
    {
      if i < |s.openings| { assert r.openings[i] == s.openings[i]; }
    }
  }

  /** Nothing of the case still correlates at that read: it is terminal, or all its
      events of the slot fell out of the window. */
  ghost predicate NoLongerCorrelates(o: Opening, earlier: Opening)
    requires earlier.caseId in o.snap.cases
  {
    || o.snap.cases[earlier.caseId].status !in NON_TERMINAL
    || forall id | id in o.snap.events && o.snap.events[id].caseId == Some(earlier.caseId)
                   && o.snap.events[id].platform == o.event.platform
                   && o.snap.events[id].fingerprint == o.event.fingerprint ::
         o.snap.events[id].receivedAt < WindowStart(o.readAt, o.window)
  }

  /** Any two openings of one (platform, fingerprint) in any run: the later one's
      deciding re-read ran at a step `m` by which the earlier one had committed,
      saw its case, and found it terminal or without an event in the window. */
  lemma OpeningsAreSerialised(p: Params, states: seq<State>, actions: seq<Action>, n: nat, i: nat, j: nat)
    returns (m: nat)
    requires IsRun(p, states, actions) && Init(states[0]) && n < |states|
    requires i < j < |states[n].openings|
    requires SameSlot(states[n].openings[i].event, states[n].openings[j].event)
    ensures m < n && actions[m].DecidingRead? && states[m].db == states[n].openings[j].snap
    ensures i < |states[m].openings| <= j && states[m].openings[i] == states[n].openings[i]
    ensures OpenedIn(states[n].openings[j].snap, states[n].openings[i])
    ensures NoLongerCorrelates(states[n].openings[j], states[n].openings[i])
  {
    RunKeepsInv(p, states, actions, n);
    SnapshotsAreReads(p, states, actions, n);
    var o, earlier := states[n].openings[j], states[n].openings[i];
    assert OpenedIn(o.snap, earlier);
    assert ReadFound(o.event, o.window, o.snap, o.readAt, None);
    m :| 0 <= m < n && ReadAtStep(states, actions, m, o.event, o.window, o.snap, o.readAt, None);
    CasesGrow(p, states, actions, m, n);
    OpeningCommittedLater(p, states, actions, m, n, i);
    NotOpenedBeforeRead(p, states, actions, m, n, j);
    assert states[m].openings[i] == states[n].openings[i];
    forall id | id in o.snap.events && o.snap.events[id].caseId == Some(earlier.caseId)
                && o.snap.events[id].platform == o.event.platform
                && o.snap.events[id].fingerprint == o.event.fingerprint
      ensures o.snap.cases[earlier.caseId].status in NON_TERMINAL
              ==> o.snap.events[id].receivedAt < WindowStart(o.readAt, o.window)
    {
      assert !Eligible(o.snap, o.event.platform, o.event.fingerprint, WindowStart(o.readAt, o.window), id);
    }
  }

  /** An opening whose case is already in the tables of step `m` committed by then. */
  lemma OpeningCommittedLater(p: Params, states: seq<State>, actions: seq<Action>, m: nat, n: nat, i: nat)
    requires IsRun(p, states, actions) && m <= n < |states|
    requires i < |states[n].openings| && states[n].openings[i].caseId in states[m].db.cases
    ensures i < |states[m].openings|
  {
    forall k | 0 <= k < |states| - 1 ensures Grows(states[k], states[k + 1]) && OpensFresh(states[k], states[k + 1]) {
      RunStepGrows(p, states, actions, k);
      RunStepOpensFresh(p, states, actions, k);
    }
    FreshOpenings(states, m, n, i);
  }

  /** A step's new openings are of cases that were not there. */
  ghost predicate OpensFresh(s: State, r: State) {
    forall i | |s.openings| <= i < |r.openings| :: r.openings[i].caseId !in s.db.cases
  }

  lemma RunStepOpensFresh(p: Params, states: seq<State>, actions: seq<Action>, k: nat)
    requires IsRun(p, states, actions) && k < |actions|
    ensures OpensFresh(states[k], states[k + 1])
  {
    StepOpensFresh(p, states[k], actions[k]);
  }

  lemma StepOpensFresh(p: Params, s: State, a: Action)
    requires Enabled(p, s, a)
    ensures OpensFresh(s, Next(p, s, a))
  {
  }

  lemma {:induction false} FreshOpenings(states: seq<State>, m: nat, n: nat, i: nat)
    requires forall k | 0 <= k < |states| - 1 :: Grows(states[k], states[k + 1]) && OpensFresh(states[k], states[k + 1])
    requires m <= n < |states| && i < |states[n].openings| && states[n].openings[i].caseId in states[m].db.cases
    ensures i < |states[m].openings|
  {
    if m == n {
    } else {
      GrowthAdds(states, m, n - 1);
      assert Grows(states[n - 1], states[n - 1 + 1]) && OpensFresh(states[n - 1], states[n - 1 + 1]);
      if i < |states[n - 1].openings| { FreshOpenings(states, m, n - 1, i); }
    }
  }

  /** Opening `j`'s case was fresh when it committed, so its own re-read came first. */
  lemma NotOpenedBeforeRead(p: Params, states: seq<State>, actions: seq<Action>, m: nat, n: nat, j: nat)
    requires IsRun(p, states, actions) && Init(states[0]) && m < n < |states|
    requires j < |states[n].openings| && states[n].openings[j].snap == states[m].db
    ensures |states[m].openings| <= j
  {
    if j < |states[m].openings| {
      CasesGrow(p, states, actions, m, n);
      RunKeepsInv(p, states, actions, m);
      var o := states[m].openings[j];
      assert o == states[n].openings[j] && OpenedIn(states[m].db, o);
      OwnSnapshotLacksCase(p, states, actions, m, j);
      assert false;
    }
  }

  /** The snapshot an opening was decided on does not hold the case it opened. */
  lemma {:induction false} OwnSnapshotLacksCase(p: Params, states: seq<State>, actions: seq<Action>, n: nat, j: nat)
    requires IsRun(p, states, actions) && Init(states[0]) && n < |states| && j < |states[n].openings|
    ensures states[n].openings[j].caseId !in states[n].openings[j].snap.cases
  {
    if n == 0 {
    } else {
      assert Enabled(p, states[n - 1], actions[n - 1]) && states[n] == Next(p, states[n - 1], actions[n - 1]);
      if j < |states[n - 1].openings| {
        assert states[n - 1].openings[j] == states[n].openings[j];
        OwnSnapshotLacksCase(p, states, actions, n - 1, j);
      } else {
        NewCaseNotInSnapshot(p, states, actions, n - 1);
      }
    }
  }

  lemma NewCaseNotInSnapshot(p: Params, states: seq<State>, actions: seq<Action>, n: nat)
    requires IsRun(p, states, actions) && Init(states[0]) && n < |actions| && actions[n].CommitOpen?
    ensures actions[n].t in states[n].txns && states[n].txns[actions[n].t].Decided?
    ensures actions[n].caseId !in states[n].txns[actions[n].t].snap.cases
  {
    assert Enabled(p, states[n], actions[n]);
    SnapshotsAreReads(p, states, actions, n);
    var x := states[n].txns[actions[n].t];
    var m :| 0 <= m < n && ReadAtStep(states, actions, m, x.event, x.window, x.snap, x.readAt, x.found);
    CasesGrow(p, states, actions, m, n);
  }

  // ----- of many first events, exactly one opens -----

  predicate OfSlot(row: EventRow, slot: Event) { row.platform == slot.platform && row.fingerprint == slot.fingerprint }

  ghost predicate OpenedFor(s: State, slot: Event, c: CaseId) {
    exists i | 0 <= i < |s.openings| :: SameSlot(s.openings[i].event, slot) && s.openings[i].caseId == c
  }

  ghost predicate RowsAnchored(s: State, rows: map<EventId, EventRow>, slot: Event) {
    forall id | id in rows && OfSlot(rows[id], slot) && rows[id].caseId.Some? :: OpenedFor(s, slot, rows[id].caseId.value)
  }

  /** Every event of the slot, committed or not, belongs to a case opened for it. */
  ghost predicate Anchored(s: State, slot: Event) {
    && RowsAnchored(s, s.db.events, slot)
    && (forall t | t in s.txns && s.txns[t].Group? :: RowsAnchored(s, s.txns[t].rows, slot))
    && (forall t | t in s.txns && s.txns[t].Decided? && s.txns[t].found.Some? && SameSlot(s.txns[t].event, slot) ::
          OpenedFor(s, slot, s.txns[t].found.value))
  }

  lemma OpenedForGrows(s: State, r: State, slot: Event)
    requires s.openings <= r.openings
    ensures forall c :: OpenedFor(s, slot, c) ==> OpenedFor(r, slot, c)
  {
    forall c | OpenedFor(s, slot, c) ensures OpenedFor(r, slot, c) {
      var i :| 0 <= i < |s.openings| && SameSlot(s.openings[i].event, slot) && s.openings[i].caseId == c;
      assert r.openings[i] == s.openings[i];
    }
  }

  /** A candidate of the slot is a case the slot's rows already name. */
  lemma FusedAnchored(s: State, db: Db, e: Event, now: Time, default: int, c: CaseId, slot: Event)
    requires RowsAnchored(s, db.events, slot) && SameSlot(e, slot) && Fused(db, e, now, default, Hit(c))
    ensures OpenedFor(s, slot, c)
  {
    var id :| Joined(db, e, now, default, id) && db.events[id].caseId == Some(c);
    assert OfSlot(db.events[id], slot);
  }

  lemma GroupStatementKeepsAnchored(p: Params, s: State, t: TxnId, e: Event, now: Time, c: CaseId, slot: Event)
    requires Anchored(s, slot) && Enabled(p, s, GroupStatement(t, e, now, Hit(c)))
    ensures Anchored(Next(p, s, GroupStatement(t, e, now, Hit(c))), slot)
  {
    var r := Next(p, s, GroupStatement(t, e, now, Hit(c)));
    OpenedForGrows(s, r, slot);
    var v := Visible(s, s.txns[t]);
    assert RowsAnchored(s, v.events, slot);
    if SameSlot(e, slot) { FusedAnchored(s, v, e, now, p.default, c, slot); }
    assert RowsAnchored(r, r.txns[t].rows, slot);
    assert forall u | u in r.txns && u != t :: r.txns[u] == s.txns[u];
  }

  lemma DecidingReadKeepsAnchored(p: Params, s: State, t: TxnId, now: Time, found: Option<CaseId>, slot: Event)
    requires Anchored(s, slot) && Enabled(p, s, DecidingRead(t, now, found))
    ensures Anchored(Next(p, s, DecidingRead(t, now, found)), slot)
  {
    var r := Next(p, s, DecidingRead(t, now, found));
    OpenedForGrows(s, r, slot);
    var x := s.txns[t];
    if found.Some? && SameSlot(x.event, slot) {
      var start := WindowStart(now, x.window);
      var id :| Newest(s.db, x.event.platform, x.event.fingerprint, start, id) && s.db.events[id].caseId == found;
      assert OfSlot(s.db.events[id], slot);
    }
    assert forall u | u in r.txns && u != t :: r.txns[u] == s.txns[u];
  }

  /** A commit that adds these rows to the tables and ends its transaction. */
  lemma CommitKeepsAnchored(s: State, r: State, slot: Event)
    requires Anchored(s, slot) && s.openings <= r.openings
    requires forall t | t in r.txns :: t in s.txns && r.txns[t] == s.txns[t]
    requires forall id | id in r.db.events ::
               || (id in s.db.events && r.db.events[id] == s.db.events[id])
               || (OfSlot(r.db.events[id], slot) && r.db.events[id].caseId.Some?
                   ==> OpenedFor(r, slot, r.db.events[id].caseId.value))
    ensures Anchored(r, slot)
  {
    OpenedForGrows(s, r, slot);
  }

  lemma StepKeepsAnchored(p: Params, s: State, a: Action, slot: Event)
    requires Anchored(s, slot) && Enabled(p, s, a)
    ensures Anchored(Next(p, s, a), slot)
  {
    var r := Next(p, s, a);
    match a
    case DecidingRead(t, now, found) => DecidingReadKeepsAnchored(p, s, t, now, found, slot);
    case GroupStatement(t, event, now, result) =>
      if result.Hit? { GroupStatementKeepsAnchored(p, s, t, event, now, result.caseId, slot); }
    case CommitOpen(t, now, caseId) =>
      assert r.openings[|s.openings|].caseId == caseId;
      CommitKeepsAnchored(s, r, slot);
    case CommitMerge(_, _) => OpenedForGrows(s, r, slot); CommitKeepsAnchored(s, r, slot);
    case CommitGroup(_) => OpenedForGrows(s, r, slot); CommitKeepsAnchored(s, r, slot);
    case CommitReject(_, _) => CommitKeepsAnchored(s, r, slot);
    case Abort(_) => CommitKeepsAnchored(s, r, slot);
    case SetStatus(_, _) => CommitKeepsAnchored(s, r, slot);
    case SetPlatform(_, _) => CommitKeepsAnchored(s, r, slot);
    case _ =>
      OpenedForGrows(s, r, slot);
      assert r.db == s.db;
      assert forall t | t in r.txns && (r.txns[t].Decided? || (r.txns[t].Group? && r.txns[t].rows != map[])) ::
          t in s.txns && s.txns[t] == r.txns[t];
  }

  /** Start without events of the slot: in every run, each of its events belongs to
      a case that an opening of the slot created. */
  lemma {:induction false} RunKeepsAnchored(p: Params, states: seq<State>, actions: seq<Action>, n: nat, slot: Event)
    requires IsRun(p, states, actions) && Init(states[0]) && n < |states|
    requires forall id | id in states[0].db.events :: !OfSlot(states[0].db.events[id], slot)
    ensures Anchored(states[n], slot)
  {
    if n == 0 {
    } else {
      RunKeepsAnchored(p, states, actions, n - 1, slot);
      StepKeepsAnchored(p, states[n - 1], actions[n - 1], slot);
    }
  }

  /** A step that keeps the slot calm: no case of the slot is made terminal, no event of
      it is received before `earliest`, and every deciding read of it looks back at
      least that far. */
  ghost predicate CalmStep(p: Params, s: State, a: Action, slot: Event, earliest: Time)
    requires Enabled(p, s, a)
  {
    match a
    case SetStatus(c, status) => OpenedFor(s, slot, c) ==> status in NON_TERMINAL
    case DecidingRead(t, now, _) => SameSlot(s.txns[t].event, slot) ==> WindowStart(now, s.txns[t].window) <= earliest
    case CommitOpen(t, now, _) => SameSlot(s.txns[t].event, slot) ==> now >= earliest
    case CommitMerge(t, now) => SameSlot(s.txns[t].event, slot) ==> now >= earliest
    case GroupStatement(_, event, now, _) => SameSlot(event, slot) ==> now >= earliest
    case _ => true
  }

  /** Every one of the first `n` steps keeps the slot calm. */
  ghost predicate CalmSchedule(p: Params, states: seq<State>, actions: seq<Action>, n: nat, slot: Event, earliest: Time)
    requires IsRun(p, states, actions) && n <= |actions|
  {
    forall m | 0 <= m < n :: Enabled(p, states[m], actions[m]) && CalmStep(p, states[m], actions[m], slot, earliest)
  }

  /** The slot's events in these rows are no older than `earliest`. */
  ghost predicate RowsRecent(rows: map<EventId, EventRow>, slot: Event, earliest: Time) {
    forall id | id in rows && OfSlot(rows[id], slot) && rows[id].caseId.Some? :: rows[id].receivedAt >= earliest
  }

  /** The slot's events in these tables are recent and belong to open cases. */
  ghost predicate TablesCalm(db: Db, slot: Event, earliest: Time) {
    && RowsRecent(db.events, slot, earliest)
    && forall id | id in db.events && OfSlot(db.events[id], slot) && db.events[id].caseId.Some? ::
         db.events[id].caseId.value in db.cases && db.cases[db.events[id].caseId.value].status in NON_TERMINAL
  }

  ghost predicate ReadCalm(snap: Db, readAt: Time, window: int, slot: Event, earliest: Time) {
    TablesCalm(snap, slot, earliest) && WindowStart(readAt, window) <= earliest
  }

  ghost predicate CasesOpen(s: State, slot: Event) {
    forall c | OpenedFor(s, slot, c) :: c in s.db.cases && s.db.cases[c].status in NON_TERMINAL
  }

  ghost predicate GroupsRecent(s: State, slot: Event, earliest: Time) {
    forall t | t in s.txns && s.txns[t].Group? :: RowsRecent(s.txns[t].rows, slot, earliest)
  }

  ghost predicate DecisionsCalm(s: State, slot: Event, earliest: Time) {
    forall t | t in s.txns && s.txns[t].Decided? && SameSlot(s.txns[t].event, slot) ::
      ReadCalm(s.txns[t].snap, s.txns[t].readAt, s.txns[t].window, slot, earliest)
  }

  ghost predicate OpeningsCalm(s: State, slot: Event, earliest: Time) {
    forall i | 0 <= i < |s.openings| && SameSlot(s.openings[i].event, slot) ::
      ReadCalm(s.openings[i].snap, s.openings[i].readAt, s.openings[i].window, slot, earliest)
  }

  ghost predicate Calm(s: State, slot: Event, earliest: Time) {
    && RowsRecent(s.db.events, slot, earliest) && CasesOpen(s, slot) && GroupsRecent(s, slot, earliest)
    && DecisionsCalm(s, slot, earliest) && OpeningsCalm(s, slot, earliest)
  }

  lemma RowsStayRecent(p: Params, s: State, a: Action, slot: Event, earliest: Time)
    requires Enabled(p, s, a) && CalmStep(p, s, a, slot, earliest)
    requires RowsRecent(s.db.events, slot, earliest) && GroupsRecent(s, slot, earliest)
    ensures RowsRecent(Next(p, s, a).db.events, slot, earliest)
  {
  }

  lemma GroupsStayRecent(p: Params, s: State, a: Action, slot: Event, earliest: Time)
    requires Enabled(p, s, a) && CalmStep(p, s, a, slot, earliest) && GroupsRecent(s, slot, earliest)
    ensures GroupsRecent(Next(p, s, a), slot, earliest)
  {
    var r := Next(p, s, a);
    forall t | t in r.txns && r.txns[t].Group? ensures RowsRecent(r.txns[t].rows, slot, earliest) {
      if t in s.txns && s.txns[t].Group? { assert RowsRecent(s.txns[t].rows, slot, earliest); }
    }
  }

  lemma CasesStayOpen(p: Params, s: State, a: Action, slot: Event, earliest: Time)
    requires Enabled(p, s, a) && CalmStep(p, s, a, slot, earliest) && CasesOpen(s, slot)
    ensures CasesOpen(Next(p, s, a), slot)
  {
    var r := Next(p, s, a);
    forall c | OpenedFor(r, slot, c) ensures c in r.db.cases && r.db.cases[c].status in NON_TERMINAL {
      var i :| 0 <= i < |r.openings| && SameSlot(r.openings[i].event, slot) && r.openings[i].caseId == c;
      if i < |s.openings| { assert r.openings[i] == s.openings[i]; assert OpenedFor(s, slot, c); }
    }
  }

  lemma DecisionsStayCalm(p: Params, s: State, a: Action, slot: Event, earliest: Time)
    requires Enabled(p, s, a) && CalmStep(p, s, a, slot, earliest) && Anchored(s, slot)
    requires RowsRecent(s.db.events, slot, earliest) && CasesOpen(s, slot) && DecisionsCalm(s, slot, earliest)
    ensures DecisionsCalm(Next(p, s, a), slot, earliest)
  {
    var r := Next(p, s, a);
    forall t | t in r.txns && r.txns[t].Decided? && SameSlot(r.txns[t].event, slot)
      ensures ReadCalm(r.txns[t].snap, r.txns[t].readAt, r.txns[t].window, slot, earliest)
    {
      if a.DecidingRead? && a.t == t {
        assert RowsAnchored(s, s.db.events, slot);
        assert r.txns[t].snap == s.db;
      } else {
        assert t in s.txns && s.txns[t] == r.txns[t];
      }
    }
  }

  lemma OpeningsStayCalm(p: Params, s: State, a: Action, slot: Event, earliest: Time)
    requires Enabled(p, s, a) && DecisionsCalm(s, slot, earliest) && OpeningsCalm(s, slot, earliest)
    ensures OpeningsCalm(Next(p, s, a), slot, earliest)
  {
    var r := Next(p, s, a);
    forall i | 0 <= i < |r.openings| && SameSlot(r.openings[i].event, slot)
      ensures ReadCalm(r.openings[i].snap, r.openings[i].readAt, r.openings[i].window, slot, earliest)
    {
      if i < |s.openings| { assert r.openings[i] == s.openings[i]; }
    }
  }

  /** Start without events of the slot, and keep it calm: it stays calm. */
  lemma {:induction false} RunKeepsCalm(p: Params, states: seq<State>, actions: seq<Action>, n: nat, slot: Event, earliest: Time)
    requires IsRun(p, states, actions) && Init(states[0]) && n < |states|
    requires forall id | id in states[0].db.events :: !OfSlot(states[0].db.events[id], slot)
    requires CalmSchedule(p, states, actions, n, slot, earliest)
    ensures Calm(states[n], slot, earliest)
  {
    if n == 0 {
    } else {
      var s, a := states[n - 1], actions[n - 1];
      RunKeepsCalm(p, states, actions, n - 1, slot, earliest);
      RunKeepsAnchored(p, states, actions, n - 1, slot);
      StepKeepsCalm(p, s, a, slot, earliest);
    }
  }

  lemma StepKeepsCalm(p: Params, s: State, a: Action, slot: Event, earliest: Time)
    requires Enabled(p, s, a) && CalmStep(p, s, a, slot, earliest) && Anchored(s, slot) && Calm(s, slot, earliest)
    ensures Calm(Next(p, s, a), slot, earliest)
  {
    RowsStayRecent(p, s, a, slot, earliest);
    GroupsStayRecent(p, s, a, slot, earliest);
    CasesStayOpen(p, s, a, slot, earliest);
    DecisionsStayCalm(p, s, a, slot, earliest);
    OpeningsStayCalm(p, s, a, slot, earliest);
  }

  /** A later opening of a calm slot would have found the earlier case. */
  lemma CalmSlotOpensOnce(s: State, slot: Event, earliest: Time, i: nat, j: nat)
    requires OpeningsSound(s) && OpeningsCalm(s, slot, earliest) && i < j < |s.openings|
    requires SameSlot(s.openings[i].event, slot)
    ensures !SameSlot(s.openings[j].event, slot)
  {
    var o, earlier := s.openings[j], s.openings[i];
    EarlierIsFound(o.snap, o.readAt, o.window, slot, earliest, earlier);
    assert ReadFound(o.event, o.window, o.snap, o.readAt, None);
  }

  /** A calm read of the slot finds whatever was opened for it before. */
  lemma EarlierIsFound(snap: Db, readAt: Time, window: int, slot: Event, earliest: Time, earlier: Opening)
    ensures ReadCalm(snap, readAt, window, slot, earliest) && SameSlot(earlier.event, slot) && OpenedIn(snap, earlier)
            ==> Eligible(snap, slot.platform, slot.fingerprint, WindowStart(readAt, window), earlier.event.id)
  {
  }

  /** Concurrent first events of a slot that the schedule keeps calm: if any was
      accepted, exactly one opened a case and every accepted event belongs to it. */
  lemma FirstEventsOpenExactlyOneCase(p: Params, states: seq<State>, actions: seq<Action>, n: nat, slot: Event,
                                      earliest: Time, accepted: EventId)
    returns (k: nat)
    requires IsRun(p, states, actions) && Init(states[0]) && n < |states|
    requires forall id | id in states[0].db.events :: !OfSlot(states[0].db.events[id], slot)
    requires CalmSchedule(p, states, actions, n, slot, earliest)
    requires accepted in states[n].db.events && OfSlot(states[n].db.events[accepted], slot)
             && states[n].db.events[accepted].disposition != Rejected
    ensures k < |states[n].openings| && SameSlot(states[n].openings[k].event, slot)
    ensures forall i | 0 <= i < |states[n].openings| && SameSlot(states[n].openings[i].event, slot) :: i == k
    ensures forall id | id in states[n].db.events && OfSlot(states[n].db.events[id], slot)
                        && states[n].db.events[id].disposition != Rejected ::
              states[n].db.events[id].caseId == Some(states[n].openings[k].caseId)
  {
    var s := states[n];
    RunKeepsInv(p, states, actions, n);
    RunKeepsAnchored(p, states, actions, n, slot);
    RunKeepsCalm(p, states, actions, n, slot, earliest);
    assert OpenedFor(s, slot, s.db.events[accepted].caseId.value);
    k :| 0 <= k < |s.openings| && SameSlot(s.openings[k].event, slot);
    forall i | 0 <= i < |s.openings| && SameSlot(s.openings[i].event, slot) ensures i == k {
      if i < k { CalmSlotOpensOnce(s, slot, earliest, i, k); }
      if k < i { CalmSlotOpensOnce(s, slot, earliest, k, i); }
    }
    forall id | id in s.db.events && OfSlot(s.db.events[id], slot) && s.db.events[id].disposition != Rejected
      ensures s.db.events[id].caseId == Some(s.openings[k].caseId)
    {
      assert OpenedFor(s, slot, s.db.events[id].caseId.value);
    }
  }

  // ----- the ledger over all runs -----

  /** In every reachable state: each committed event has exactly one audit row, the
      one its disposition calls for, each such audit row has its event, and each
      case an ingest transaction opened has exactly one opened event. */
  lemma LedgerIsConserved(p: Params, states: seq<State>, actions: seq<Action>, n: nat)
    requires IsRun(p, states, actions) && Init(states[0]) && n < |states|
    ensures forall id | id in states[n].db.events ::
              states[n].db.audit[AuditFor(id, states[n].db.events[id])] == 1
    ensures forall a | a in states[n].db.audit ::
              a.event in states[n].db.events && a == AuditFor(a.event, states[n].db.events[a.event])
    ensures forall i, id | 0 <= i < |states[n].openings| && id in states[n].db.events ::
              (states[n].db.events[id].disposition == Opened
               && states[n].db.events[id].caseId == Some(states[n].openings[i].caseId))
              <==> id == states[n].openings[i].event.id
    ensures forall i | 0 <= i < |states[n].openings| :: states[n].openings[i].event.id in states[n].db.events
  {
    RunKeepsInv(p, states, actions, n);
    var s := states[n];
    forall a | a in s.db.audit ensures a.event in s.db.events && a == AuditFor(a.event, s.db.events[a.event]) {
      assert s.db.audit[a] > 0;
    }
    forall i | 0 <= i < |s.openings| ensures OpenedIn(s.db, s.openings[i]) {}
  }
}
