/** One group of merge candidates: one session, one savepoint per candidate, at
    most one outer commit. The group is compared with running every surviving
    statement alone, each in its own committed transaction. */
module MergeBatch {
  import opened Wrappers
  import opened Tables

  datatype Failure = StatementError(index: nat) | RecoveryError(index: nat) | CommitError

  /** `Unset` is the None a slot holds until its candidate was run. */
  datatype Outcome = Unset | Answer(result: MergeResult) | Failed(error: Failure)

  datatype BatchResult = Answered(outcomes: seq<Outcome>) | Raised

  /** A row some other transaction commits while the group is open. */
  datatype Foreign =
    | ForeignEvent(id: EventId, row: EventRow, audit: AuditRow)
    | ForeignCase(id: CaseId, value: Case)
    | ForeignPlatform(key: string, platform: PlatformRow)

  datatype Statement = Runs | RaisesBeforeWrite | RaisesAfterWrite
  datatype Recovery = Recovered | RollbackRaises | OuterInactive
  datatype CommitFault = Commits | CommitLost | CommitAppliedThenLost

  /** What the environment does around one candidate: the commits that land
      before its statement, the statement's clock, and the faults it meets. */
  datatype ItemEnv = ItemEnv(foreign: seq<Foreign>, at: Time, beginRaises: bool, statement: Statement,
                             recovery: Recovery, releaseRaises: bool)

  /** An insert on a key held by an open transaction waits; on a committed key it fails. */
  function ApplyForeign(db: Db, op: Foreign, held: set<EventId>): Db {
    match op
    case ForeignEvent(id, row, audit) =>
      if id in db.events || id in held then db
      else db.(events := db.events[id := row], audit := db.audit + multiset{audit})
    case ForeignCase(id, value) => db.(cases := db.cases[id := value])
    case ForeignPlatform(key, row) => db.(platforms := db.platforms[key := row])
  }

  function ApplyAll(db: Db, ops: seq<Foreign>, held: set<EventId>): Db {
    if ops == [] then db else ApplyForeign(ApplyAll(db, ops[..|ops| - 1], held), ops[|ops| - 1], held)
  }

  /** The committed tables when only the others' rows land. */
  function Replay(db: Db, env: seq<ItemEnv>, held: seq<set<EventId>>): Db
    requires |held| <= |env|
  {
    if held == [] then db
    else
      var n := |held| - 1;
      ApplyAll(Replay(db, env, held[..n]), env[n].foreign, held[n])
  }

  /** The committed tables after the first `n` candidates ran one by one, each
      alone in its own transaction and each with the outcome it was given. */
  function AloneDb(db: Db, events: seq<Event>, env: seq<ItemEnv>, outcomes: seq<Outcome>, n: nat): Db
    requires n <= |events| == |env| == |outcomes|
    decreases n, 0
  {
    if n == 0 then db
    else
      var before := AloneBefore(db, events, env, outcomes, n - 1);
      if outcomes[n - 1].Answer? then AfterFused(before, events[n - 1], env[n - 1].at, outcomes[n - 1].result)
      else before
  }

  function AloneBefore(db: Db, events: seq<Event>, env: seq<ItemEnv>, outcomes: seq<Outcome>, i: nat): Db
    requires i < |events| == |env| == |outcomes|
    decreases i, 1
  {
    ApplyAll(AloneDb(db, events, env, outcomes, i), env[i].foreign, {})
  }

  /** The statement would insert a key that is already there. */
  ghost predicate Collides(db: Db, e: Event, at: Time, default: int) {
    e.id in db.events && !Fused(db, e, at, default, Miss)
  }

  /** Candidate `i` got the answer its statement gives alone, or its own error
      exactly when that statement fails alone. */
  ghost predicate AloneAnswer(db: Db, events: seq<Event>, env: seq<ItemEnv>, default: int,
                              outcomes: seq<Outcome>, i: nat)
    requires i < |events| == |env| == |outcomes|
  {
    var before := AloneBefore(db, events, env, outcomes, i);
    var fails := env[i].statement != Runs || Collides(before, events[i], env[i].at, default);
    if fails then outcomes[i] == Failed(StatementError(i))
    else outcomes[i].Answer? && Fused(before, events[i], env[i].at, default, outcomes[i].result)
  }

  lemma {:induction false} AloneDbFrame(db: Db, events: seq<Event>, env: seq<ItemEnv>,
                                        o1: seq<Outcome>, o2: seq<Outcome>, n: nat)
    requires n <= |events| == |env| == |o1| == |o2|
    requires o1[..n] == o2[..n]
    ensures AloneDb(db, events, env, o1, n) == AloneDb(db, events, env, o2, n)
  {
    if n == 0 {
    } else {
      assert o1[..n - 1] == o1[..n][..n - 1] == o2[..n][..n - 1] == o2[..n - 1];
      assert o1[n - 1] == o1[..n][n - 1] == o2[..n][n - 1] == o2[n - 1];
      AloneDbFrame(db, events, env, o1, o2, n - 1);
    }
  }

  lemma AloneAnswersFrame(db: Db, events: seq<Event>, env: seq<ItemEnv>, default: int,
                          o1: seq<Outcome>, o2: seq<Outcome>, n: nat)
    requires n <= |events| == |env| == |o1| == |o2|
    requires o1[..n] == o2[..n]
    requires forall i | 0 <= i < n :: AloneAnswer(db, events, env, default, o1, i)
    ensures forall i | 0 <= i < n :: AloneAnswer(db, events, env, default, o2, i)
  {
    forall i | 0 <= i < n ensures AloneAnswer(db, events, env, default, o2, i) {
      assert AloneAnswer(db, events, env, default, o1, i);
      assert o1[..i] == o1[..n][..i] == o2[..n][..i] == o2[..i];
      assert o1[i] == o1[..n][i] == o2[..n][i] == o2[i];
      AloneDbFrame(db, events, env, o1, o2, i);
    }
  }

  /** Own uncommitted rows laid over the committed tables. */
  function Overlay(db: Db, events: map<EventId, EventRow>, audit: multiset<AuditRow>): Db {
    db.(events := db.events + events, audit := db.audit + audit)
  }

  /** Others' commits act on what the transaction sees as they act on the tables. */
  lemma {:induction false} ForeignCommutesWithOverlay(db: Db, ops: seq<Foreign>, events: map<EventId, EventRow>,
                                                      audit: multiset<AuditRow>)
    ensures Overlay(ApplyAll(db, ops, events.Keys), events, audit) == ApplyAll(Overlay(db, events, audit), ops, {})
  {
    if ops == [] {
    } else {
      ForeignCommutesWithOverlay(db, ops[..|ops| - 1], events, audit);
      var d := ApplyAll(db, ops[..|ops| - 1], events.Keys);
      var op := ops[|ops| - 1];
      assert Overlay(ApplyForeign(d, op, events.Keys), events, audit)
          == ApplyForeign(Overlay(d, events, audit), op, {}) by {
        if op.ForeignEvent? && op.id !in d.events && op.id !in events {
          assert d.events[op.id := op.row] + events == (d.events + events)[op.id := op.row];
          assert d.audit + multiset{op.audit} + audit == d.audit + audit + multiset{op.audit};
        }
      }
    }
  }

  /** An ORM session: the server's committed tables and this transaction's own rows. */
  class Session {
    var db: Db
    var ownEvents: map<EventId, EventRow>
    var ownAudit: multiset<AuditRow>
    var savedEvents: map<EventId, EventRow>
    var savedAudit: multiset<AuditRow>
    var active: bool

    constructor (db: Db)
      ensures this.db == db && ownEvents == map[] && ownAudit == multiset{} && active
    {
      this.db := db;
      ownEvents, ownAudit, savedEvents, savedAudit, active := map[], multiset{}, map[], multiset{}, true;
    }

    ghost predicate Disjoint()
      reads this
    {
      ownEvents.Keys !! db.events.Keys
    }

    /** READ COMMITTED: committed rows plus this transaction's own. */
    function Visible(): Db
      reads this
    {
      Overlay(db, ownEvents, ownAudit)
    }

    method BeginNested()
      modifies this`savedEvents, this`savedAudit
      ensures savedEvents == ownEvents && savedAudit == ownAudit
    {
      savedEvents, savedAudit := ownEvents, ownAudit;
    }

    method RollbackToSavepoint()
      modifies this`ownEvents, this`ownAudit
      ensures ownEvents == savedEvents && ownAudit == savedAudit
    {
      ownEvents, ownAudit := savedEvents, savedAudit;
    }

    method Rollback()
      modifies this`ownEvents, this`ownAudit
      ensures ownEvents == map[] && ownAudit == multiset{}
    {
      ownEvents, ownAudit := map[], multiset{};
    }

    /** The others' commits that land before the next statement. */
    method Interfere(ops: seq<Foreign>)
      requires Disjoint()
      modifies this`db
      ensures db == ApplyAll(old(db), ops, ownEvents.Keys)
      ensures Visible() == ApplyAll(old(Visible()), ops, {})
      ensures Disjoint()
    {
      var i := 0;
      while i < |ops|
        invariant 0 <= i <= |ops|
        invariant db == ApplyAll(old(db), ops[..i], ownEvents.Keys)
        invariant Disjoint()
      {
        assert ops[..i + 1][..i] == ops[..i];
        db := ApplyForeign(db, ops[i], ownEvents.Keys);
        i := i + 1;
      }
      assert ops[..i] == ops;
      ForeignCommutesWithOverlay(old(db), ops, ownEvents, ownAudit);
    }

    /** `merge_existing_event_with_audit`: a collision on event_id raises before any write. */
    method MergeExistingEvent(e: Event, at: Time, default: int, statement: Statement)
      returns (raised: bool, result: MergeResult)
      requires Disjoint()
      modifies this`ownEvents, this`ownAudit
      ensures raised <==> statement != Runs || Collides(old(Visible()), e, at, default)
      ensures !raised ==> Fused(old(Visible()), e, at, default, result)
      ensures !raised ==> Visible() == AfterFused(old(Visible()), e, at, result)
      ensures !raised && result.Miss? ==> ownEvents == old(ownEvents) && ownAudit == old(ownAudit)
      ensures !raised && result.Hit? ==> ownEvents == old(ownEvents)[e.id := MergedRow(e, result.caseId, at)]
      ensures !raised ==> Disjoint()
    {
      result := SelectCandidate(e, at, default);
      if statement == RaisesBeforeWrite || (result.Hit? && e.id in Visible().events) {
        return true, Miss;
      }
      if result.Hit? {
        ghost var before := Visible();
        var audit := AuditRow(EventMerged, e.id, Some(result.caseId));
        ownEvents := ownEvents[e.id := MergedRow(e, result.caseId, at)];
        ownAudit := ownAudit + multiset{audit};
        assert db.events + ownEvents == before.events[e.id := MergedRow(e, result.caseId, at)];
        assert db.audit + ownAudit == before.audit + multiset{audit};
      }
      raised := statement == RaisesAfterWrite;
    }

    /** The `candidate` CTE: scan for the newest joined row. */
    method SelectCandidate(e: Event, at: Time, default: int) returns (result: MergeResult)
      ensures Fused(Visible(), e, at, default, result)
    {
      var v := Visible();
      if e.platform !in v.platforms || !Online(v.platforms[e.platform])
         || SqlWindow(v.platforms[e.platform].config, default).None? {
        return Miss;
      }
      var start := WindowStart(at, SqlWindow(v.platforms[e.platform].config, default).value);
      var todo := v.events.Keys;
      var best: Option<EventId> := None;
      while todo != {}
        invariant todo <= v.events.Keys
        invariant best.None? ==> forall id | id in v.events && id !in todo ::
                                   !Eligible(v, e.platform, e.fingerprint, start, id)
        invariant best.Some? ==>
                    && Eligible(v, e.platform, e.fingerprint, start, best.value)
                    && forall id | id in v.events && id !in todo && Eligible(v, e.platform, e.fingerprint, start, id) ::
                         v.events[id].receivedAt <= v.events[best.value].receivedAt
        decreases todo
      {
        var id :| id in todo;
        todo := todo - {id};
        if Eligible(v, e.platform, e.fingerprint, start, id)
           && (best.None? || v.events[best.value].receivedAt < v.events[id].receivedAt) {
          best := Some(id);
        }
      }
      assert forall id :: Joined(v, e, at, default, id) <==> Eligible(v, e.platform, e.fingerprint, start, id);
      result := if best.None? then Miss else Hit(v.events[best.value].caseId.value);
    }

    /** The outer commit. A lost commit may or may not have reached the server. */
    method Commit(fault: CommitFault) returns (raised: bool)
      modifies this`db, this`ownEvents, this`ownAudit
      ensures raised <==> fault != Commits
      ensures db == if fault == CommitLost then old(db) else old(Visible())
      ensures fault == Commits ==> ownEvents == map[] && ownAudit == multiset{}
    {
      if fault != CommitLost { db := Visible(); }
      if fault == Commits { ownEvents, ownAudit := map[], multiset{}; }
      raised := fault != Commits;
    }
  }

  /** `_recover_savepoint`: None is the proof that the outer transaction is usable. */
  method RecoverSavepoint(session: Session, recovery: Recovery, index: nat) returns (fatal: Option<Failure>)
    requires session.active
    modifies session`ownEvents, session`ownAudit, session`active
    ensures fatal == match recovery
                     case Recovered => None
                     case RollbackRaises => Some(RecoveryError(index))
                     case OuterInactive => Some(StatementError(index))
    ensures recovery == Recovered ==>
              session.ownEvents == session.savedEvents && session.ownAudit == session.savedAudit
              && session.active
  {
    if recovery == RollbackRaises { return Some(RecoveryError(index)); }
    session.RollbackToSavepoint();
    if recovery == OuterInactive { session.active := false; }
    fatal := if !session.active then Some(StatementError(index)) else None;
  }

  predicate AnyHit(outcomes: seq<Outcome>) {
    exists i | 0 <= i < |outcomes| :: outcomes[i].Answer? && outcomes[i].result.Hit?
  }

  /** `_finish_merge_batch`: one commit, or an explicit rollback. */
  method FinishMergeBatch(session: Session, outcomes: seq<Outcome>, fatal: Option<Failure>, commit: CommitFault,
                          rollbackRaises: bool)
    returns (raised: bool, result: Option<Failure>)
    modifies session`db, session`ownEvents, session`ownAudit
    ensures fatal.Some? ==> !raised && result == fatal && session.db == old(session.db)
    ensures fatal.None? && AnyHit(outcomes) ==>
              && !raised
              && result == (if commit == Commits then None else Some(CommitError))
              && session.db == (if commit == CommitLost then old(session.db) else old(session.Visible()))
    ensures fatal.None? && !AnyHit(outcomes) ==>
              raised == rollbackRaises && result == None && session.db == old(session.db)
  {
    if fatal.Some? {
      session.Rollback();
      return false, fatal;
    }
    if AnyHit(outcomes) {
      var lost := session.Commit(commit);
      if lost {
        session.Rollback();
        return false, Some(CommitError);
      }
      return false, None;
    }
    session.Rollback();
    return rollbackRaises, None;
  }

  /** No fault that the group does not survive. */
  ghost predicate Usable(env: seq<ItemEnv>, commit: CommitFault, rollbackRaises: bool) {
    && (forall i | 0 <= i < |env| ::
          !env[i].beginRaises && !env[i].releaseRaises && env[i].recovery == Recovered)
    && commit == Commits && !rollbackRaises
  }

  /** One turn of the loop in `_execute_merge_batch`: savepoint, statement, then
      release or recovery. */
  method RunCandidate(session: Session, e: Event, default: int, env: ItemEnv, index: nat)
    returns (raised: bool, outcome: Outcome, fatal: Option<Failure>)
    requires session.Disjoint() && session.active
    modifies session
    ensures session.db == ApplyAll(old(session.db), env.foreign, old(session.ownEvents.Keys))
    ensures !env.beginRaises && !env.releaseRaises ==> !raised
    ensures env.recovery == Recovered ==> fatal.None?
    ensures !raised ==> outcome != Unset && (outcome.Failed? ==> outcome.error == StatementError(index))
    ensures !raised && fatal.None? ==> session.Disjoint() && session.active
    ensures !raised && fatal.None? ==>
              var before := ApplyAll(old(session.Visible()), env.foreign, {});
              if env.statement != Runs || Collides(before, e, env.at, default) then
                outcome.Failed? && session.Visible() == before
              else
                outcome.Answer? && Fused(before, e, env.at, default, outcome.result)
                && session.Visible() == AfterFused(before, e, env.at, outcome.result)
    ensures !raised && fatal.None? && !(outcome.Answer? && outcome.result.Hit?) ==>
              session.ownEvents == old(session.ownEvents) && session.ownAudit == old(session.ownAudit)
  {
    session.Interfere(env.foreign);
    if env.beginRaises { return true, Unset, None; }
    session.BeginNested();
    var failed, result := session.MergeExistingEvent(e, env.at, default, env.statement);
    if failed {
      outcome := Failed(StatementError(index));
      fatal := RecoverSavepoint(session, env.recovery, index);
      raised := false;
    } else {
      if env.releaseRaises { return true, Unset, None; }
      raised, outcome, fatal := false, Answer(result), None;
    }
  }

  /** `_execute_merge_batch`. */
  method ExecuteMergeBatch(session: Session, events: seq<Event>, default: int, env: seq<ItemEnv>,
                           commit: CommitFault, rollbackRaises: bool)
    returns (r: BatchResult, ghost fatal: Option<Failure>, ghost held: seq<set<EventId>>)
    requires |events| == |env|
    requires session.ownEvents == map[] && session.ownAudit == multiset{} && session.active
    modifies session
    // A group that stays usable gives every candidate the answer, and leaves the
    // tables, that running the candidates alone in FIFO order gives.
    ensures Usable(env, commit, rollbackRaises) ==> r.Answered? && fatal.None?
    ensures r.Answered? ==> |r.outcomes| == |events| && forall i | 0 <= i < |events| :: r.outcomes[i] != Unset
    ensures r.Answered? && fatal.None? ==>
              && (forall i | 0 <= i < |events| :: AloneAnswer(old(session.db), events, env, default, r.outcomes, i))
              && session.db == AloneDb(old(session.db), events, env, r.outcomes, |events|)
    // A fatal path reports no hit and no miss: a member keeps its own error or gets the group's.
    ensures fatal.Some? ==> r.Answered? && forall i | 0 <= i < |events| ::
              r.outcomes[i] == Failed(StatementError(i)) || r.outcomes[i] == Failed(fatal.value)
    // Unless the group answered, only the others' rows were committed.
    ensures |held| <= |env|
    ensures (fatal.Some? && commit != CommitAppliedThenLost) || r.Raised? ==>
              session.db == Replay(old(session.db), env, held)
  {
    var outcomes: seq<Outcome> := seq(|events|, _ => Unset);
    var stop: Option<Failure> := None;
    held := [];
    ghost var db0 := session.db;
    var index := 0;
    assert session.Visible() == db0 by { assert db0.events + map[] == db0.events; }
    while index < |events| && stop.None?
      invariant 0 <= index <= |events| && |outcomes| == |events| && |held| == index
      invariant session.db == Replay(db0, env, held)
      invariant stop.None? ==> session.Disjoint() && session.active
      invariant stop.None? ==> Compared(db0, events, env, default, outcomes, index, session.Visible())
      invariant stop.None? && !AnyHit(outcomes) ==> session.ownEvents == map[] && session.ownAudit == multiset{}
      invariant forall i | index <= i < |events| :: outcomes[i] == Unset
      invariant forall i | 0 <= i < index :: Own(outcomes[i], i)
      invariant Usable(env, commit, rollbackRaises) ==> stop.None?
      invariant stop.None? || index > 0
    {
      ghost var o0, h := outcomes, held;
      held := held + [session.ownEvents.Keys];
      assert held[..index] == h;
      var raised, outcome;
      raised, outcome, stop := RunCandidate(session, events[index], default, env[index], index);
      if raised { return Raised, None, held; }
      outcomes := outcomes[index := outcome];
      if stop.None? {
        StepKeepsAlone(db0, events, env, default, o0, outcomes, index, session.Visible());
        HitsGrow(o0, outcomes, index);
      }
      index := index + 1;
    }
    assert !AnyHit(outcomes) && stop.None? ==> session.Visible() == session.db by {
      assert session.db.events + map[] == session.db.events;
    }
    var finishRaised;
    finishRaised, stop := FinishMergeBatch(session, outcomes, stop, commit, rollbackRaises);
    fatal := stop;
    if finishRaised { return Raised, fatal, held; }
    if stop.Some? {
      outcomes := seq(|outcomes|, i requires 0 <= i < |outcomes| =>
        if outcomes[i].Failed? then outcomes[i] else Failed(stop.value));
    }
    r := Answered(outcomes);
  }

  /** A slot that was run holds an answer or its own statement's error. */
  ghost predicate Own(o: Outcome, index: nat) {
    o != Unset && (o.Failed? ==> o.error == StatementError(index))
  }

  /** The first `n` candidates agree with the alone run, and the open group sees its tables. */
  ghost predicate Compared(db: Db, events: seq<Event>, env: seq<ItemEnv>, default: int, outcomes: seq<Outcome>,
                           n: nat, visible: Db)
    requires n <= |events| == |env| == |outcomes|
  {
    && (forall i | 0 <= i < n :: AloneAnswer(db, events, env, default, outcomes, i))
    && visible == AloneDb(db, events, env, outcomes, n)
  }

  /** Filling slot `index` from what the open group sees extends the comparison. */
  lemma StepKeepsAlone(db: Db, events: seq<Event>, env: seq<ItemEnv>, default: int,
                       o1: seq<Outcome>, o2: seq<Outcome>, index: nat, visible: Db)
    requires index < |events| == |env| == |o1| == |o2|
    requires o2 == o1[index := o2[index]]
    requires forall i | 0 <= i < index :: AloneAnswer(db, events, env, default, o1, i)
    requires var before := AloneBefore(db, events, env, o1, index);
             if env[index].statement != Runs || Collides(before, events[index], env[index].at, default) then
               o2[index] == Failed(StatementError(index)) && visible == before
             else
               o2[index].Answer? && Fused(before, events[index], env[index].at, default, o2[index].result)
               && visible == AfterFused(before, events[index], env[index].at, o2[index].result)
    ensures Compared(db, events, env, default, o2, index + 1, visible)
  {
    assert o1[..index] == o2[..index];
    AloneDbFrame(db, events, env, o1, o2, index);
    AloneAnswersFrame(db, events, env, default, o1, o2, index);
    assert AloneAnswer(db, events, env, default, o2, index);
  }

  lemma HitsGrow(o1: seq<Outcome>, o2: seq<Outcome>, index: nat)
    requires index < |o1| == |o2| && o1[index] == Unset && o2 == o1[index := o2[index]]
    ensures AnyHit(o2) <==> AnyHit(o1) || (o2[index].Answer? && o2[index].result.Hit?)
  {
    if AnyHit(o1) {
      var i :| 0 <= i < |o1| && o1[i].Answer? && o1[i].result.Hit?;
      assert o2[i].Answer? && o2[i].result.Hit?;
    }
    if AnyHit(o2) {
      var i :| 0 <= i < |o2| && o2[i].Answer? && o2[i].result.Hit?;
      assert i == index || o1[i].Answer?;
    }
  }
}
