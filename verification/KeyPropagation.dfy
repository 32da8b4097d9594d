/** Delivery of the served signing key to connected probe sessions: admission,
    rotation and propagation by the one poller, dropped pushes, disconnects and
    FIFO delivery, interleaved in any order. A session's outbound channel is the
    frames ever enqueued minus the ones its writer has taken. */
module KeyPropagation {
  import opened Wrappers
  import opened SigningKeys

  const OUTBOUND_BUFFER := 32

  /** A RegisterAck carrying a key, or any other gateway frame. */
  datatype Frame = Ack(key: Key) | OtherFrame

  type SessionId = nat

  /** `versions` dates each ack frame by its place in the served-key history. The last
      fields are the probe's end: frames delivered, the current key an earlier session
      left in its store, and the store now. */
  datatype Session = Session(platform: string, enqueued: seq<Frame>, taken: nat, lastKeySent: Key, done: bool,
                             versions: seq<nat>, delivered: nat, prior: Option<Key>, probe: KeyState)

  datatype Counts = Counts(sent: nat, upToDate: nat, dropped: nat)

  /** The poller between passes, or inside one; `sending` is the session whose frame
      is enqueued and whose record is still to be written. */
  datatype Poller =
    | Idle(result: Counts)
    | Pass(key: Key, snapshot: seq<SessionId>, at: nat, counts: Counts, sending: bool, droppedIds: set<SessionId>)

  /** `history` lists every key served so far; its last is the one served now. */
  datatype State = State(history: seq<Key>, sessions: map<SessionId, Session>, byPlatform: map<string, SessionId>,
                         poller: Poller)

  function Served(s: State): Key
    requires s.history != []
  {
    s.history[|s.history| - 1]
  }

  datatype Push = Enqueue | Drop

  datatype Action =
    | Serve(key: Key)
    | Admit(id: SessionId, platform: string, store: KeyState)
    | BeginPass(order: seq<SessionId>)
    | Visit(push: Push)
    | Record
    | EndPass
    | OtherProducer(id: SessionId)
    | WriterTakes(id: SessionId)
    | Delivers(id: SessionId, now: Time)
    | Disconnect(id: SessionId)

  predicate HasRoom(x: Session) { |x.enqueued| < x.taken + OUTBOUND_BUFFER }

  predicate Distinct(ids: seq<SessionId>) { forall i, j | 0 <= i < j < |ids| :: ids[i] != ids[j] }

  /** The session the pass looks at next. */
  function Current(s: State): SessionId
    requires s.poller.Pass? && s.poller.at < |s.poller.snapshot|
  {
    s.poller.snapshot[s.poller.at]
  }

  ghost predicate Enabled(s: State, a: Action) {
    && s.history != []
    && match a
       case Serve(_) => s.poller.Idle?
       case Admit(id, _, _) => id !in s.sessions
       case BeginPass(order) =>
         s.poller.Idle? && Distinct(order) && (set i | 0 <= i < |order| :: order[i]) == s.byPlatform.Values
       case Visit(push) =>
         && s.poller.Pass? && !s.poller.sending && s.poller.at < |s.poller.snapshot| && Current(s) in s.sessions
         && var x := s.sessions[Current(s)];
         x.lastKeySent == s.poller.key || (if push == Enqueue then HasRoom(x) else x.done || !HasRoom(x))
       case Record => s.poller.Pass? && s.poller.sending && s.poller.at < |s.poller.snapshot| && Current(s) in s.sessions
       case EndPass => s.poller.Pass? && !s.poller.sending && s.poller.at == |s.poller.snapshot|
       case OtherProducer(id) => id in s.sessions && HasRoom(s.sessions[id])
       case WriterTakes(id) => id in s.sessions && s.sessions[id].taken < |s.sessions[id].enqueued|
       case Delivers(id, _) =>
         id in s.sessions && s.sessions[id].delivered < s.sessions[id].taken && s.sessions[id].taken <= |s.sessions[id].enqueued|
       case Disconnect(id) => id in s.sessions
  }

  function NewSession(platform: string, key: Key, place: nat, store: KeyState): Session {
    Session(platform, [Ack(key)], 0, key, false, [place], 0, store.current, store)
  }

  /** A frame reaches the probe: an ack's key is installed. */
  function Receive(x: Session, now: Time): Session
    requires x.delivered < |x.enqueued|
  {
    var f := x.enqueued[x.delivered];
    x.(delivered := x.delivered + 1, probe := if f.Ack? then Installed(x.probe, f.key, now) else x.probe)
  }

  function Next(s: State, a: Action): State
    requires Enabled(s, a)
  {
    match a
    case Serve(key) => s.(history := s.history + [key])
    case Admit(id, platform, store) =>
      var key := Served(s);
      s.(sessions := s.sessions[id := NewSession(platform, key, |s.history| - 1, store)],
         byPlatform := s.byPlatform[platform := id])
    case BeginPass(order) =>
      var key := Served(s);
      if |key| != KEY_SIZE then s.(poller := Idle(Counts(0, 0, 0)))
      else s.(poller := Pass(key, order, 0, Counts(0, 0, 0), false, {}))
    case Visit(push) =>
      var id := Current(s);
      var x := s.sessions[id];
      var p := s.poller;
      if x.lastKeySent == p.key then
        s.(poller := p.(at := p.at + 1, counts := p.counts.(upToDate := p.counts.upToDate + 1)))
      else if push == Enqueue then
        s.(poller := p.(sending := true),
           sessions := s.sessions[id := x.(enqueued := x.enqueued + [Ack(p.key)], versions := x.versions + [|s.history| - 1])])
      else
        s.(poller := p.(at := p.at + 1, counts := p.counts.(dropped := p.counts.dropped + 1),
                        droppedIds := p.droppedIds + {id}))
    case Record =>
      var id := Current(s);
      var p := s.poller;
      s.(sessions := s.sessions[id := s.sessions[id].(lastKeySent := p.key)],
         poller := p.(at := p.at + 1, sending := false, counts := p.counts.(sent := p.counts.sent + 1)))
    case EndPass => s.(poller := Idle(s.poller.counts))
    case OtherProducer(id) =>
      s.(sessions := s.sessions[id := s.sessions[id].(enqueued := s.sessions[id].enqueued + [OtherFrame])])
    case WriterTakes(id) => s.(sessions := s.sessions[id := s.sessions[id].(taken := s.sessions[id].taken + 1)])
    case Delivers(id, now) => s.(sessions := s.sessions[id := Receive(s.sessions[id], now)])
    case Disconnect(id) =>
      var p := s.sessions[id].platform;
      s.(sessions := s.sessions[id := s.sessions[id].(done := true)],
         byPlatform := if p in s.byPlatform && s.byPlatform[p] == id then s.byPlatform - {p} else s.byPlatform)
  }

  ghost predicate Init(s: State) {
    |s.history| == 1 && s.sessions == map[] && s.byPlatform == map[] && s.poller == Idle(Counts(0, 0, 0))
  }

  ghost predicate IsRun(states: seq<State>, actions: seq<Action>) {
    && |states| == |actions| + 1
    && forall i | 0 <= i < |actions| :: Enabled(states[i], actions[i]) && states[i + 1] == Next(states[i], actions[i])
  }

  // ----- invariants -----

  function AckKeys(frames: seq<Frame>): seq<Key> {
    if frames == [] then []
    else
      var rest := AckKeys(frames[..|frames| - 1]);
      if frames[|frames| - 1].Ack? then rest + [frames[|frames| - 1].key] else rest
  }

  /** The keys at these places of the history. */
  function Picked(history: seq<Key>, places: seq<nat>): seq<Key>
    requires forall i | 0 <= i < |places| :: places[i] < |history|
  {
    seq(|places|, i requires 0 <= i < |places| => history[places[i]])
  }

  /** The acks are the served keys at strictly increasing places of the history. */
  ghost predicate AcksFollowHistory(history: seq<Key>, x: Session) {
    && x.versions != []
    && (forall i | 0 <= i < |x.versions| :: x.versions[i] < |history|)
    && (forall i, j | 0 <= i < j < |x.versions| :: x.versions[i] < x.versions[j])
    && AckKeys(x.enqueued) == Picked(history, x.versions)
  }

  predicate IsSending(s: State, id: SessionId) {
    s.poller.Pass? && s.poller.sending && s.poller.at < |s.poller.snapshot| && Current(s) == id
  }

  function LastAck(history: seq<Key>, x: Session): Key
    requires x.versions != [] && x.versions[|x.versions| - 1] < |history|
  {
    history[x.versions[|x.versions| - 1]]
  }

  /** The recorded key is the one in the last ack enqueued, except between an enqueue
      of `sending` and its record. */
  ghost predicate SessionOk(history: seq<Key>, x: Session, sending: Option<Key>) {
    && AcksFollowHistory(history, x) && x.taken <= |x.enqueued|
    && match sending
       case None => LastAck(history, x) == x.lastKeySent
       case Some(key) => LastAck(history, x) == key && x.lastKeySent != key
  }

  function SendingTo(s: State, id: SessionId): Option<Key> {
    if IsSending(s, id) then Some(s.poller.key) else None
  }

  ghost predicate SessionsSound(s: State) {
    forall id | id in s.sessions :: SessionOk(s.history, s.sessions[id], SendingTo(s, id))
  }

  /** Where a session the pass has visited stands. */
  ghost predicate Visited(s: State, id: SessionId)
    requires s.poller.Pass?
  {
    && id in s.sessions
    && (id in s.poller.droppedIds <==> s.sessions[id].lastKeySent != s.poller.key)
  }

  ghost predicate PassSound(s: State)
    requires s.history != []
  {
    s.poller.Pass? ==>
      var p := s.poller;
      && p.key == Served(s) && |p.key| == KEY_SIZE && p.at <= |p.snapshot| && Distinct(p.snapshot)
      && (p.sending ==> p.at < |p.snapshot|)
      && p.counts.sent + p.counts.upToDate + p.counts.dropped == p.at
      && (p.counts.dropped == 0 ==> p.droppedIds == {})
      && (forall i | 0 <= i < |p.snapshot| :: p.snapshot[i] in s.sessions)
      && (forall i | 0 <= i < p.at :: Visited(s, p.snapshot[i]))
      && (forall i | p.at <= i < |p.snapshot| :: p.snapshot[i] !in p.droppedIds)
      && CoversRegistered(s)
  }

  /** A registered session is in the pass, or was admitted with its key. */
  ghost predicate CoversRegistered(s: State)
    requires s.poller.Pass?
  {
    forall k | k in s.byPlatform ::
      s.byPlatform[k] in s.poller.snapshot
      || (s.byPlatform[k] in s.sessions && s.sessions[s.byPlatform[k]].lastKeySent == s.poller.key)
  }

  ghost predicate Registered(s: State) {
    forall k | k in s.byPlatform :: s.byPlatform[k] in s.sessions && s.sessions[s.byPlatform[k]].platform == k
  }

  ghost predicate Inv(s: State) {
    && s.history != [] && Registered(s)
    && SessionsSound(s) && PassSound(s)
  }

  lemma PickedAppend(history: seq<Key>, places: seq<nat>, key: Key, place: nat)
    requires forall i | 0 <= i < |places| :: places[i] < |history|
    ensures Picked(history + [key], places) == Picked(history, places)
    ensures place < |history| ==> Picked(history, places + [place]) == Picked(history, places) + [history[place]]
  {}

  lemma ServeKeepsInv(s: State, key: Key)
    requires Inv(s) && Enabled(s, Serve(key))
    ensures Inv(Next(s, Serve(key)))
  {
    var r := Next(s, Serve(key));
    forall id | id in r.sessions ensures SessionOk(r.history, r.sessions[id], None) {
      assert SessionOk(s.history, s.sessions[id], SendingTo(s, id));
      PickedAppend(s.history, s.sessions[id].versions, key, 0);
    }
  }

  lemma AdmittedOk(history: seq<Key>, platform: string, store: KeyState)
    requires history != []
    ensures SessionOk(history, NewSession(platform, history[|history| - 1], |history| - 1, store), None)
  {
    var key := history[|history| - 1];
    assert AckKeys([Ack(key)]) == [key] by { assert AckKeys([]) == []; }
    assert Picked(history, [|history| - 1]) == [key];
  }

  lemma AdmitKeepsInv(s: State, id: SessionId, platform: string, store: KeyState)
    requires Inv(s) && Enabled(s, Admit(id, platform, store))
    ensures Inv(Next(s, Admit(id, platform, store)))
  {
    AdmitKeepsSessions(s, id, platform, store);
    if s.poller.Pass? { AdmitKeepsPass(s, id, platform, store); }
  }

  lemma AdmitKeepsSessions(s: State, id: SessionId, platform: string, store: KeyState)
    requires Enabled(s, Admit(id, platform, store)) && SessionsSound(s) && PassSound(s)
    ensures SessionsSound(Next(s, Admit(id, platform, store)))
  {
    var r := Next(s, Admit(id, platform, store));
    AdmittedOk(s.history, platform, store);
    assert SendingTo(r, id).None?;
    OneSessionKeepsSound(s, r, id);
  }

  lemma AdmitKeepsPass(s: State, id: SessionId, platform: string, store: KeyState)
    requires s.poller.Pass? && Enabled(s, Admit(id, platform, store)) && PassSound(s)
    ensures PassSound(Next(s, Admit(id, platform, store)))
  {
    var r := Next(s, Admit(id, platform, store));
    forall i | 0 <= i < s.poller.at ensures Visited(r, s.poller.snapshot[i]) { assert Visited(s, s.poller.snapshot[i]); }
    assert CoversRegistered(s) && CoversRegistered(r);
  }

  lemma BeginPassKeepsInv(s: State, order: seq<SessionId>)
    requires Inv(s) && Enabled(s, BeginPass(order))
    ensures Inv(Next(s, BeginPass(order)))
  {
    var r := Next(s, BeginPass(order));
    assert forall u | u in r.sessions :: SendingTo(r, u) == SendingTo(s, u) == None;
    forall i | 0 <= i < |order| ensures order[i] in s.sessions {
      assert order[i] in s.byPlatform.Values;
    }
    forall k | k in s.byPlatform ensures s.byPlatform[k] in order {
      assert s.byPlatform[k] in s.byPlatform.Values;
    }
  }

  /** A push: the last key this session was handed is not the served one, so its
      place in the history is an earlier one. */
  lemma EnqueuedOk(history: seq<Key>, x: Session, key: Key)
    requires history != [] && key == history[|history| - 1] && SessionOk(history, x, None) && x.lastKeySent != key
    ensures SessionOk(history, x.(enqueued := x.enqueued + [Ack(key)], versions := x.versions + [|history| - 1]), Some(key))
  {
    var y := x.(enqueued := x.enqueued + [Ack(key)], versions := x.versions + [|history| - 1]);
    assert y.enqueued[..|x.enqueued|] == x.enqueued;
    assert AckKeys(y.enqueued) == AckKeys(x.enqueued) + [key];
    PickedAppend(history, x.versions, key, |history| - 1);
    var n := |x.versions|;
    assert x.versions[n - 1] < |history| - 1;
    forall i, j | 0 <= i < j < |y.versions| ensures y.versions[i] < y.versions[j] {
      if j == n && i < n - 1 { assert x.versions[i] < x.versions[n - 1]; }
    }
  }

  lemma OtherFrameOk(history: seq<Key>, x: Session, sending: Option<Key>)
    requires SessionOk(history, x, sending)
    ensures SessionOk(history, x.(enqueued := x.enqueued + [OtherFrame]), sending)
  {
    assert (x.enqueued + [OtherFrame])[..|x.enqueued|] == x.enqueued;
  }

  /** One session changes, and no send begins or ends elsewhere. */
  lemma OneSessionKeepsSound(s: State, r: State, id: SessionId)
    requires SessionsSound(s) && r.history == s.history && id in r.sessions
    requires r.sessions == s.sessions[id := r.sessions[id]]
    requires SessionOk(r.history, r.sessions[id], SendingTo(r, id))
    requires forall u | u in s.sessions && u != id :: SendingTo(r, u) == SendingTo(s, u)
    ensures SessionsSound(r)
  {
    forall u | u in r.sessions ensures SessionOk(r.history, r.sessions[u], SendingTo(r, u)) {
      if u != id { assert SessionOk(s.history, s.sessions[u], SendingTo(s, u)); }
    }
  }

  lemma EnqueueKeepsInv(s: State)
    requires Inv(s) && Enabled(s, Visit(Enqueue)) && s.sessions[Current(s)].lastKeySent != s.poller.key
    ensures Inv(Next(s, Visit(Enqueue)))
  {
    EnqueueKeepsSessions(s);
    EnqueueKeepsPass(s);
  }

  lemma EnqueueKeepsPass(s: State)
    requires Enabled(s, Visit(Enqueue)) && s.sessions[Current(s)].lastKeySent != s.poller.key
    requires Registered(s) && PassSound(s)
    ensures var r := Next(s, Visit(Enqueue)); r.history != [] && Registered(r) && PassSound(r)
  {
    RegisteredStays(s, Next(s, Visit(Enqueue)));
    PassKeepsFrame(s, Next(s, Visit(Enqueue)));
  }

  lemma EnqueueKeepsSessions(s: State)
    requires Enabled(s, Visit(Enqueue)) && s.sessions[Current(s)].lastKeySent != s.poller.key
    requires SessionsSound(s) && PassSound(s)
    ensures SessionsSound(Next(s, Visit(Enqueue)))
  {
    var r := Next(s, Visit(Enqueue));
    var id := Current(s);
    assert SendingTo(s, id).None? && SendingTo(r, id) == Some(s.poller.key);
    EnqueuedOk(s.history, s.sessions[id], s.poller.key);
    OneSessionKeepsSound(s, r, id);
  }

  /** No recorded key moved and the pass stands where it stood. */
  lemma PassKeepsFrame(s: State, r: State)
    requires s.history != [] && r.history == s.history && PassSound(s)
    requires s.poller.Pass? && r.poller.Pass? && r.poller == s.poller.(sending := r.poller.sending)
    requires r.poller.sending ==> r.poller.at < |r.poller.snapshot|
    requires forall u | u in s.sessions :: u in r.sessions && r.sessions[u].lastKeySent == s.sessions[u].lastKeySent
    requires forall k | k in r.byPlatform :: k in s.byPlatform && r.byPlatform[k] == s.byPlatform[k]
    ensures PassSound(r)
  {
    forall i | 0 <= i < r.poller.at ensures Visited(r, r.poller.snapshot[i]) { assert Visited(s, s.poller.snapshot[i]); }
    assert CoversRegistered(s);
    assert CoversRegistered(r);
  }

  /** The pass moves past its current session, which now stands as `Visited` says. */
  lemma PassAdvances(s: State, r: State)
    requires s.history != [] && r.history == s.history && PassSound(s) && r.byPlatform == s.byPlatform
    requires s.poller.Pass? && s.poller.at < |s.poller.snapshot|
    requires r.poller.Pass? && r.poller.key == s.poller.key && r.poller.snapshot == s.poller.snapshot
    requires r.poller.at == s.poller.at + 1 && !r.poller.sending
    requires r.poller.counts.sent + r.poller.counts.upToDate + r.poller.counts.dropped == r.poller.at
    requires r.poller.counts.dropped == 0 ==> r.poller.droppedIds == {}
    requires s.poller.droppedIds <= r.poller.droppedIds <= s.poller.droppedIds + {Current(s)}
    requires r.sessions.Keys == s.sessions.Keys
    requires forall u | u in s.sessions && u != Current(s) :: r.sessions[u] == s.sessions[u]
    requires Visited(r, Current(s))
    ensures PassSound(r)
  {
    var id := Current(s);
    forall i | 0 <= i < r.poller.at ensures Visited(r, r.poller.snapshot[i]) {
      if i < s.poller.at { assert Visited(s, s.poller.snapshot[i]) && s.poller.snapshot[i] != id; }
    }
    assert CoversRegistered(r) by {
      assert CoversRegistered(s) && id in s.poller.snapshot;
    }
  }

  lemma SkipKeepsInv(s: State, push: Push)
    requires Inv(s) && Enabled(s, Visit(push)) && (s.sessions[Current(s)].lastKeySent == s.poller.key || push == Drop)
    ensures Inv(Next(s, Visit(push)))
  {
    var r := Next(s, Visit(push));
    assert forall u | u in r.sessions :: SendingTo(r, u) == SendingTo(s, u) == None;
    PassAdvances(s, r);
  }

  lemma RecordKeepsInv(s: State)
    requires Inv(s) && Enabled(s, Record)
    ensures Inv(Next(s, Record))
  {
    RecordKeepsSessions(s);
    RecordKeepsPass(s);
  }

  lemma RecordKeepsSessions(s: State)
    requires Enabled(s, Record) && SessionsSound(s)
    ensures SessionsSound(Next(s, Record))
  {
    var r := Next(s, Record);
    var id := Current(s);
    assert SendingTo(s, id) == Some(s.poller.key) && SendingTo(r, id).None?;
    assert SessionOk(s.history, s.sessions[id], SendingTo(s, id));
    OneSessionKeepsSound(s, r, id);
  }

  lemma RecordKeepsPass(s: State)
    requires Enabled(s, Record) && PassSound(s)
    ensures PassSound(Next(s, Record))
  {
    PassAdvances(s, Next(s, Record));
  }

  /** Frames of other producers, the writer and disconnects leave keys alone. */
  lemma TrafficKeepsInv(s: State, r: State, id: SessionId)
    requires Inv(s) && OnlyTraffic(s, r, id) && SessionOk(s.history, r.sessions[id], SendingTo(s, id))
    ensures Inv(r)
  {
    TrafficKeepsPass(s, r, id);
    TrafficKeepsSessions(s, r, id);
  }

  /** One session changes, not in its platform or recorded key; others may leave the registry. */
  ghost predicate OnlyTraffic(s: State, r: State, id: SessionId) {
    && id in s.sessions && id in r.sessions && r.history == s.history && r.poller == s.poller
    && r.sessions == s.sessions[id := r.sessions[id]]
    && r.sessions[id].platform == s.sessions[id].platform
    && r.sessions[id].lastKeySent == s.sessions[id].lastKeySent
    && forall k | k in r.byPlatform :: k in s.byPlatform && r.byPlatform[k] == s.byPlatform[k]
  }

  lemma TrafficKeepsPass(s: State, r: State, id: SessionId)
    requires s.history != [] && Registered(s) && PassSound(s) && OnlyTraffic(s, r, id)
    ensures Registered(r) && PassSound(r)
  {
    RegisteredStays(s, r);
    if s.poller.Pass? { PassKeepsFrame(s, r); }
  }

  lemma TrafficKeepsSessions(s: State, r: State, id: SessionId)
    requires SessionsSound(s) && OnlyTraffic(s, r, id) && SessionOk(s.history, r.sessions[id], SendingTo(s, id))
    ensures SessionsSound(r)
  {
    assert forall u :: SendingTo(r, u) == SendingTo(s, u);
    OneSessionKeepsSound(s, r, id);
  }

  lemma RegisteredStays(s: State, r: State)
    requires Registered(s)
    requires forall u | u in s.sessions :: u in r.sessions && r.sessions[u].platform == s.sessions[u].platform
    requires forall k | k in r.byPlatform :: k in s.byPlatform && r.byPlatform[k] == s.byPlatform[k]
    ensures Registered(r)
  {
  }

  lemma StepKeepsInv(s: State, a: Action)
    requires Inv(s) && Enabled(s, a)
    ensures Inv(Next(s, a))
  {
    match a
    case Serve(key) => ServeKeepsInv(s, key);
    case Admit(id, platform, store) => AdmitKeepsInv(s, id, platform, store);
    case BeginPass(order) => BeginPassKeepsInv(s, order);
    case Visit(push) =>
      if push == Enqueue && s.sessions[Current(s)].lastKeySent != s.poller.key { EnqueueKeepsInv(s); }
      else { SkipKeepsInv(s, push); }
    case Record => RecordKeepsInv(s);
    case EndPass => EndPassKeepsInv(s);
    case OtherProducer(id) => OtherTrafficKeepsInv(s, a, id);
    case WriterTakes(id) => OtherTrafficKeepsInv(s, a, id);
    case Delivers(id, _) => OtherTrafficKeepsInv(s, a, id);
    case Disconnect(id) => OtherTrafficKeepsInv(s, a, id);
  }

  lemma EndPassKeepsInv(s: State)
    requires Inv(s) && Enabled(s, EndPass)
    ensures Inv(Next(s, EndPass))
  {
    assert forall u | u in s.sessions :: SendingTo(Next(s, EndPass), u) == SendingTo(s, u) == None;
  }

  lemma OtherTrafficKeepsInv(s: State, a: Action, id: SessionId)
    requires Inv(s) && Enabled(s, a)
    requires a == OtherProducer(id) || a == WriterTakes(id) || a == Disconnect(id) || (a.Delivers? && a.id == id)
    ensures Inv(Next(s, a))
  {
    TrafficFrame(s, a, id);
    assert SessionOk(s.history, s.sessions[id], SendingTo(s, id));
    TrafficOk(s, a, id);
    TrafficKeepsInv(s, Next(s, a), id);
  }

  lemma TrafficFrame(s: State, a: Action, id: SessionId)
    requires Enabled(s, a)
    requires a == OtherProducer(id) || a == WriterTakes(id) || a == Disconnect(id) || (a.Delivers? && a.id == id)
    ensures OnlyTraffic(s, Next(s, a), id)
  {
  }

  lemma TrafficOk(s: State, a: Action, id: SessionId)
    requires Enabled(s, a)
    requires a == OtherProducer(id) || a == WriterTakes(id) || a == Disconnect(id) || (a.Delivers? && a.id == id)
    requires SessionOk(s.history, s.sessions[id], SendingTo(s, id))
    ensures SessionOk(s.history, Next(s, a).sessions[id], SendingTo(s, id))
  {
    if a.OtherProducer? { OtherFrameOk(s.history, s.sessions[id], SendingTo(s, id)); }
  }

  lemma {:induction false} RunKeepsInv(states: seq<State>, actions: seq<Action>, n: nat)
    requires IsRun(states, actions) && Init(states[0]) && n < |states|
    ensures Inv(states[n])
  {
    if n == 0 {
    } else {
      RunKeepsInv(states, actions, n - 1);
      StepKeepsInv(states[n - 1], actions[n - 1]);
    }
  }

  // ----- what every session is handed -----

  /** In every reachable state the keys a session's acks carry are an order-preserving
      subsequence of the served-key history, and the recorded key is the last of them
      except between a push and its record. */
  lemma AcksAreSubsequenceOfHistory(states: seq<State>, actions: seq<Action>, n: nat, id: SessionId)
    returns (places: seq<nat>)
    requires IsRun(states, actions) && Init(states[0]) && n < |states| && id in states[n].sessions
    ensures forall i | 0 <= i < |places| :: places[i] < |states[n].history|
    ensures forall i, j | 0 <= i < j < |places| :: places[i] < places[j]
    ensures AckKeys(states[n].sessions[id].enqueued) == Picked(states[n].history, places)
    ensures !IsSending(states[n], id) ==>
              places != [] && states[n].sessions[id].lastKeySent == states[n].history[places[|places| - 1]]
  {
    RunKeepsInv(states, actions, n);
    assert SessionOk(states[n].history, states[n].sessions[id], SendingTo(states[n], id));
    places := states[n].sessions[id].versions;
  }

  // ----- propagation converges -----

  /** The end of a pass: its counts add up to the sessions it snapshotted, a session
      was dropped exactly if it still lacks the served key (so the next pass pushes
      it again), and without drops every registered session has been handed it. */
  lemma PassReportsEverySession(states: seq<State>, actions: seq<Action>, n: nat)
    requires IsRun(states, actions) && Init(states[0]) && n < |actions| && actions[n] == EndPass
    ensures states[n].poller.Pass? && states[n].history != []
    ensures var c := states[n].poller.counts; c.sent + c.upToDate + c.dropped == |states[n].poller.snapshot|
    ensures forall i | 0 <= i < |states[n].poller.snapshot| ::
              var id := states[n].poller.snapshot[i];
              && id in states[n].sessions
              && (id in states[n].poller.droppedIds <==> states[n].sessions[id].lastKeySent != Served(states[n]))
    ensures states[n].poller.counts.dropped == 0 ==> Converged(states[n + 1])
  {
    RunKeepsInv(states, actions, n);
    var s := states[n];
    assert Enabled(s, actions[n]) && states[n + 1] == Next(s, actions[n]);
    forall i | 0 <= i < |s.poller.snapshot|
      ensures s.poller.snapshot[i] in s.sessions
              && (s.poller.snapshot[i] in s.poller.droppedIds
                  <==> s.sessions[s.poller.snapshot[i]].lastKeySent != Served(s))
    {
      assert Visited(s, s.poller.snapshot[i]);
    }
  }

  /** Every registered session was handed the served key, and so was every session
      of a pass in progress, which has pushed and dropped nothing. */
  ghost predicate Converged(s: State) {
    && s.history != [] && |Served(s)| == KEY_SIZE
    && (forall k | k in s.byPlatform ::
          s.byPlatform[k] in s.sessions && s.sessions[s.byPlatform[k]].lastKeySent == Served(s))
    && (s.poller.Pass? ==>
          && s.poller.key == Served(s) && !s.poller.sending && s.poller.counts.sent == 0 && s.poller.counts.dropped == 0
          && forall i | 0 <= i < |s.poller.snapshot| ::
               s.poller.snapshot[i] in s.sessions && s.sessions[s.poller.snapshot[i]].lastKeySent == Served(s))
  }

  lemma StepKeepsConverged(s: State, a: Action)
    requires Converged(s) && Enabled(s, a) && !a.Serve?
    ensures Converged(Next(s, a)) && Served(Next(s, a)) == Served(s)
    ensures a.EndPass? ==> Next(s, a).poller.result.sent == 0 && Next(s, a).poller.result.dropped == 0
  {
    if a.BeginPass? {
      forall i | 0 <= i < |a.order|
        ensures a.order[i] in s.sessions && s.sessions[a.order[i]].lastKeySent == Served(s)
      {
        assert a.order[i] in s.byPlatform.Values;
      }
    }
  }

  /** Once converged, until another key is served, every later pass sends nothing and
      drops nothing, whatever admissions, disconnects and traffic come between. */
  lemma {:induction false} ConvergedPassesSendNothing(states: seq<State>, actions: seq<Action>, m: nat, n: nat)
    requires IsRun(states, actions) && m <= n < |states| && Converged(states[m])
    requires forall i | m <= i < n :: !actions[i].Serve?
    ensures Converged(states[n]) && Served(states[n]) == Served(states[m])
    ensures n < |actions| && actions[n].EndPass? ==>
              states[n + 1].poller.result.sent == 0 && states[n + 1].poller.result.dropped == 0
  {
    if m < n {
      ConvergedPassesSendNothing(states, actions, m, n - 1);
      StepKeepsConverged(states[n - 1], actions[n - 1]);
    }
    if n < |actions| && actions[n].EndPass? {
      assert Enabled(states[n], actions[n]) && states[n + 1] == Next(states[n], actions[n]);
      StepKeepsConverged(states[n], actions[n]);
    }
  }

  // ----- the probe's end of the channel -----

  /** The current key once these frames are installed over `prior`: that of the last ack
      whose key has the right size. */
  function CurrentAfter(prior: Option<Key>, frames: seq<Frame>): Option<Key> {
    if frames == [] then prior
    else
      var f := frames[|frames| - 1];
      if f.Ack? && |f.key| == KEY_SIZE then Some(f.key) else CurrentAfter(prior, frames[..|frames| - 1])
  }

  /** The probe's current key is the one its delivered frames leave. */
  predicate ProbeOk(x: Session) {
    x.delivered <= x.taken <= |x.enqueued| && x.probe.current == CurrentAfter(x.prior, x.enqueued[..x.delivered])
  }

  ghost predicate ProbesOk(s: State) { forall id | id in s.sessions :: ProbeOk(s.sessions[id]) }

  lemma ReceiveKeepsProbe(x: Session, now: Time)
    requires ProbeOk(x) && x.delivered < x.taken
    ensures ProbeOk(Receive(x, now))
  {
    assert x.enqueued[..x.delivered + 1][..x.delivered] == x.enqueued[..x.delivered];
  }

  lemma EnqueueKeepsProbe(x: Session, y: Session, f: Frame)
    requires ProbeOk(x) && y.enqueued == x.enqueued + [f]
    requires y.delivered == x.delivered && y.taken == x.taken && y.prior == x.prior && y.probe == x.probe
    ensures ProbeOk(y)
  {
    assert y.enqueued[..y.delivered] == x.enqueued[..x.delivered];
  }

  lemma StepKeepsProbes(s: State, a: Action)
    requires ProbesOk(s) && Enabled(s, a)
    ensures ProbesOk(Next(s, a))
  {
    var r := Next(s, a);
    forall id | id in r.sessions ensures ProbeOk(r.sessions[id]) {
      if id in s.sessions && r.sessions[id].enqueued != s.sessions[id].enqueued {
        EnqueueKeepsProbe(s.sessions[id], r.sessions[id], r.sessions[id].enqueued[|s.sessions[id].enqueued|]);
      } else if a.Delivers? && a.id == id {
        ReceiveKeepsProbe(s.sessions[id], a.now);
      }
    }
  }

  lemma {:induction false} RunKeepsProbes(states: seq<State>, actions: seq<Action>, n: nat)
    requires IsRun(states, actions) && Init(states[0]) && n < |states|
    ensures ProbesOk(states[n])
  {
    if n == 0 {
    } else {
      RunKeepsProbes(states, actions, n - 1);
      StepKeepsProbes(states[n - 1], actions[n - 1]);
    }
  }

  lemma {:induction false} LastAckIsCurrent(prior: Option<Key>, frames: seq<Frame>)
    requires AckKeys(frames) != [] && |AckKeys(frames)[|AckKeys(frames)| - 1]| == KEY_SIZE
    ensures CurrentAfter(prior, frames) == Some(AckKeys(frames)[|AckKeys(frames)| - 1])
  {
    if frames[|frames| - 1].Ack? {
    } else {
      LastAckIsCurrent(prior, frames[..|frames| - 1]);
    }
  }

  /** In every reachable state a probe's current key is that of the last usable ack
      delivered to it; and once a converged session has nothing left to deliver, it is
      the served key, whatever the probe held before. */
  lemma ProbeHoldsServedKey(states: seq<State>, actions: seq<Action>, n: nat, platform: string)
    requires IsRun(states, actions) && Init(states[0]) && n < |states| && Converged(states[n])
    requires platform in states[n].byPlatform
    ensures var x := states[n].sessions[states[n].byPlatform[platform]];
            && x.delivered <= |x.enqueued| && x.probe.current == CurrentAfter(x.prior, x.enqueued[..x.delivered])
            && (x.delivered == |x.enqueued| ==> x.probe.current == Some(Served(states[n])))
  {
    var id := states[n].byPlatform[platform];
    var places := AcksAreSubsequenceOfHistory(states, actions, n, id);
    RunKeepsProbes(states, actions, n);
    var x := states[n].sessions[id];
    assert ProbeOk(x);
    var keys := AckKeys(x.enqueued);
    assert keys[|keys| - 1] == Served(states[n]);
    LastAckIsCurrent(x.prior, x.enqueued);
    assert x.enqueued[..|x.enqueued|] == x.enqueued;
  }

  // ----- dropped pushes are made up for -----

  lemma StepGrowsFrames(s: State, a: Action, id: SessionId)
    requires Enabled(s, a) && id in s.sessions
    ensures id in Next(s, a).sessions && s.sessions[id].enqueued <= Next(s, a).sessions[id].enqueued
  {
  }

  lemma {:induction false} FramesGrow(states: seq<State>, actions: seq<Action>, m: nat, n: nat, id: SessionId)
    requires IsRun(states, actions) && m <= n < |states| && id in states[m].sessions
    ensures id in states[n].sessions && states[m].sessions[id].enqueued <= states[n].sessions[id].enqueued
  {
    if m == n {
    } else {
      FramesGrow(states, actions, m, n - 1, id);
      StepGrowsFrames(states[n - 1], actions[n - 1], id);
    }
  }

  /** A session dropped by one pass and not by a later one that saw it was handed the key
      then served; if that is still the key it was dropped for, by a frame enqueued in
      between. */
  lemma DroppedSessionIsMadeUpFor(states: seq<State>, actions: seq<Action>, m: nat, n: nat, id: SessionId)
    requires IsRun(states, actions) && Init(states[0]) && m < n < |actions|
    requires actions[m] == EndPass && actions[n] == EndPass && states[m].poller.Pass? && states[n].poller.Pass?
    requires id in states[m].poller.snapshot && id in states[m].poller.droppedIds
    requires id in states[n].poller.snapshot && id !in states[n].poller.droppedIds
    ensures states[m].history != [] && states[n].history != [] && id in states[m].sessions && id in states[n].sessions
    ensures states[n].sessions[id].lastKeySent == Served(states[n])
    ensures Served(states[m]) == Served(states[n]) ==>
              AckKeys(states[n].sessions[id].enqueued) != AckKeys(states[m].sessions[id].enqueued)
              && |states[m].sessions[id].enqueued| < |states[n].sessions[id].enqueued|
  {
    PassReportsEverySession(states, actions, m);
    PassReportsEverySession(states, actions, n);
    FramesGrow(states, actions, m, n, id);
    assert Enabled(states[m], actions[m]) && Enabled(states[n], actions[n]);
    LastAckAtPassEnd(states, actions, m, id);
    LastAckAtPassEnd(states, actions, n, id);
    SamePrefix(states[m].sessions[id].enqueued, states[n].sessions[id].enqueued);
  }

  lemma SamePrefix(a: seq<Frame>, b: seq<Frame>)
    requires a <= b
    ensures |a| == |b| ==> a == b
  {
    assert b[..|a|] == a;
  }

  lemma LastAckAtPassEnd(states: seq<State>, actions: seq<Action>, n: nat, id: SessionId)
    requires IsRun(states, actions) && Init(states[0]) && n < |actions| && actions[n] == EndPass && id in states[n].sessions
    ensures var keys := AckKeys(states[n].sessions[id].enqueued);
            keys != [] && keys[|keys| - 1] == states[n].sessions[id].lastKeySent
  {
    assert Enabled(states[n], actions[n]);
    var places := AcksAreSubsequenceOfHistory(states, actions, n, id);
  }
}
