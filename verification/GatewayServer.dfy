/** The gateway server object: its session handles, admission, and one propagation
    pass run without interruption. The interleaved behaviour of the same operations
    is KeyPropagation's. */
module GatewayServer {
  import opened Wrappers
  import opened SigningKeys
  import opened KeyPropagation

  class SessionHandle {
    const platform: string
    var outbound: seq<Frame>
    var done: bool
    var lastKeySent: Key // empty for nil

    constructor (platform: string)
      ensures this.platform == platform && outbound == [] && !done && lastKeySent == []
    {
      this.platform := platform;
      outbound, done, lastKeySent := [], false, [];
    }

    method RecordKeySent(key: Key)
      modifies this`lastKeySent
      ensures lastKeySent == key
    {
      lastKeySent := key;
    }

    /** The non-blocking select of a push: a closed session may still take the frame. */
    method TrySend(frame: Frame) returns (sent: bool)
      modifies this`outbound
      ensures sent ==> |old(outbound)| < OUTBOUND_BUFFER && outbound == old(outbound) + [frame]
      ensures !sent ==> outbound == old(outbound) && (done || |outbound| >= OUTBOUND_BUFFER)
    {
      sent := |outbound| < OUTBOUND_BUFFER;
      if sent && done {
        if * { sent := false; }
      }
      if sent { outbound := outbound + [frame]; }
    }
  }

  class Server {
    var sessions: map<string, SessionHandle>
    var signingPublicKey: Key

    constructor (key: Key)
      ensures signingPublicKey == key && sessions == map[]
    {
      signingPublicKey, sessions := key, map[];
    }

    ghost predicate Valid()
      reads this, sessions.Values
    {
      forall p | p in sessions :: sessions[p].platform == p
    }

    method SetSigningPublicKey(key: Key)
      modifies this`signingPublicKey
      ensures signingPublicKey == key
    {
      signingPublicKey := key;
    }

    /** The ack's key and the recorded key are the same, for any key served. */
    method AdmitSession(platform: string, h: SessionHandle)
      requires Valid() && h.platform == platform && h.outbound == []
      requires forall p | p in sessions :: sessions[p] != h
      modifies this`sessions, h
      ensures Valid() && sessions == old(sessions)[platform := h]
      ensures h.outbound == [Ack(signingPublicKey)] && h.lastKeySent == signingPublicKey && h.done == old(h.done)
    {
      var key := signingPublicKey;
      h.RecordKeySent(key);
      h.outbound := h.outbound + [Ack(key)];
      sessions := sessions[platform := h];
    }

    /** The session handles, in some order. */
    method Handles() returns (handles: seq<SessionHandle>)
      requires Valid()
      ensures |handles| == |sessions|
      ensures forall i, j | 0 <= i < j < |handles| :: handles[i] != handles[j]
      ensures forall i | 0 <= i < |handles| :: handles[i] in sessions.Values
      ensures forall h | h in sessions.Values :: h in handles
    {
      handles := [];
      var todo := sessions.Keys;
      while todo != {}
        invariant todo <= sessions.Keys && |handles| + |todo| == |sessions|
        invariant forall i | 0 <= i < |handles| ::
                    handles[i].platform in sessions && handles[i].platform !in todo
                    && sessions[handles[i].platform] == handles[i]
        invariant forall i, j | 0 <= i < j < |handles| :: handles[i] != handles[j]
        invariant forall k | k in sessions && k !in todo :: sessions[k] in handles
        decreases todo
      {
        var k :| k in todo;
        todo := todo - {k};
        handles := handles + [sessions[k]];
      }
    }

    /** A pass: every session is up to date, pushed, or dropped for a full buffer or a
        closed session; without drops all hold the served key; and if all held it
        already nothing is sent. */
    method PropagateSigningKey() returns (p: Counts)
      requires Valid()
      modifies sessions.Values
      ensures |signingPublicKey| != KEY_SIZE ==>
                p == Counts(0, 0, 0)
                && forall h | h in sessions.Values :: h.outbound == old(h.outbound) && h.lastKeySent == old(h.lastKeySent)
      ensures |signingPublicKey| == KEY_SIZE ==>
                && p.sent + p.upToDate + p.dropped == |sessions|
                && (forall h | h in sessions.Values :: Propagated(h, signingPublicKey))
                && (p.dropped == 0 <==> forall h | h in sessions.Values :: h.lastKeySent == signingPublicKey)
                && (p.sent == 0 && p.dropped == 0
                    <==> forall h | h in sessions.Values :: old(h.lastKeySent) == signingPublicKey)
    {
      var key := signingPublicKey;
      if |key| != KEY_SIZE { return Counts(0, 0, 0); }
      var handles := Handles();
      p := PushAll(handles, key);
    }
  }

  /** The pass over the handles it collected. */
  method PushAll(handles: seq<SessionHandle>, key: Key) returns (p: Counts)
    requires forall i, j | 0 <= i < j < |handles| :: handles[i] != handles[j]
    modifies handles
    ensures p.sent + p.upToDate + p.dropped == |handles|
    ensures forall h | h in handles :: Propagated(h, key)
    ensures p.dropped == 0 <==> forall h | h in handles :: h.lastKeySent == key
    ensures p.sent == 0 && p.dropped == 0 <==> forall h | h in handles :: old(h.lastKeySent) == key
  {
    p := Counts(0, 0, 0);
    for i := 0 to |handles|
      invariant p.sent + p.upToDate + p.dropped == i
      invariant forall j | i <= j < |handles| :: Untouched(handles[j])
      invariant forall j | 0 <= j < i :: Propagated(handles[j], key)
      invariant p.dropped == 0 <==> forall j | 0 <= j < i :: handles[j].lastKeySent == key
      invariant p.sent == 0 && p.dropped == 0 <==> forall j | 0 <= j < i :: old(handles[j].lastKeySent) == key
    {
      var pushed := PushTo(handles[i], key);
      p := match pushed
           case Sent => p.(sent := p.sent + 1)
           case UpToDate => p.(upToDate := p.upToDate + 1)
           case Dropped => p.(dropped := p.dropped + 1);
    }
  }

  twostate predicate Untouched(h: SessionHandle)
    reads h
  {
    h.outbound == old(h.outbound) && h.lastKeySent == old(h.lastKeySent) && h.done == old(h.done)
  }

  /** What one session looks like after a pass for `key`. */
  twostate predicate Propagated(h: SessionHandle, key: Key)
    reads h
  {
    && h.done == old(h.done)
    && if old(h.lastKeySent) == key then h.outbound == old(h.outbound) && h.lastKeySent == key
       else if h.lastKeySent == key then h.outbound == old(h.outbound) + [Ack(key)]
       else h.outbound == old(h.outbound) && h.lastKeySent == old(h.lastKeySent)
            && (h.done || |h.outbound| >= OUTBOUND_BUFFER)
  }

  datatype Pushed = Sent | UpToDate | Dropped

  /** One turn of the pass. */
  method PushTo(h: SessionHandle, key: Key) returns (r: Pushed)
    modifies h
    ensures Propagated(h, key)
    ensures r == UpToDate <==> old(h.lastKeySent) == key
    ensures r == Dropped <==> h.lastKeySent != key
  {
    if h.lastKeySent == key { return UpToDate; }
    var sent := h.TrySend(Ack(key));
    if !sent { return Dropped; }
    h.RecordKeySent(key);
    return Sent;
  }
}
