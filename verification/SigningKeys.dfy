/** The two holders of the control plane's signing public key: the probe's KeyStore
    and the gateway's sidecar Reader, each with a rotation grace window. */
module SigningKeys {
  import opened Wrappers

  type Key = seq<byte>
  type Time = int

  const KEY_SIZE := 32

  datatype KeyState = KeyState(current: Option<Key>, previous: Option<Key>, rotatedAt: Time)

  const NO_KEYS := KeyState(None, None, 0)

  datatype KeyRing = KeyRing(current: Option<Key>, previous: Option<Key>)

  // ----- the probe's store -----

  function Installed(s: KeyState, key: Key, now: Time): KeyState {
    if |key| != KEY_SIZE || s.current == Some(key) then s
    else if s.current.None? then s.(current := Some(key))
    else KeyState(Some(key), s.current, now)
  }

  function RingAt(s: KeyState, grace: Time, now: Time): KeyRing {
    KeyRing(s.current,
            if s.previous.Some? && grace > 0 && now - s.rotatedAt <= grace then s.previous else None)
  }

  class KeyStore {
    const grace: Time
    var current: Option<Key>
    var previous: Option<Key>
    var rotatedAt: Time

    ghost function View(): KeyState
      reads this
    {
      KeyState(current, previous, rotatedAt)
    }

    constructor (grace: Time)
      ensures this.grace == grace && View() == NO_KEYS
    {
      this.grace := grace;
      current, previous, rotatedAt := None, None, 0;
    }

    method Install(key: Key, now: Time) returns (rotated: bool)
      modifies this
      ensures View() == Installed(old(View()), key, now)
      ensures rotated <==> old(current).Some? && current != old(current)
    {
      if |key| != KEY_SIZE { return false; }
      if current == Some(key) { return false; }
      if current.None? {
        current := Some(key);
        return false;
      }
      previous := current;
      current := Some(key);
      rotatedAt := now;
      return true;
    }

    method Ring(now: Time) returns (ring: KeyRing)
      ensures ring == RingAt(View(), grace, now)
    {
      var prev: Option<Key> := None;
      if previous.Some? && grace > 0 && now - rotatedAt <= grace { prev := previous; }
      ring := KeyRing(current, prev);
    }
  }

  // ----- the gateway's reader -----

  function Loaded(s: KeyState, decoded: Key, now: Time): KeyState {
    if |decoded| != KEY_SIZE then s
    else
      var rotates := s.current.Some? && s.current.value != decoded;
      KeyState(Some(decoded), if rotates then s.current else s.previous, if rotates then now else s.rotatedAt)
  }

  function PreviousAt(s: KeyState, grace: Time, now: Time): Option<Key> {
    if s.previous.None? || now - s.rotatedAt > grace then None else s.previous
  }

  class Reader {
    const grace: Time
    var current: Option<Key>
    var previous: Option<Key>
    var rotated: Time

    ghost function View(): KeyState
      reads this
    {
      KeyState(current, previous, rotated)
    }

    constructor (grace: Time)
      ensures this.grace == grace && View() == NO_KEYS
    {
      this.grace := grace;
      current, previous, rotated := None, None, 0;
    }

    /** `file` is the decoded sidecar; None when reading or decoding it failed. */
    method Load(file: Option<Key>, now: Time) returns (ok: bool)
      modifies this
      ensures View() == if file.None? then old(View()) else Loaded(old(View()), file.value, now)
      ensures ok <==> file.Some? && |file.value| == KEY_SIZE
    {
      if file.None? { return false; }
      if |file.value| != KEY_SIZE { return false; }
      if current.Some? && current.value != file.value {
        previous := current;
        rotated := now;
      }
      current := file;
      return true;
    }

    method Previous(now: Time) returns (key: Option<Key>)
      ensures key == PreviousAt(View(), grace, now)
    {
      if previous.None? { return None; }
      if now - rotated > grace { return None; }
      return previous;
    }
  }

  // ----- histories of presented keys -----

  /** One presented key, of any length, and when it was presented. */
  datatype Presented = Presented(key: Key, at: Time)

  function StoreAfter(h: seq<Presented>): KeyState {
    if h == [] then NO_KEYS else Installed(StoreAfter(h[..|h| - 1]), h[|h| - 1].key, h[|h| - 1].at)
  }

  function ReaderAfter(h: seq<Presented>): KeyState {
    if h == [] then NO_KEYS else Loaded(ReaderAfter(h[..|h| - 1]), h[|h| - 1].key, h[|h| - 1].at)
  }

  predicate InOrder(h: seq<Presented>) { forall i, j | 0 <= i < j < |h| :: h[i].at <= h[j].at }

  predicate Usable(p: Presented) { |p.key| == KEY_SIZE }

  /** Reference reading of a history: the last usable key presented. */
  function LastUsable(h: seq<Presented>): Option<nat> {
    if h == [] then None
    else if Usable(h[|h| - 1]) then Some(|h| - 1) else LastUsable(h[..|h| - 1])
  }

  /** The last usable presentation of some other key. */
  function LastOther(h: seq<Presented>, key: Key): Option<nat> {
    if h == [] then None
    else if Usable(h[|h| - 1]) && h[|h| - 1].key != key then Some(|h| - 1) else LastOther(h[..|h| - 1], key)
  }

  /** The first usable presentation from index `i` on. */
  function FirstUsableFrom(h: seq<Presented>, i: nat): Option<nat>
    requires i <= |h|
    decreases |h| - i
  {
    if i == |h| then None else if Usable(h[i]) then Some(i) else FirstUsableFrom(h, i + 1)
  }

  /** The reference state: current is the last usable key; previous the last usable
      key that differs from it; the rotation is dated by the first usable
      presentation after that one. */
  ghost predicate Reference(h: seq<Presented>, s: KeyState) {
    match LastUsable(h)
    case None => s.current.None? && s.previous.None?
    case Some(i) =>
      && i < |h| && s.current == Some(h[i].key)
      && match LastOther(h, h[i].key)
         case None => s.previous.None?
         case Some(j) =>
           && j < |h| && s.previous == Some(h[j].key)
           && var k := FirstUsableFrom(h, j + 1);
           k.Some? && k.value < |h| && s.rotatedAt == h[k.value].at
  }

  lemma {:induction false} LastUsableIn(h: seq<Presented>)
    ensures LastUsable(h).Some? ==> LastUsable(h).value < |h| && Usable(h[LastUsable(h).value])
  {
    if h == [] {
    } else {
      LastUsableIn(h[..|h| - 1]);
    }
  }

  lemma {:induction false} LastOtherIn(h: seq<Presented>, key: Key)
    ensures LastOther(h, key).Some? ==>
              LastOther(h, key).value < |h| && Usable(h[LastOther(h, key).value]) && h[LastOther(h, key).value].key != key
  {
    if h == [] {
    } else {
      LastOtherIn(h[..|h| - 1], key);
    }
  }

  lemma {:induction false} FirstUsableExtends(h: seq<Presented>, p: Presented, i: nat)
    requires i <= |h|
    ensures FirstUsableFrom(h, i).Some? ==> FirstUsableFrom(h + [p], i) == FirstUsableFrom(h, i)
                                            && FirstUsableFrom(h, i).value < |h|
    ensures FirstUsableFrom(h, i).None? ==> FirstUsableFrom(h + [p], i) == if Usable(p) then Some(|h|) else None
    decreases |h| - i
  {
    if i < |h| { FirstUsableExtends(h, p, i + 1); }
    else { assert FirstUsableFrom(h + [p], i + 1) == None; }
  }

  /** If every usable presentation differs from `key`, the last of them is the last usable one. */
  lemma {:induction false} LastOtherOfNewKey(h: seq<Presented>, key: Key)
    requires LastUsable(h).Some? ==> LastUsable(h).value < |h| && h[LastUsable(h).value].key != key
    ensures LastOther(h, key) == LastUsable(h)
  {
    LastUsableIn(h);
    if h != [] && !Usable(h[|h| - 1]) {
      LastUsableIn(h[..|h| - 1]);
      LastOtherOfNewKey(h[..|h| - 1], key);
    }
  }

  lemma {:induction false} NothingUsableAfterLast(h: seq<Presented>, i: nat)
    requires i <= |h| && (LastUsable(h).Some? ==> LastUsable(h).value < i)
    ensures FirstUsableFrom(h, i) == None
    decreases |h| - i
  {
    if i < |h| {
      UsableBoundsLast(h, i);
      NothingUsableAfterLast(h, i + 1);
    }
  }

  lemma {:induction false} UsableBoundsLast(h: seq<Presented>, i: nat)
    requires i < |h|
    ensures Usable(h[i]) ==> LastUsable(h).Some? && i <= LastUsable(h).value
  {
    if i < |h| - 1 { UsableBoundsLast(h[..|h| - 1], i); }
  }

  /** Over every history the store holds exactly what the reference reads off it:
      presenting the same key again moves nothing, and a returning key is a rotation. */
  lemma {:induction false} StoreMatchesReference(h: seq<Presented>)
    ensures Reference(h, StoreAfter(h))
  {
    if h == [] {
    } else {
      var g, p := h[..|h| - 1], h[|h| - 1];
      assert h == g + [p];
      StoreMatchesReference(g);
      LastUsableIn(g);
      var s := StoreAfter(g);
      if Usable(p) {
        if s.current == Some(p.key) {
          LastOtherIn(g, p.key);
          if LastOther(g, p.key).Some? { FirstUsableExtends(g, p, LastOther(g, p.key).value + 1); }
        } else {
          LastOtherOfNewKey(g, p.key);
          if LastUsable(g).Some? {
            NothingUsableAfterLast(g, LastUsable(g).value + 1);
            FirstUsableExtends(g, p, LastUsable(g).value + 1);
          }
        }
      } else if LastUsable(g).Some? {
        var key := g[LastUsable(g).value].key;
        LastOtherIn(g, key);
        if LastOther(g, key).Some? { FirstUsableExtends(g, p, LastOther(g, key).value + 1); }
      }
    }
  }

  lemma {:induction false} StatesAgree(h: seq<Presented>)
    ensures StoreAfter(h) == ReaderAfter(h)
  {
    if h == [] {
    } else {
      StatesAgree(h[..|h| - 1]);
    }
  }

  lemma {:induction false} RotationIsPast(h: seq<Presented>, now: Time)
    requires InOrder(h) && (h != [] ==> h[|h| - 1].at <= now) && 0 <= now
    ensures StoreAfter(h).rotatedAt <= now
  {
    if h == [] {
    } else {
      var g := h[..|h| - 1];
      if g != [] { assert g[|g| - 1].at <= h[|h| - 1].at; }
      RotationIsPast(g, now);
    }
  }

  /** The presentation that made the last key current: the first usable one behind the
      last usable presentation of another key. None without a second usable key. */
  function Rotation(h: seq<Presented>): (r: Option<nat>)
    ensures r.Some? ==> r.value < |h|
  {
    match LastUsable(h)
    case None => None
    case Some(i) =>
      if i >= |h| then None
      else
        match LastOther(h, h[i].key)
        case None => None
        case Some(j) =>
          if j >= |h| then None
          else
            match FirstUsableFrom(h, j + 1)
            case None => None
            case Some(k) => if k < |h| then Some(k) else None
  }

  lemma {:induction false} RotationIsInHistory(h: seq<Presented>)
    ensures StoreAfter(h).previous.Some? <==> Rotation(h).Some?
    ensures Rotation(h).Some? ==> StoreAfter(h).rotatedAt == h[Rotation(h).value].at
  {
    StoreMatchesReference(h);
    LastUsableIn(h);
    if LastUsable(h).Some? { LastOtherIn(h, h[LastUsable(h).value].key); }
  }

  /** Store and reader, given the same keys in time order, name the same current key
      always, and the same previous key at an instant if and only if the window is not
      zero, no second key was ever presented, or the instant is not the one at which
      the last key was first presented behind another. */
  lemma {:induction false} StoreAndReaderAgreeExactly(h: seq<Presented>, grace: Time, now: Time)
    requires InOrder(h) && (h != [] ==> h[|h| - 1].at <= now) && 0 <= now
    ensures RingAt(StoreAfter(h), grace, now).current == ReaderAfter(h).current
    ensures RingAt(StoreAfter(h), grace, now).previous == PreviousAt(ReaderAfter(h), grace, now)
            <==> !(grace == 0 && Rotation(h).Some? && now == h[Rotation(h).value].at)
  {
    StatesAgree(h);
    RotationIsPast(h, now);
    RotationIsInHistory(h);
  }

  /** Two keys at times 0 and 5 and no grace: at time 5 the reader still offers the first
      key and the store does not. */
  lemma ZeroGraceTellsThemApart() returns (h: seq<Presented>)
    ensures InOrder(h) && |h| == 2 && h[1].at == 5
    ensures RingAt(StoreAfter(h), 0, 5).previous == None && PreviousAt(ReaderAfter(h), 0, 5) == Some(h[0].key)
  {
    var a, b := Presented(seq(KEY_SIZE, _ => 1), 0), Presented(seq(KEY_SIZE, _ => 2), 5);
    h := [a, b];
    assert a.key[0] != b.key[0] && h[..1] == [a] && h[..1][..0] == [];
    assert StoreAfter([a]) == Installed(NO_KEYS, a.key, 0) && ReaderAfter([a]) == Loaded(NO_KEYS, a.key, 0);
  }

  /** The current key is never also the previous one. */
  lemma {:induction false} CurrentIsNotPrevious(h: seq<Presented>)
    ensures var s := StoreAfter(h); s.previous.Some? ==> s.current.Some? && s.current != s.previous
  {
    StoreMatchesReference(h);
    LastUsableIn(h);
    if LastUsable(h).Some? { LastOtherIn(h, h[LastUsable(h).value].key); }
  }

  lemma {:induction false} SameStateAfterRepeats(h: seq<Presented>, again: seq<Presented>)
    requires StoreAfter(h).current.Some?
    requires forall i | 0 <= i < |again| :: again[i].key == StoreAfter(h).current.value
    ensures StoreAfter(h + again) == StoreAfter(h)
  {
    if again == [] { assert h + again == h; }
    else {
      SameStateAfterRepeats(h, again[..|again| - 1]);
      assert (h + again)[..|h + again| - 1] == h + again[..|again| - 1];
    }
  }

  /** Presenting the current key again, any number of times, never extends the grace
      of the previous one: its last honoured instant is fixed by the rotation. */
  lemma RepeatsNeverExtendGrace(h: seq<Presented>, again: seq<Presented>, grace: Time, now: Time)
    requires StoreAfter(h).current.Some?
    requires forall i | 0 <= i < |again| :: again[i].key == StoreAfter(h).current.value
    ensures RingAt(StoreAfter(h + again), grace, now) == RingAt(StoreAfter(h), grace, now)
  {
    SameStateAfterRepeats(h, again);
  }
}
