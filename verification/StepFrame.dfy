/** The signed text of a remediation step: five fields joined by '|', the last one the
    canonical JSON of the step's parameters (section 3.2 of RFC 8785). Text is
    compared before its UTF-8 encoding, which is injective. */
module StepFrame {
  import opened Splitting

  /** Parameters in canonical form: members in key order, numbers by their text. */
  datatype Json = Null | Bool(b: bool) | Num(text: string) | Str(s: string) | Arr(items: seq<Json>)
                | Obj(members: seq<Member>)
  datatype Member = Member(key: string, value: Json)

  datatype Step = Step(execution: string, playbook: string, index: nat, op: string, params: Json)

  /** Step indices are uint32 on the wire. */
  const INDEX_LIMIT: nat := 0x1_0000_0000

  /** A step a probe can receive. */
  predicate OnTheWire(x: Step) { Wellformed(x.params) && x.index < INDEX_LIMIT }

  // ----- canonical JSON -----

  predicate NumberChar(c: char) { '0' <= c <= '9' || c in {'-', '+', '.', 'e', 'E'} }

  predicate Wellformed(v: Json) {
    match v
    case Num(text) => text != [] && ('0' <= text[0] <= '9' || text[0] == '-') && forall i | 0 <= i < |text| :: NumberChar(text[i])
    case Arr(items) => forall i | 0 <= i < |items| :: Wellformed(items[i])
    case Obj(members) => forall i | 0 <= i < |members| :: Wellformed(members[i].value)
    case _ => true
  }

  function Hex(n: nat): char
    requires n < 16
  {
    "0123456789abcdef"[n]
  }

  /** One character inside a JSON string. */
  function Escaped(c: char): string {
    if c == '"' then ['\\', '"']
    else if c == '\\' then ['\\', '\\']
    else if c == 8 as char then ['\\', 'b']
    else if c == 9 as char then ['\\', 't']
    else if c == 10 as char then ['\\', 'n']
    else if c == 12 as char then ['\\', 'f']
    else if c == 13 as char then ['\\', 'r']
    else if c < ' ' then ['\\', 'u', '0', '0', Hex(c as int / 16), Hex(c as int % 16)]
    else [c]
  }

  /** The rest of a JSON string, with its closing quote. */
  function StringRest(s: string): string { if s == [] then ['"'] else Escaped(s[0]) + StringRest(s[1..]) }

  function Quoted(s: string): string { ['"'] + StringRest(s) }

  function Canonical(v: Json): string
    decreases v, 0
  {
    match v
    case Null => "null"
    case Bool(b) => if b then "true" else "false"
    case Num(text) => text
    case Str(s) => Quoted(s)
    case Arr(items) => ['['] + (if items == [] then [']'] else Canonical(items[0]) + MoreItems(items[1..]))
    case Obj(members) => ['{'] + (if members == [] then ['}'] else OneMember(members[0]) + MoreMembers(members[1..]))
  }

  /** The rest of an array after an element, with its closing bracket. */
  function MoreItems(items: seq<Json>): string
    decreases items, 1
  {
    if items == [] then [']'] else [','] + (Canonical(items[0]) + MoreItems(items[1..]))
  }

  function OneMember(m: Member): string
    decreases m, 1
  {
    Quoted(m.key) + ([':'] + Canonical(m.value))
  }

  function MoreMembers(members: seq<Member>): string
    decreases members, 2
  {
    if members == [] then ['}'] else [','] + (OneMember(members[0]) + MoreMembers(members[1..]))
  }

  // ----- a bar only ever occurs inside a string -----

  datatype Lexer = Outside | Inside | AfterBackslash | Stuck

  /** Reading JSON text: outside a string neither a backslash nor a bar may occur. */
  function Read(q: Lexer, c: char): Lexer {
    match q
    case Outside => if c == '"' then Inside else if c == '\\' || c == '|' then Stuck else Outside
    case Inside => if c == '"' then Outside else if c == '\\' then AfterBackslash else Inside
    case AfterBackslash => Inside
    case Stuck => Stuck
  }

  function ReadAll(q: Lexer, t: string): Lexer
    decreases t
  {
    if t == [] then q else ReadAll(Read(q, t[0]), t[1..])
  }

  lemma {:induction false} ReadAppend(q: Lexer, a: string, b: string)
    ensures ReadAll(q, a + b) == ReadAll(ReadAll(q, a), b)
    decreases a
  {
    if a == [] { assert a + b == b; }
    else {
      assert (a + b)[1..] == a[1..] + b;
      ReadAppend(Read(q, a[0]), a[1..], b);
    }
  }

  lemma {:induction false} StuckStays(t: string)
    ensures ReadAll(Stuck, t) == Stuck
  {
    if t == [] {
    } else {
      StuckStays(t[1..]);
    }
  }

  lemma ReadEscaped(c: char)
    ensures ReadAll(Inside, Escaped(c)) == Inside
  {
    var e := Escaped(c);
    if |e| == 2 { assert ReadAll(Inside, e) == ReadAll(AfterBackslash, e[1..]) == ReadAll(Inside, e[1..][1..]); }
    else if |e| == 6 {
      assert ReadAll(Inside, e) == ReadAll(AfterBackslash, e[1..]) == ReadAll(Inside, e[2..]) by { assert e[1..][1..] == e[2..]; }
      ReadPlain(e[2..]);
    } else { assert ReadAll(Inside, e) == ReadAll(Read(Inside, c), e[1..]); }
  }

  lemma {:induction false} ReadPlain(t: string)
    requires forall i | 0 <= i < |t| :: t[i] != '"' && t[i] != '\\'
    ensures ReadAll(Inside, t) == Inside
  {
    if t == [] {
    } else {
      ReadPlain(t[1..]);
    }
  }

  lemma {:induction false} ReadBare(t: string)
    requires forall i | 0 <= i < |t| :: t[i] != '"' && t[i] != '\\' && t[i] != '|'
    ensures ReadAll(Outside, t) == Outside
  {
    if t == [] {
    } else {
      ReadBare(t[1..]);
    }
  }

  lemma {:induction false} ReadStringRest(s: string)
    ensures ReadAll(Inside, StringRest(s)) == Outside
  {
    if s == [] { assert ReadAll(Outside, []) == Outside; }
    else {
      ReadEscaped(s[0]);
      ReadAppend(Inside, Escaped(s[0]), StringRest(s[1..]));
      ReadStringRest(s[1..]);
    }
  }

  lemma ReadQuoted(s: string)
    ensures ReadAll(Outside, Quoted(s)) == Outside
  {
    ReadStringRest(s);
    assert Quoted(s)[1..] == StringRest(s);
  }

  /** Two texts that each read back to outside do so together. */
  lemma ReadTogether(a: string, b: string)
    requires ReadAll(Outside, a) == Outside && ReadAll(Outside, b) == Outside
    ensures ReadAll(Outside, a + b) == Outside
  {
    ReadAppend(Outside, a, b);
  }

  lemma {:induction false} ReadCanonical(v: Json)
    requires Wellformed(v)
    ensures ReadAll(Outside, Canonical(v)) == Outside
    decreases v, 0
  {
    match v
    case Null => ReadBare("null");
    case Bool(b) => ReadBare("true"); ReadBare("false");
    case Num(text) => ReadBare(text);
    case Str(s) => ReadQuoted(s);
    case Arr(items) =>
      ReadBare("["); ReadBare("]");
      if items != [] {
        ReadCanonical(items[0]);
        ReadMoreItems(items[1..]);
        ReadTogether(Canonical(items[0]), MoreItems(items[1..]));
        ReadTogether("[", Canonical(items[0]) + MoreItems(items[1..]));
      }
    case Obj(members) =>
      ReadBare("{"); ReadBare("}");
      if members != [] {
        ReadMember(members[0]);
        ReadMoreMembers(members[1..]);
        ReadTogether(OneMember(members[0]), MoreMembers(members[1..]));
        ReadTogether("{", OneMember(members[0]) + MoreMembers(members[1..]));
      }
  }

  lemma {:induction false} ReadMoreItems(items: seq<Json>)
    requires forall i | 0 <= i < |items| :: Wellformed(items[i])
    ensures ReadAll(Outside, MoreItems(items)) == Outside
    decreases items, 1
  {
    ReadBare(","); ReadBare("]");
    if items != [] {
      ReadCanonical(items[0]);
      ReadMoreItems(items[1..]);
      ReadTogether(Canonical(items[0]), MoreItems(items[1..]));
      ReadTogether(",", Canonical(items[0]) + MoreItems(items[1..]));
    }
  }

  lemma {:induction false} ReadMember(m: Member)
    requires Wellformed(m.value)
    ensures ReadAll(Outside, OneMember(m)) == Outside
    decreases m, 1
  {
    ReadQuoted(m.key);
    ReadCanonical(m.value);
    ReadBare(":");
    ReadTogether(":", Canonical(m.value));
    ReadTogether(Quoted(m.key), ":" + Canonical(m.value));
  }

  lemma {:induction false} ReadMoreMembers(members: seq<Member>)
    requires forall i | 0 <= i < |members| :: Wellformed(members[i].value)
    ensures ReadAll(Outside, MoreMembers(members)) == Outside
    decreases members, 2
  {
    ReadBare(","); ReadBare("}");
    if members != [] {
      ReadMember(members[0]);
      ReadMoreMembers(members[1..]);
      ReadTogether(OneMember(members[0]), MoreMembers(members[1..]));
      ReadTogether(",", OneMember(members[0]) + MoreMembers(members[1..]));
    }
  }

  /** No text closes a string it was inside of and also reads as JSON from outside. */
  lemma {:induction false} NotFromBothSides(t: string)
    ensures !(ReadAll(Outside, t) == Outside && ReadAll(Inside, t) == Outside)
  {
    if t == [] {
    } else {
      StuckStays(t[1..]);
      NotFromBothSides(t[1..]);
    }
  }

  /** Behind a bar of one canonical text no other canonical text can start. */
  lemma NoCanonicalBehindBar(v: Json, w: Json, k: nat)
    requires Wellformed(v) && Wellformed(w) && k < |Canonical(v)| && Canonical(v)[k] == '|'
    ensures Canonical(v)[k + 1..] != Canonical(w)
  {
    ReadCanonical(v);
    ReadCanonical(w);
    BarIsInside(Canonical(v), k);
    NotFromBothSides(Canonical(v)[k + 1..]);
  }

  /** A bar in a text that reads through is inside a string. */
  lemma BarIsInside(t: string, k: nat)
    requires ReadAll(Outside, t) == Outside && k < |t| && t[k] == '|'
    ensures ReadAll(Inside, t[k + 1..]) == Outside
  {
    var rest := t[k + 1..];
    assert t == t[..k] + (['|'] + rest);
    ReadAppend(Outside, t[..k], ['|'] + rest);
    ReadFirst(ReadAll(Outside, t[..k]), '|', rest);
    StuckStays(rest);
  }

  lemma ReadFirst(q: Lexer, c: char, rest: string)
    ensures ReadAll(q, [c] + rest) == ReadAll(Read(q, c), rest)
  {
    assert ([c] + rest)[1..] == rest;
  }

  // ----- canonical text determines its value -----

  lemma HexInjective(m: nat, n: nat)
    requires m < 16 && n < 16 && Hex(m) == Hex(n)
    ensures m == n
  {}

  /** Equal texts that start with two escapes start with the same one. */
  lemma EscapedUnique(c: char, d: char, t: string, u: string)
    requires Escaped(c) + t == Escaped(d) + u
    ensures c == d && t == u
  {
    var e, f, all := Escaped(c), Escaped(d), Escaped(c) + t;
    assert all[0] == e[0] == f[0];
    if |e| > 1 && |f| > 1 {
      assert all[1] == e[1] == f[1];
      if |e| == 6 && |f| == 6 {
        assert all[4] == e[4] == f[4] && all[5] == e[5] == f[5];
        HexInjective(c as int / 16, d as int / 16);
        HexInjective(c as int % 16, d as int % 16);
      }
    }
    assert c == d;
    assert t == all[|e|..] == u;
  }

  lemma Assoc(a: string, b: string, c: string)
    ensures (a + b) + c == a + (b + c)
  {}

  lemma StringRestStep(a: string, b: string, r: string, s: string)
    requires a != [] && b != [] && StringRest(a) + r == StringRest(b) + s
    ensures a[0] == b[0] && StringRest(a[1..]) + r == StringRest(b[1..]) + s
  {
    Assoc(Escaped(a[0]), StringRest(a[1..]), r);
    Assoc(Escaped(b[0]), StringRest(b[1..]), s);
    EscapedUnique(a[0], b[0], StringRest(a[1..]) + r, StringRest(b[1..]) + s);
  }

  lemma {:induction false} StringRestUnique(a: string, b: string, r: string, s: string)
    requires StringRest(a) + r == StringRest(b) + s
    ensures a == b && r == s
    decreases a
  {
    StringRestFirst(a, r);
    StringRestFirst(b, s);
    if a == [] {
      assert r == (['"'] + r)[1..] && s == (['"'] + s)[1..];
    } else {
      StringRestStep(a, b, r, s);
      StringRestUnique(a[1..], b[1..], r, s);
      assert a == [a[0]] + a[1..] && b == [b[0]] + b[1..];
    }
  }

  lemma StringRestFirst(a: string, r: string)
    ensures StringRest(a) != [] && ((StringRest(a) + r)[0] == '"' <==> a == [])
  {
    if a != [] { assert StringRest(a)[0] == Escaped(a[0])[0]; }
  }

  lemma QuotedUnique(a: string, b: string, r: string, s: string)
    requires Quoted(a) + r == Quoted(b) + s
    ensures a == b && r == s
  {
    Behind('"', StringRest(a), r);
    Behind('"', StringRest(b), s);
    StringRestUnique(a, b, r, s);
  }

  lemma Behind(c: char, t: string, r: string)
    ensures ([c] + t + r)[1..] == t + r
  {
  }

  /** What may follow a value. */
  predicate Delimited(r: string) { r == [] || r[0] in {',', ']', '}'} }

  lemma NumberUnique(a: string, b: string, r: string, s: string)
    requires forall i | 0 <= i < |a| :: NumberChar(a[i])
    requires forall i | 0 <= i < |b| :: NumberChar(b[i])
    requires Delimited(r) && Delimited(s) && a + r == b + s
    ensures a == b && r == s
  {
    var all := a + r;
    assert forall i | 0 <= i < |a| :: all[i] == a[i] && NumberChar(all[i]);
    assert forall i | 0 <= i < |b| :: all[i] == b[i] && NumberChar(all[i]);
    assert |r| > 0 ==> all[|a|] == r[0] && !NumberChar(all[|a|]);
    assert |s| > 0 ==> all[|b|] == s[0] && !NumberChar(all[|b|]);
    assert a == all[..|a|] && b == all[..|b|] && r == all[|a|..] && s == all[|b|..];
  }

  lemma FirstChar(v: Json)
    requires Wellformed(v)
    ensures Canonical(v) != []
    ensures var c := Canonical(v)[0];
            match v
            case Null => c == 'n'
            case Bool(b) => c == if b then 't' else 'f'
            case Num(_) => '0' <= c <= '9' || c == '-'
            case Str(_) => c == '"'
            case Arr(_) => c == '['
            case Obj(_) => c == '{'
  {}

  /** Moving the brackets of a concatenation, and dropping its first character. */
  lemma Regroup(c: char, a: string, b: string, r: string)
    ensures a + b + r == a + (b + r)
    ensures ([c] + (a + b) + r)[1..] == a + (b + r)
    ensures ([c] + (a + b) + r)[0] == c
  {}

  lemma {:induction false} CanonicalUnique(v: Json, w: Json, r: string, s: string)
    requires Wellformed(v) && Wellformed(w) && Delimited(r) && Delimited(s)
    requires Canonical(v) + r == Canonical(w) + s
    ensures v == w && r == s
    decreases v, 0
  {
    FirstChar(v);
    FirstChar(w);
    var all := Canonical(v) + r;
    assert all[0] == Canonical(v)[0] == Canonical(w)[0];
    match v
    case Num(text) => NumberUnique(text, w.text, r, s);
    case Str(t) => QuotedUnique(t, w.s, r, s);
    case Arr(items) => ArrayUnique(items, w.items, r, s);
    case Obj(members) => ObjectUnique(members, w.members, r, s);
    case Null => assert r == all[4..] == s;
    case Bool(b) => assert r == all[|Canonical(v)|..] == s;
  }

  lemma {:induction false} ArrayUnique(xs: seq<Json>, ys: seq<Json>, r: string, s: string)
    requires forall i | 0 <= i < |xs| :: Wellformed(xs[i])
    requires forall i | 0 <= i < |ys| :: Wellformed(ys[i])
    requires Canonical(Arr(xs)) + r == Canonical(Arr(ys)) + s
    ensures xs == ys && r == s
    decreases xs, 2
  {
    ArraySecondChar(xs, r);
    ArraySecondChar(ys, s);
    if xs != [] {
      Regroup('[', Canonical(xs[0]), MoreItems(xs[1..]), r);
      Regroup('[', Canonical(ys[0]), MoreItems(ys[1..]), s);
      CanonicalUnique(xs[0], ys[0], MoreItems(xs[1..]) + r, MoreItems(ys[1..]) + s);
      MoreItemsUnique(xs[1..], ys[1..], r, s);
    } else {
      assert r == (Canonical(Arr(xs)) + r)[2..] == s;
    }
  }

  lemma ArraySecondChar(xs: seq<Json>, r: string)
    requires forall i | 0 <= i < |xs| :: Wellformed(xs[i])
    ensures var t := Canonical(Arr(xs)) + r; |t| > 1 && (t[1] == ']' <==> xs == [])
  {
    if xs != [] {
      FirstChar(xs[0]);
      Regroup('[', Canonical(xs[0]), MoreItems(xs[1..]), r);
      assert (Canonical(Arr(xs)) + r)[1] == Canonical(xs[0])[0];
    }
  }

  lemma {:induction false} MoreItemsUnique(xs: seq<Json>, ys: seq<Json>, r: string, s: string)
    requires forall i | 0 <= i < |xs| :: Wellformed(xs[i])
    requires forall i | 0 <= i < |ys| :: Wellformed(ys[i])
    requires MoreItems(xs) + r == MoreItems(ys) + s
    ensures xs == ys && r == s
    decreases xs, 1
  {
    var all := MoreItems(xs) + r;
    assert all[0] == MoreItems(xs)[0] == MoreItems(ys)[0];
    if xs == [] {
      assert r == all[1..] == s;
    } else {
      Regroup(',', Canonical(xs[0]), MoreItems(xs[1..]), r);
      Regroup(',', Canonical(ys[0]), MoreItems(ys[1..]), s);
      CanonicalUnique(xs[0], ys[0], MoreItems(xs[1..]) + r, MoreItems(ys[1..]) + s);
      MoreItemsUnique(xs[1..], ys[1..], r, s);
    }
  }

  lemma DropFirst(c: char, t: string)
    ensures ([c] + t)[1..] == t
  {}

  lemma {:induction false} MemberUnique(x: Member, y: Member, r: string, s: string)
    requires Wellformed(x.value) && Wellformed(y.value) && Delimited(r) && Delimited(s)
    requires OneMember(x) + r == OneMember(y) + s
    ensures x == y && r == s
    decreases x, 1
  {
    Assoc(Quoted(x.key), [':'] + Canonical(x.value), r);
    Assoc(Quoted(y.key), [':'] + Canonical(y.value), s);
    QuotedUnique(x.key, y.key, [':'] + Canonical(x.value) + r, [':'] + Canonical(y.value) + s);
    Assoc([':'], Canonical(x.value), r);
    Assoc([':'], Canonical(y.value), s);
    DropFirst(':', Canonical(x.value) + r);
    DropFirst(':', Canonical(y.value) + s);
    CanonicalUnique(x.value, y.value, r, s);
  }

  lemma {:induction false} ObjectUnique(xs: seq<Member>, ys: seq<Member>, r: string, s: string)
    requires forall i | 0 <= i < |xs| :: Wellformed(xs[i].value)
    requires forall i | 0 <= i < |ys| :: Wellformed(ys[i].value)
    requires Canonical(Obj(xs)) + r == Canonical(Obj(ys)) + s
    ensures xs == ys && r == s
    decreases xs, 3
  {
    ObjectSecondChar(xs, r);
    ObjectSecondChar(ys, s);
    if xs != [] {
      Regroup('{', OneMember(xs[0]), MoreMembers(xs[1..]), r);
      Regroup('{', OneMember(ys[0]), MoreMembers(ys[1..]), s);
      MemberUnique(xs[0], ys[0], MoreMembers(xs[1..]) + r, MoreMembers(ys[1..]) + s);
      MoreMembersUnique(xs[1..], ys[1..], r, s);
    } else {
      assert r == (Canonical(Obj(xs)) + r)[2..] == s;
    }
  }

  lemma ObjectSecondChar(xs: seq<Member>, r: string)
    ensures var t := Canonical(Obj(xs)) + r; |t| > 1 && (t[1] == '}' <==> xs == [])
  {
    if xs != [] {
      Regroup('{', OneMember(xs[0]), MoreMembers(xs[1..]), r);
      assert (Canonical(Obj(xs)) + r)[1] == OneMember(xs[0])[0] == '"';
    }
  }

  lemma {:induction false} MoreMembersUnique(xs: seq<Member>, ys: seq<Member>, r: string, s: string)
    requires forall i | 0 <= i < |xs| :: Wellformed(xs[i].value)
    requires forall i | 0 <= i < |ys| :: Wellformed(ys[i].value)
    requires MoreMembers(xs) + r == MoreMembers(ys) + s
    ensures xs == ys && r == s
    decreases xs, 2
  {
    var all := MoreMembers(xs) + r;
    assert all[0] == MoreMembers(xs)[0] == MoreMembers(ys)[0];
    if xs == [] {
      assert r == all[1..] == s;
    } else {
      Regroup(',', OneMember(xs[0]), MoreMembers(xs[1..]), r);
      Regroup(',', OneMember(ys[0]), MoreMembers(ys[1..]), s);
      MemberUnique(xs[0], ys[0], MoreMembers(xs[1..]) + r, MoreMembers(ys[1..]) + s);
      MoreMembersUnique(xs[1..], ys[1..], r, s);
    }
  }

  // ----- the frame -----

  function Decimal(n: nat): string {
    if n < 10 then [Digit(n)] else Decimal(n / 10) + [Digit(n % 10)]
  }

  function Digit(n: nat): char
    requires n < 10
  {
    "0123456789"[n]
  }

  /** execution|playbook|index|op| */
  function Header(x: Step): string {
    x.execution + "|" + x.playbook + "|" + Decimal(x.index) + "|" + x.op + "|"
  }

  function Frame(x: Step): string { Header(x) + Canonical(x.params) }

  /** How `canonical_step_hash` feeds its digest: part by part, a bar between parts. */
  method FeedParts(x: Step) returns (fed: string)
    ensures fed == Frame(x)
  {
    var parts := [x.execution, x.playbook, Decimal(x.index), x.op, Canonical(x.params)];
    fed := "";
    var i := 0;
    while i < |parts|
      invariant 0 <= i <= |parts|
      invariant i == 0 ==> fed == ""
      invariant i == 1 ==> fed == parts[0]
      invariant i == 2 ==> fed == parts[0] + "|" + parts[1]
      invariant i == 3 ==> fed == parts[0] + "|" + parts[1] + "|" + parts[2]
      invariant i == 4 ==> fed == parts[0] + "|" + parts[1] + "|" + parts[2] + "|" + parts[3]
      invariant i == 5 ==> fed == parts[0] + "|" + parts[1] + "|" + parts[2] + "|" + parts[3] + "|" + parts[4]
    {
      if i > 0 { fed := fed + "|"; }
      fed := fed + parts[i];
      i := i + 1;
    }
  }

  predicate BarFree(s: string) { '|' !in s }

  /** The texts Decimal writes: digits, without a leading zero. */
  predicate IsDecimal(s: string) {
    s != [] && (forall i | 0 <= i < |s| :: '0' <= s[i] <= '9') && (s[0] == '0' ==> |s| == 1)
  }

  /** The number such a text denotes. */
  function Value(s: string): nat
    requires IsDecimal(s)
  {
    var d := DigitValue(s[|s| - 1]);
    if |s| == 1 then d else Value(s[..|s| - 1]) * 10 + d
  }

  function DigitValue(c: char): (d: nat)
    requires '0' <= c <= '9'
    ensures d < 10 && Digit(d) == c && (d == 0 ==> c == '0')
  {
    (c - '0') as nat
  }

  lemma DigitIsDigit(d: nat)
    requires d < 10
    ensures '0' <= Digit(d) <= '9' && DigitValue(Digit(d)) == d && (Digit(d) == '0' ==> d == 0)
  {
  }

  lemma ValueAppend(s: string, d: nat)
    requires IsDecimal(s) && s[0] != '0' && d < 10
    ensures IsDecimal(s + [Digit(d)]) && (s + [Digit(d)])[0] != '0' && Value(s + [Digit(d)]) == Value(s) * 10 + d
  {
    DigitIsDigit(d);
    assert (s + [Digit(d)])[..|s|] == s;
  }

  lemma {:induction false} ValueOfDecimal(n: nat)
    ensures IsDecimal(Decimal(n)) && (Decimal(n)[0] == '0' ==> n == 0) && Value(Decimal(n)) == n
  {
    if n < 10 {
      DigitIsDigit(n);
    } else {
      ValueOfDecimal(n / 10);
      ValueAppend(Decimal(n / 10), n % 10);
    }
  }

  lemma DecimalAppend(n: nat, d: nat)
    requires n > 0 && d < 10
    ensures Decimal(n * 10 + d) == Decimal(n) + [Digit(d)]
  {
  }

  lemma FrontAndDigit(s: string) returns (front: string, d: nat)
    requires IsDecimal(s) && |s| > 1
    ensures IsDecimal(front) && front[0] == s[0] != '0' && |front| < |s| && d < 10 && s == front + [Digit(d)]
    ensures Value(s) == Value(front) * 10 + d
  {
    front, d := s[..|s| - 1], DigitValue(s[|s| - 1]);
    assert front[0] == s[0];
  }

  lemma {:induction false} DecimalOfValue(s: string)
    requires IsDecimal(s)
    ensures Decimal(Value(s)) == s && (Value(s) == 0 ==> s[0] == '0')
  {
    if |s| == 1 {
      assert s == [Digit(Value(s))];
    } else {
      var front, d := FrontAndDigit(s);
      DecimalOfValue(front);
      DecimalAppend(Value(front), d);
    }
  }

  /** The text of a step index. */
  predicate IsIndex(s: string) { IsDecimal(s) && Value(s) < INDEX_LIMIT }

  // ----- which frames determine their step -----

  function Segments(s: string): (segs: seq<string>)
    ensures segs != []
  {
    Split(s, '|')
  }

  /** The bar-separated segments of a header: those of its fields, then an empty one. */
  function HeaderSegments(x: Step): seq<string> {
    Segments(x.execution) + Segments(x.playbook) + [Decimal(x.index)] + Segments(x.op) + [[]]
  }

  lemma HeaderSplits(x: Step)
    ensures Segments(Header(x)) == HeaderSegments(x)
  {
    var a := x.execution + ['|'] + x.playbook;
    var b := a + ['|'] + Decimal(x.index);
    var c := b + ['|'] + x.op;
    assert Header(x) == c + ['|'] + [];
    SplitConcat(x.execution, '|', x.playbook);
    SplitConcat(a, '|', Decimal(x.index));
    SplitConcat(b, '|', x.op);
    SplitConcat(c, '|', []);
    DecimalIsBarFree(x.index);
  }

  lemma DecimalIsBarFree(n: nat)
    ensures BarFree(Decimal(n)) && Segments(Decimal(n)) == [Decimal(n)]
  {
    ValueOfDecimal(n);
    OneSegment(Decimal(n));
  }

  lemma OneSegment(s: string)
    ensures |Segments(s)| == 1 <==> BarFree(s)
    ensures BarFree(s) ==> Segments(s) == [s]
  {
    SplitJoinsBack(s, '|');
    if BarFree(s) { SplitOfJoin([s], '|'); }
  }

  /** Two headers are the same text exactly if they have the same segments. */
  lemma SameHeader(x: Step, y: Step)
    ensures Header(x) == Header(y) <==> HeaderSegments(x) == HeaderSegments(y)
  {
    HeaderSplits(x);
    HeaderSplits(y);
    SplitJoinsBack(Header(x), '|');
    SplitJoinsBack(Header(y), '|');
  }

  /** Some segment of the op before its last could be read as a step index. */
  predicate HidesIndex(op: string) {
    exists k :: 0 <= k < |Segments(op)| - 1 && IsIndex(Segments(op)[k])
  }

  /** No bar in the two identifiers, and no index hidden in the op. */
  predicate Unambiguous(x: Step) { BarFree(x.execution) && BarFree(x.playbook) && !HidesIndex(x.op) }

  lemma BarFreeIsUnambiguous(x: Step)
    requires BarFree(x.execution) && BarFree(x.playbook) && BarFree(x.op)
    ensures Unambiguous(x)
  {
    OneSegment(x.op);
  }

  lemma SameTexts(a: string, b: string)
    requires Segments(a) == Segments(b)
    ensures a == b
  {
    SplitJoinsBack(a, '|');
    SplitJoinsBack(b, '|');
  }

  /** Another step with these segments has its index in the same place, or one that
      this step's op hides. */
  lemma IndexAligns(x: Step, y: Step)
    requires BarFree(x.execution) && BarFree(x.playbook) && HeaderSegments(x) == HeaderSegments(y)
    requires y.index < INDEX_LIMIT
    ensures |Segments(y.execution)| == |Segments(y.playbook)| == 1 || HidesIndex(x.op)
  {
    OneSegment(x.execution);
    OneSegment(x.playbook);
    var h, k := HeaderSegments(x), |Segments(y.execution)| + |Segments(y.playbook)|;
    assert h[k] == Decimal(y.index);
    ValueOfDecimal(y.index);
    if k > 2 { assert h[k] == Segments(x.op)[k - 3]; }
  }

  lemma HeaderUnique(x: Step, y: Step)
    requires Unambiguous(x) && Header(x) == Header(y) && y.index < INDEX_LIMIT
    ensures x.execution == y.execution && x.playbook == y.playbook && x.index == y.index && x.op == y.op
  {
    SameHeader(x, y);
    IndexAligns(x, y);
    OneSegment(x.execution); OneSegment(x.playbook);
    var h, n := HeaderSegments(x), |HeaderSegments(x)|;
    assert [h[0]] == Segments(x.execution) == Segments(y.execution);
    assert [h[1]] == Segments(x.playbook) == Segments(y.playbook);
    assert h[2] == Decimal(x.index) == Decimal(y.index);
    assert h[3..n - 1] == Segments(x.op) == Segments(y.op);
    SameTexts(x.execution, y.execution);
    SameTexts(x.playbook, y.playbook);
    SameTexts(x.op, y.op);
    ValueOfDecimal(x.index);
    ValueOfDecimal(y.index);
  }

  /** The header of one frame cannot reach into the parameters of another. */
  lemma HeadersAlign(x: Step, y: Step)
    requires Wellformed(x.params) && Wellformed(y.params) && Frame(x) == Frame(y) && |Header(x)| <= |Header(y)|
    ensures Header(x) == Header(y) && Canonical(x.params) == Canonical(y.params)
  {
    var f, n, m := Frame(x), |Header(x)|, |Header(y)|;
    assert f[n..] == Canonical(x.params) && f[m..] == Canonical(y.params);
    if n < m {
      var k := m - 1 - n;
      assert f[m - 1] == Header(y)[m - 1] == '|';
      assert f[m - 1] == Canonical(x.params)[k];
      assert Canonical(x.params)[k + 1..] == f[m..];
      NoCanonicalBehindBar(x.params, y.params, k);
      assert false;
    }
    assert f[..n] == Header(x) && f[..m] == Header(y);
  }

  /** Whatever received step has the frame of an unambiguous step is that very step, even
      if its own fields were chosen with bars in them. */
  lemma FrameDeterminesStep(x: Step, y: Step)
    requires Wellformed(x.params) && OnTheWire(y) && Unambiguous(x) && Frame(x) == Frame(y)
    ensures x == y
  {
    if |Header(x)| <= |Header(y)| { HeadersAlign(x, y); } else { HeadersAlign(y, x); }
    HeaderUnique(x, y);
    assert Canonical(x.params) + "" == Canonical(y.params) + "";
    CanonicalUnique(x.params, y.params, "", "");
  }

  /** Segments put together as one text are that text's segments. */
  lemma JoinedSegments(segs: seq<string>) returns (s: string)
    requires segs != [] && Free(segs, '|')
    ensures Segments(s) == segs
  {
    s := Join(segs, '|');
    SplitOfJoin(segs, '|');
  }

  lemma Shifted(e: seq<string>, p: seq<string>, k: nat)
    requires k <= |e|
    ensures e[..k] + (e[k..] + p) == e + p
  {
    assert e == e[..k] + e[k..];
  }

  lemma Unshifted(e: seq<string>, p: seq<string>, k: nat)
    requires k <= |p|
    ensures e + p[..k] + p[k..] == e + p
  {
    assert p == p[..k] + p[k..];
  }

  /** The same segments divided otherwise between execution and playbook. */
  lemma Resegmented(x: Step, e: seq<string>, p: seq<string>) returns (y: Step)
    requires e != [] && p != [] && Free(e, '|') && Free(p, '|') && |p| != |Segments(x.playbook)|
    requires e + p == Segments(x.execution) + Segments(x.playbook)
    ensures y != x && y.index == x.index && y.params == x.params && Header(y) == Header(x)
  {
    var execution := JoinedSegments(e);
    var playbook := JoinedSegments(p);
    y := x.(execution := execution, playbook := playbook);
    SameHeader(x, y);
  }

  /** A bar in the execution id: its tail could belong to the playbook. */
  lemma ExecutionBarMoves(x: Step) returns (y: Step)
    requires !BarFree(x.execution)
    ensures y != x && y.index == x.index && y.params == x.params && Header(y) == Header(x)
  {
    var e, p := Segments(x.execution), Segments(x.playbook);
    OneSegment(x.execution);
    SplitJoinsBack(x.execution, '|'); SplitJoinsBack(x.playbook, '|');
    Shifted(e, p, 1);
    y := Resegmented(x, e[..1], e[1..] + p);
  }

  /** A bar in the playbook id: its head could belong to the execution. */
  lemma PlaybookBarMoves(x: Step) returns (y: Step)
    requires !BarFree(x.playbook)
    ensures y != x && y.index == x.index && y.params == x.params && Header(y) == Header(x)
  {
    var e, p := Segments(x.execution), Segments(x.playbook);
    OneSegment(x.playbook);
    SplitJoinsBack(x.execution, '|'); SplitJoinsBack(x.playbook, '|');
    Unshifted(e, p, 1);
    y := Resegmented(x, e + p[..1], p[1..]);
  }

  /** An index hidden in the op: what stands before it could belong to the playbook. */
  lemma HiddenIndexMoves(x: Step) returns (y: Step)
    requires HidesIndex(x.op)
    ensures y != x && y.index < INDEX_LIMIT && y.params == x.params && Header(y) == Header(x)
  {
    var p, o := Segments(x.playbook), Segments(x.op);
    var k :| 0 <= k < |o| - 1 && IsIndex(o[k]);
    SplitJoinsBack(x.playbook, '|'); SplitJoinsBack(x.op, '|');
    DecimalIsBarFree(x.index);
    DecimalOfValue(o[k]);
    var playbook := JoinedSegments(p + [Decimal(x.index)] + o[..k]);
    var op := JoinedSegments(o[k + 1..]);
    y := x.(playbook := playbook, index := Value(o[k]), op := op);
    MovedSegments(Segments(x.execution), p, Decimal(x.index), o, k);
    SameHeader(x, y);
  }

  lemma MovedSegments(e: seq<string>, p: seq<string>, d: string, o: seq<string>, k: nat)
    requires k < |o|
    ensures e + (p + [d] + o[..k]) + [o[k]] + o[k + 1..] + [[]] == e + p + [d] + o + [[]]
  {
    assert o == o[..k] + [o[k]] + o[k + 1..];
  }

  /** Among the steps a probe can receive, a frame determines its step if and only if the
      execution and playbook ids hold no bar and no bar-separated segment of the op, save
      its last, is a step index. */
  lemma FrameDeterminesStepExactly(x: Step)
    requires OnTheWire(x)
    ensures (forall y: Step | OnTheWire(y) && Frame(y) == Frame(x) :: y == x) <==> Unambiguous(x)
  {
    if Unambiguous(x) {
      forall y: Step | OnTheWire(y) && Frame(y) == Frame(x) ensures y == x { FrameDeterminesStep(x, y); }
    } else {
      var y: Step;
      if !BarFree(x.execution) { y := ExecutionBarMoves(x); }
      else if !BarFree(x.playbook) { y := PlaybookBarMoves(x); }
      else { y := HiddenIndexMoves(x); }
      assert OnTheWire(y) && Frame(y) == Frame(x);
    }
  }

  /** Two different steps that share one frame, without a bar in either execution id. */
  lemma BarsMakeFramesAmbiguous() returns (x: Step, y: Step)
    ensures x != y && OnTheWire(x) && OnTheWire(y) && Frame(x) == Frame(y)
    ensures BarFree(x.execution) && BarFree(x.playbook) && BarFree(y.execution)
  {
    x := Step("e", "p", 3, "5|x", Obj([]));
    y := Step("e", "p|3", 5, "x", Obj([]));
    assert Decimal(3) == "3" && Decimal(5) == "5";
    assert Header(x) == "e|p|3|5|x|" == Header(y);
  }
}
