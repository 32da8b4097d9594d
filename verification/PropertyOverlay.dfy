/** Overlaying property patches on a Presto .properties file, line by line, in whatever
    order the patch map is iterated. */
module PropertyOverlay {
  import opened Wrappers
  import opened Splitting
  import opened EnvOverlay

  // ----- lines that set a key -----

  predicate IsSpace(c: char) {
    || c in " \t\n\r" || c == '\U{000B}' || c == '\U{000C}' || c == '\U{0085}' || c == '\U{00A0}' || c == '\U{1680}'
    || '\U{2000}' <= c <= '\U{200A}' || c in "\U{2028}\U{2029}\U{202F}\U{205F}\U{3000}"
  }

  function TrimLeft(s: string): string { if s != [] && IsSpace(s[0]) then TrimLeft(s[1..]) else s }

  function TrimRight(s: string): string { if s != [] && IsSpace(s[|s| - 1]) then TrimRight(s[..|s| - 1]) else s }

  function Trim(s: string): string { TrimRight(TrimLeft(s)) }

  predicate Matches(line: string, key: string) {
    var trimmed := Trim(line);
    key + ['='] <= trimmed || trimmed == key
  }

  function FirstMatch(lines: seq<string>, key: string): (i: nat)
    ensures i <= |lines|
    ensures i < |lines| ==> Matches(lines[i], key)
    ensures forall j | 0 <= j < i :: !Matches(lines[j], key)
  {
    if lines == [] then 0
    else
      var i := FirstMatch(lines[..|lines| - 1], key);
      if i < |lines| - 1 || Matches(lines[|lines| - 1], key) then i else |lines|
  }

  /** The line that counts for `key`, the first one. */
  function LineFor(lines: seq<string>, key: string): Option<string> {
    if FirstMatch(lines, key) == |lines| then None else Some(lines[FirstMatch(lines, key)])
  }

  /** A key that a line can set: every whitelisted Presto property is one. */
  predicate GoodKey(key: string) { key != [] && '=' !in key && '\n' !in key && !IsSpace(key[0]) }

  function LineKey(line: string): string { KeyOf(Trim(line)) }

  /** A line sets at most one key without '='. */
  lemma MatchesIsKey(line: string, key: string)
    requires '=' !in key
    ensures Matches(line, key) <==> LineKey(line) == key
  {
    var t := Trim(line);
    UpToIsFree(t, '=');
    if key + ['='] <= t {
      UpToSeparator(key, '=', t[|key| + 1..]);
      assert t == key + ['='] + t[|key| + 1..];
    }
    if t == key { UpToSeparator(key, '=', []); }
    var k := LineKey(line);
    if |k| < |t| { assert t[..|k| + 1] == k + ['=']; }
  }

  lemma {:induction false} TrimRightKeeps(p: string, v: string)
    requires p != [] && !IsSpace(p[|p| - 1])
    ensures p <= TrimRight(p + v)
    decreases |v|
  {
    if v == [] {
      assert p + v == p;
    } else if IsSpace(v[|v| - 1]) {
      assert (p + v)[..|p + v| - 1] == p + v[..|v| - 1];
      TrimRightKeeps(p, v[..|v| - 1]);
    }
  }

  lemma EntrySetsKey(key: string, value: string)
    requires GoodKey(key)
    ensures LineKey(Entry(key, value)) == key
  {
    var e := Entry(key, value);
    assert e[0] == key[0] && TrimLeft(e) == e;
    var p := key + ['='];
    TrimRightKeeps(p, value);
    assert p + value == e;
    MatchesIsKey(e, key);
  }

  lemma BlankSetsNothing()
    ensures LineKey("") == ""
  {
  }

  // ----- setProperty -----

  function Lines(content: string): (lines: seq<string>)
    ensures lines != []
  {
    Split(content, '\n')
  }

  function DropBlank(lines: seq<string>): (kept: seq<string>)
    ensures kept <= lines && (kept != [] ==> kept[|kept| - 1] != "")
    ensures forall i | |kept| <= i < |lines| :: lines[i] == ""
  {
    if lines != [] && lines[|lines| - 1] == "" then DropBlank(lines[..|lines| - 1]) else lines
  }

  predicate EndsLine(content: string) { content != [] && content[|content| - 1] == '\n' }

  /** The lines setProperty writes, before it cuts trailing blanks. */
  function Written(content: string, key: string, value: string): seq<string> {
    var lines := Lines(content);
    var i := FirstMatch(lines, key);
    if i < |lines| then lines[i := Entry(key, value)]
    else (if content != [] && !EndsLine(content) then Lines(content + ['\n']) else lines) + [Entry(key, value)]
  }

  function SetLines(content: string, key: string, value: string): seq<string> {
    DropBlank(Written(content, key, value))
  }

  /** strings.Join(lines, "\n") + "\n" */
  function Text(lines: seq<string>): string { (if lines == [] then [] else Join(lines, '\n')) + ['\n'] }

  method SetProperty(content: string, key: string, value: string) returns (text: string)
    ensures text == Text(SetLines(content, key, value))
  {
    var lines := Lines(content);
    var i := 0;
    while i < |lines| && !Matches(lines[i], key)
      invariant 0 <= i <= |lines| && forall j | 0 <= j < i :: !Matches(lines[j], key)
    {
      i := i + 1;
    }
    assert i == FirstMatch(Lines(content), key);
    if i < |lines| {
      lines := lines[i := Entry(key, value)];
    } else {
      if content != [] && !EndsLine(content) { lines := Lines(content + ['\n']); }
      lines := lines + [Entry(key, value)];
    }
    ghost var all := lines;
    while |lines| > 0 && lines[|lines| - 1] == ""
      invariant DropBlank(lines) == DropBlank(all)
    {
      lines := lines[..|lines| - 1];
    }
    text := Text(lines);
  }

  // ----- what a run of patches leaves -----

  /** What stands at `i` once the keys of `patched` are patched: the first line that
      sets a key takes its patch. */
  function LineInPlace(base: seq<string>, patches: map<string, string>, patched: set<string>, i: nat): string
    requires i < |base| && patched <= patches.Keys
  {
    var key := LineKey(base[i]);
    if key in patched && FirstMatch(base, key) == i then Entry(key, patches[key]) else base[i]
  }

  function Appended(patches: map<string, string>, order: seq<string>): seq<string>
    requires forall k | k in order :: k in patches
  {
    if order == [] then []
    else Appended(patches, order[..|order| - 1]) + [Entry(order[|order| - 1], patches[order[|order| - 1]])]
  }

  /** `order` lists, once each, the patched keys that no line of `base` sets. */
  ghost predicate Absent(base: seq<string>, patched: set<string>, order: seq<string>) {
    && (forall i, j | 0 <= i < j < |order| :: order[i] != order[j])
    && (forall k :: k in order <==> k in patched && FirstMatch(base, k) == |base|)
  }

  /** `lines` is `base` with the first line of each patched key replaced in its place,
      followed, blank lines aside, by one line for each patched key that had none. */
  ghost predicate Carried(base: seq<string>, patches: map<string, string>, patched: set<string>,
                          order: seq<string>, lines: seq<string>)
  {
    && patched <= patches.Keys && |base| <= |lines| && (base != [] ==> base[|base| - 1] != "")
    && (forall i | 0 <= i < |base| :: lines[i] == LineInPlace(base, patches, patched, i))
    && Absent(base, patched, order) && (forall k | k in order :: k in patches)
    && NonEmpty(lines[|base|..]) == Appended(patches, order)
  }

  lemma {:induction false} NonEmptyAppend(a: seq<string>, b: seq<string>)
    ensures NonEmpty(a + b) == NonEmpty(a) + NonEmpty(b)
  {
    if b == [] {
      assert a + b == a;
    } else {
      assert (a + b)[..|a + b| - 1] == a + b[..|b| - 1];
      NonEmptyAppend(a, b[..|b| - 1]);
    }
  }

  lemma {:induction false} NonEmptyOfBlanks(a: seq<string>)
    requires forall i | 0 <= i < |a| :: a[i] == ""
    ensures NonEmpty(a) == []
  {
    if a == [] {
    } else {
      NonEmptyOfBlanks(a[..|a| - 1]);
    }
  }

  lemma {:induction false} InNonEmpty(a: seq<string>, i: nat)
    requires i < |a| && a[i] != ""
    ensures a[i] in NonEmpty(a)
  {
    if i < |a| - 1 { InNonEmpty(a[..|a| - 1], i); }
  }

  lemma {:induction false} InAppended(patches: map<string, string>, order: seq<string>, line: string)
    requires (forall k | k in order :: k in patches) && line in Appended(patches, order)
    ensures exists j :: 0 <= j < |order| && line == Entry(order[j], patches[order[j]])
  {
    if line in Appended(patches, order[..|order| - 1]) {
      InAppended(patches, order[..|order| - 1], line);
      var j :| 0 <= j < |order| - 1 && line == Entry(order[..|order| - 1][j], patches[order[..|order| - 1][j]]);
      assert order[..|order| - 1][j] == order[j];
    } else {
      assert line == Entry(order[|order| - 1], patches[order[|order| - 1]]);
    }
  }

  predicate GoodKeys(patches: map<string, string>) { forall k | k in patches :: GoodKey(k) }

  /** A line in the base part sets the key it set before; a line behind it sets nothing
      or one of the appended keys. */
  lemma KeysCarried(base: seq<string>, patches: map<string, string>, patched: set<string>,
                    order: seq<string>, lines: seq<string>, i: nat)
    requires GoodKeys(patches) && Carried(base, patches, patched, order, lines) && i < |lines|
    ensures i < |base| ==> LineKey(lines[i]) == LineKey(base[i])
    ensures i >= |base| && lines[i] != "" ==>
              LineKey(lines[i]) in order && lines[i] == Entry(LineKey(lines[i]), patches[LineKey(lines[i])])
  {
    if i < |base| {
      var key := LineKey(base[i]);
      assert lines[i] == LineInPlace(base, patches, patched, i);
      if key in patched { EntrySetsKey(key, patches[key]); }
    } else if lines[i] != "" {
      var tail := lines[|base|..];
      assert tail[i - |base|] == lines[i];
      InNonEmpty(tail, i - |base|);
      InAppended(patches, order, lines[i]);
      var j :| 0 <= j < |order| && lines[i] == Entry(order[j], patches[order[j]]);
      assert order[j] in order;
      EntrySetsKey(order[j], patches[order[j]]);
    }
  }

  /** A key not yet patched is set first where the base sets it, or nowhere. */
  lemma FirstMatchCarried(base: seq<string>, patches: map<string, string>, patched: set<string>,
                          order: seq<string>, lines: seq<string>, key: string)
    requires GoodKeys(patches) && Carried(base, patches, patched, order, lines)
    requires key != "" && '=' !in key && key !in order
    ensures FirstMatch(lines, key) == if FirstMatch(base, key) < |base| then FirstMatch(base, key) else |lines|
  {
    forall i | 0 <= i < |lines|
      ensures Matches(lines[i], key) <==> i < |base| && Matches(base[i], key)
    {
      MatchCarried(base, patches, patched, order, lines, key, i);
    }
    FirstMatchFollows(base, lines, key);
  }

  lemma FirstMatchFollows(base: seq<string>, lines: seq<string>, key: string)
    requires |base| <= |lines|
    requires forall i | 0 <= i < |lines| :: Matches(lines[i], key) <==> i < |base| && Matches(base[i], key)
    ensures FirstMatch(lines, key) == if FirstMatch(base, key) < |base| then FirstMatch(base, key) else |lines|
  {
    FirstMatchIs(lines, key, if FirstMatch(base, key) < |base| then FirstMatch(base, key) else |lines|);
  }

  lemma MatchCarried(base: seq<string>, patches: map<string, string>, patched: set<string>,
                     order: seq<string>, lines: seq<string>, key: string, i: nat)
    requires GoodKeys(patches) && Carried(base, patches, patched, order, lines)
    requires key != "" && '=' !in key && key !in order && i < |lines|
    ensures Matches(lines[i], key) <==> i < |base| && Matches(base[i], key)
  {
    BlankSetsNothing();
    KeysCarried(base, patches, patched, order, lines, i);
    MatchesIsKey(lines[i], key);
    if i < |base| { MatchesIsKey(base[i], key); }
  }

  lemma FirstMatchIs(lines: seq<string>, key: string, i: nat)
    requires i <= |lines| && (i < |lines| ==> Matches(lines[i], key))
    requires forall j | 0 <= j < i :: !Matches(lines[j], key)
    ensures FirstMatch(lines, key) == i
  {
  }

  lemma TailThroughBlanks(lines: seq<string>, n: nat)
    requires n <= |DropBlank(lines)|
    ensures NonEmpty((DropBlank(lines) + [""])[n..]) == NonEmpty(lines[n..])
  {
    var kept, rest := DropBlank(lines), lines[|DropBlank(lines)|..];
    assert lines == kept + rest;
    TailOfConcat(kept, rest, n);
    TailOfConcat(kept, [""], n);
    NonEmptyOfBlanks(rest);
    NonEmptyOfBlanks([""]);
  }

  lemma TailOfConcat(a: seq<string>, b: seq<string>, n: nat)
    requires n <= |a|
    ensures NonEmpty((a + b)[n..]) == NonEmpty(a[n..]) + NonEmpty(b)
  {
    assert (a + b)[n..] == a[n..] + b;
    NonEmptyAppend(a[n..], b);
  }

  lemma NonBlankIsKept(lines: seq<string>, i: nat)
    requires i < |lines| && lines[i] != ""
    ensures i < |DropBlank(lines)|
  {
  }

  /** Cutting trailing blanks and ending the text keeps what is carried. */
  lemma CarriedThroughBlanks(base: seq<string>, patches: map<string, string>, patched: set<string>,
                             order: seq<string>, lines: seq<string>)
    requires Carried(base, patches, patched, order, lines)
    ensures Carried(base, patches, patched, order, DropBlank(lines) + [""])
  {
    if base != [] {
      assert lines[|base| - 1] == LineInPlace(base, patches, patched, |base| - 1) != "";
      NonBlankIsKept(lines, |base| - 1);
    }
    var next := DropBlank(lines) + [""];
    forall i | 0 <= i < |base| ensures next[i] == LineInPlace(base, patches, patched, i) {
      assert next[i] == lines[i];
    }
    TailThroughBlanks(lines, |base|);
  }

  lemma LineInPlaceStep(base: seq<string>, patches: map<string, string>, patched: set<string>, key: string, i: nat)
    requires patched <= patches.Keys && key in patches && key !in patched && '=' !in key && i < |base|
    ensures LineInPlace(base, patches, patched + {key}, i)
            == if i == FirstMatch(base, key) then Entry(key, patches[key]) else LineInPlace(base, patches, patched, i)
  {
    MatchesIsKey(base[i], key);
  }

  lemma AbsentStep(base: seq<string>, patched: set<string>, order: seq<string>, key: string)
    requires Absent(base, patched, order) && key !in patched
    ensures FirstMatch(base, key) < |base| ==> Absent(base, patched + {key}, order)
    ensures FirstMatch(base, key) == |base| ==> Absent(base, patched + {key}, order + [key])
  {
    assert key !in order;
  }

  /** Replacing the first line of a key that the base sets. */
  lemma ReplaceLine(base: seq<string>, patches: map<string, string>, patched: set<string>,
                    order: seq<string>, lines: seq<string>, key: string)
    requires GoodKeys(patches) && Carried(base, patches, patched, order, lines)
    requires key in patches && key !in patched && FirstMatch(base, key) < |base|
    ensures Carried(base, patches, patched + {key}, order, lines[FirstMatch(base, key) := Entry(key, patches[key])])
  {
    AbsentStep(base, patched, order, key);
    var next := lines[FirstMatch(base, key) := Entry(key, patches[key])];
    forall i | 0 <= i < |base| ensures next[i] == LineInPlace(base, patches, patched + {key}, i) {
      LineInPlaceStep(base, patches, patched, key, i);
    }
    assert next[|base|..] == lines[|base|..];
  }

  /** Appending a line for a key that the base does not set. */
  lemma AppendLine(base: seq<string>, patches: map<string, string>, patched: set<string>,
                   order: seq<string>, lines: seq<string>, key: string)
    requires GoodKeys(patches) && Carried(base, patches, patched, order, lines)
    requires key in patches && key !in patched && FirstMatch(base, key) == |base|
    ensures Carried(base, patches, patched + {key}, order + [key], lines + [Entry(key, patches[key])])
  {
    AbsentStep(base, patched, order, key);
    var next := lines + [Entry(key, patches[key])];
    forall i | 0 <= i < |base| ensures next[i] == LineInPlace(base, patches, patched + {key}, i) {
      LineInPlaceStep(base, patches, patched, key, i);
    }
    TailAppend(lines, |base|, patches, order, key);
  }

  lemma TailAppend(lines: seq<string>, n: nat, patches: map<string, string>, order: seq<string>, key: string)
    requires n <= |lines| && key in patches && forall k | k in order :: k in patches
    requires NonEmpty(lines[n..]) == Appended(patches, order)
    ensures (forall k | k in order + [key] :: k in patches)
    ensures NonEmpty((lines + [Entry(key, patches[key])])[n..]) == Appended(patches, order + [key])
  {
    var tail := (lines + [Entry(key, patches[key])])[n..];
    assert tail[..|tail| - 1] == lines[n..];
    assert (order + [key])[..|order|] == order;
  }

  lemma LinesOfText(lines: seq<string>)
    requires lines != [] && Free(lines, '\n')
    ensures Lines(Text(lines)) == lines + [""]
  {
    SplitSeparator(Join(lines, '\n'), '\n');
    SplitOfJoin(lines, '\n');
  }

  lemma AppendBlank(base: seq<string>, patches: map<string, string>, patched: set<string>,
                    order: seq<string>, lines: seq<string>)
    requires Carried(base, patches, patched, order, lines)
    ensures Carried(base, patches, patched, order, lines + [""])
  {
    assert (lines + [""])[|base|..] == lines[|base|..] + [""];
    NonEmptyAppend(lines[|base|..], [""]);
    NonEmptyOfBlanks([""]);
  }

  predicate SingleLines(patches: map<string, string>) { forall k | k in patches :: '\n' !in patches[k] }

  function NextOrder(base: seq<string>, order: seq<string>, key: string): seq<string> {
    if FirstMatch(base, key) < |base| then order else order + [key]
  }

  lemma FreeWith(lines: seq<string>, i: nat, line: string)
    requires Free(lines, '\n') && '\n' !in line && i <= |lines|
    ensures i < |lines| ==> Free(lines[i := line], '\n') && line in lines[i := line]
    ensures Free(lines + [line], '\n') && line in lines + [line]
  {
    if i < |lines| { assert lines[i := line][i] == line; }
    assert (lines + [line])[|lines|] == line;
  }

  lemma WrittenIsFree(content: string, key: string, value: string)
    requires '\n' !in key && '\n' !in value
    ensures Free(Written(content, key, value), '\n') && Entry(key, value) in Written(content, key, value)
  {
    SplitJoinsBack(content, '\n');
    SplitJoinsBack(content + ['\n'], '\n');
    var lines := Lines(content);
    var i := FirstMatch(lines, key);
    FreeWith(lines, i, Entry(key, value));
    FreeWith(Lines(content + ['\n']), |Lines(content + ['\n'])|, Entry(key, value));
  }

  lemma WrittenCarries(base: seq<string>, patches: map<string, string>, patched: set<string>,
                       order: seq<string>, content: string, key: string)
    requires GoodKeys(patches) && Carried(base, patches, patched, order, Lines(content))
    requires key in patches && key !in patched
    ensures Carried(base, patches, patched + {key}, NextOrder(base, order, key), Written(content, key, patches[key]))
  {
    var lines := Lines(content);
    FirstMatchCarried(base, patches, patched, order, lines, key);
    if FirstMatch(base, key) < |base| {
      ReplaceLine(base, patches, patched, order, lines, key);
    } else {
      SplitSeparator(content, '\n');
      if content != [] && !EndsLine(content) {
        AppendBlank(base, patches, patched, order, lines);
        AppendLine(base, patches, patched, order, lines + [""], key);
      } else {
        AppendLine(base, patches, patched, order, lines, key);
      }
    }
  }

  lemma SetPropertyCarries(base: seq<string>, patches: map<string, string>, patched: set<string>,
                           order: seq<string>, content: string, key: string)
    requires GoodKeys(patches) && SingleLines(patches) && Carried(base, patches, patched, order, Lines(content))
    requires key in patches && key !in patched
    ensures Carried(base, patches, patched + {key}, NextOrder(base, order, key),
                    Lines(Text(SetLines(content, key, patches[key]))))
  {
    var written := Written(content, key, patches[key]);
    WrittenCarries(base, patches, patched, order, content, key);
    WrittenIsFree(content, key, patches[key]);
    CarriedThroughBlanks(base, patches, patched + {key}, NextOrder(base, order, key), written);
    var kept := DropBlank(written);
    assert SetLines(content, key, patches[key]) == kept;
    assert kept != [] by {
      var i :| 0 <= i < |written| && written[i] == Entry(key, patches[key]);
    }
    LinesOfText(kept);
  }

  // ----- mergeProperties -----

  predicate Contains(s: string, part: string) { exists i :: 0 <= i <= |s| && part <= s[i..] }

  /** A value that looks like a whole file. */
  predicate LooksFull(value: string) { '\n' in value || ('=' in value && Contains(value, "query.")) }

  /** The position of the first key, in iteration order, whose value looks like a file. */
  function FirstFull(patches: map<string, string>, keys: seq<string>): (i: nat)
    requires forall k | k in keys :: k in patches
    ensures i <= |keys| && (i < |keys| ==> LooksFull(patches[keys[i]]))
    ensures forall j | 0 <= j < i :: !LooksFull(patches[keys[j]])
    decreases |keys|
  {
    if keys == [] then 0
    else if LooksFull(patches[keys[0]]) then 0
    else FirstFull(patches, keys[1..]) + 1
  }

  /** The patches still set one by one on top of a whole-file value. */
  function Others(patches: map<string, string>, full: string): map<string, string> {
    map k | k in patches && patches[k] != full && '\n' !in patches[k] && '=' !in patches[k] :: patches[k]
  }

  /** The content a merge starts from and the patches it sets on it. */
  function Base(current: string, patches: map<string, string>, keys: seq<string>): string
    requires forall k | k in keys :: k in patches
  {
    if FirstFull(patches, keys) < |keys| then patches[keys[FirstFull(patches, keys)]] else current
  }

  function Applied(patches: map<string, string>, keys: seq<string>): map<string, string>
    requires forall k | k in keys :: k in patches
  {
    if FirstFull(patches, keys) < |keys| then Others(patches, patches[keys[FirstFull(patches, keys)]]) else patches
  }

  function Body(content: string): seq<string> { DropBlank(Lines(content)) }

  /** The two loops over the map may see its keys in two orders. */
  method MergeProperties(current: string, patches: map<string, string>, keys: seq<string>, again: seq<string>)
    returns (text: string)
    requires IsIteration(patches, keys) && IsIteration(patches, again)
    ensures GoodKeys(patches) ==>
              exists order :: Carried(Body(Base(current, patches, keys)), Applied(patches, keys),
                                      Applied(patches, keys).Keys, order, Lines(text))
  {
    var full := 0;
    while full < |keys| && !LooksFull(patches[keys[full]])
      invariant 0 <= full <= |keys| && forall j | 0 <= j < full :: !LooksFull(patches[keys[j]])
    {
      full := full + 1;
    }
    assert full == FirstFull(patches, keys);
    if full < |keys| {
      var value := patches[keys[full]];
      text := SetEach(value, Others(patches, value), again, patches);
    } else {
      AllSingle(patches, keys);
      text := SetEach(current, patches, again, patches);
    }
    ghost var base, applied := Base(current, patches, keys), Applied(patches, keys);
    assert GoodKeys(patches) ==> GoodKeys(applied) && SingleLines(applied);
    ghost var order :| Progress(Body(base), applied, applied.Keys, order, text);
  }

  lemma AllSingle(patches: map<string, string>, keys: seq<string>)
    requires IsIteration(patches, keys) && forall j | 0 <= j < |keys| :: !LooksFull(patches[keys[j]])
    ensures SingleLines(patches)
  {
    forall k | k in patches ensures '\n' !in patches[k] {
      assert k in keys;
      var j :| 0 <= j < |keys| && keys[j] == k;
      assert !LooksFull(patches[keys[j]]);
    }
  }

  function Done(applied: map<string, string>, keys: seq<string>): (s: set<string>)
    ensures forall k :: k in s <==> k in keys && k in applied
  {
    if keys == [] then {}
    else Done(applied, keys[..|keys| - 1]) + if keys[|keys| - 1] in applied then {keys[|keys| - 1]} else {}
  }

  ghost predicate Progress(base: seq<string>, applied: map<string, string>, done: set<string>,
                           order: seq<string>, text: string)
  {
    GoodKeys(applied) && SingleLines(applied) ==> Carried(base, applied, done, order, Lines(text))
  }

  method SetNext(ghost base: seq<string>, applied: map<string, string>, ghost done: set<string>,
                 ghost order: seq<string>, text: string, key: string)
    returns (next: string)
    requires Progress(base, applied, done, order, text) && key in applied && key !in done
    ensures Progress(base, applied, done + {key}, NextOrder(base, order, key), next)
  {
    if GoodKeys(applied) && SingleLines(applied) { SetPropertyCarries(base, applied, done, order, text, key); }
    next := SetProperty(text, key, applied[key]);
  }

  /** Sets, in iteration order, each key of the map that is to be applied. */
  method SetEach(content: string, applied: map<string, string>, keys: seq<string>, ghost patches: map<string, string>)
    returns (text: string)
    requires IsIteration(patches, keys) && applied.Keys <= patches.Keys
    ensures exists order :: Progress(Body(content), applied, applied.Keys, order, text)
  {
    text := content;
    ghost var order: seq<string> := [];
    CarriedAtStart(content, applied);
    ghost var base := Body(content);
    ghost var done := {};
    for i := 0 to |keys|
      invariant done == Done(applied, keys[..i])
      invariant Progress(base, applied, done, order, text)
    {
      DoneStep(applied, patches, keys, i);
      if keys[i] in applied {
        text := SetNext(base, applied, done, order, text, keys[i]);
        order := NextOrder(base, order, keys[i]);
        done := done + {keys[i]};
      }
    }
    DoneAll(applied, patches, keys);
  }

  lemma DoneStep(applied: map<string, string>, patches: map<string, string>, keys: seq<string>, i: nat)
    requires IsIteration(patches, keys) && i < |keys|
    ensures keys[i] !in Done(applied, keys[..i])
    ensures Done(applied, keys[..i + 1]) == Done(applied, keys[..i]) + if keys[i] in applied then {keys[i]} else {}
  {
    assert keys[..i + 1][..i] == keys[..i] && keys[i] !in keys[..i];
  }

  lemma DoneAll(applied: map<string, string>, patches: map<string, string>, keys: seq<string>)
    requires IsIteration(patches, keys) && applied.Keys <= patches.Keys
    ensures Done(applied, keys[..|keys|]) == applied.Keys
  {
    assert keys[..|keys|] == keys;
  }

  lemma CarriedAtStart(content: string, applied: map<string, string>)
    ensures Carried(Body(content), applied, {}, [], Lines(content))
  {
    LinesCarryThemselves(Lines(content), applied);
  }

  lemma LinesCarryThemselves(lines: seq<string>, applied: map<string, string>)
    ensures Carried(DropBlank(lines), applied, {}, [], lines)
  {
    var base := DropBlank(lines);
    NonEmptyOfBlanks(lines[|base|..]);
    forall i | 0 <= i < |base| ensures lines[i] == LineInPlace(base, applied, {}, i) {}
    assert Absent(base, {}, []);
  }

  /** After the merge the first line that sets a patched key carries its patch, and the
      first line that sets any other key is the one it was. */
  lemma LineAfterMerge(base: seq<string>, patches: map<string, string>, order: seq<string>, lines: seq<string>, key: string)
    requires GoodKeys(patches) && Carried(base, patches, patches.Keys, order, lines)
    requires key != "" && '=' !in key
    ensures LineFor(lines, key) == if key in patches then Some(Entry(key, patches[key])) else LineFor(base, key)
  {
    if key in order {
      AppendedLineIsFirst(base, patches, order, lines, key);
    } else {
      FirstMatchCarried(base, patches, patches.Keys, order, lines, key);
      var at := FirstMatch(base, key);
      if at < |base| {
        MatchesIsKey(base[at], key);
        assert lines[at] == LineInPlace(base, patches, patches.Keys, at);
      }
    }
  }

  lemma AppendedLineIsFirst(base: seq<string>, patches: map<string, string>, order: seq<string>, lines: seq<string>, key: string)
    requires GoodKeys(patches) && Carried(base, patches, patches.Keys, order, lines) && key in order
    ensures LineFor(lines, key) == Some(Entry(key, patches[key]))
  {
    var i := FirstMatch(lines, key);
    EntryInTail(patches, order, lines[|base|..], key);
    var j :| 0 <= j < |lines[|base|..]| && lines[|base|..][j] == Entry(key, patches[key]);
    assert lines[|base| + j] == Entry(key, patches[key]);
    EntrySetsKey(key, patches[key]);
    MatchesIsKey(lines[|base| + j], key);
    KeysCarried(base, patches, patches.Keys, order, lines, i);
    MatchesIsKey(lines[i], key);
    if i < |base| { MatchesIsKey(base[i], key); }
    BlankSetsNothing();
  }

  lemma {:induction false} EntryInTail(patches: map<string, string>, order: seq<string>, tail: seq<string>, key: string)
    requires (forall k | k in order :: k in patches) && key in order && NonEmpty(tail) == Appended(patches, order)
    ensures Entry(key, patches[key]) in tail
  {
    AppendedHas(patches, order, key);
    NonEmptyIsPart(tail, Entry(key, patches[key]));
  }

  lemma {:induction false} AppendedHas(patches: map<string, string>, order: seq<string>, key: string)
    requires (forall k | k in order :: k in patches) && key in order
    ensures Entry(key, patches[key]) in Appended(patches, order)
  {
    if key != order[|order| - 1] { AppendedHas(patches, order[..|order| - 1], key); }
  }

  lemma {:induction false} NonEmptyIsPart(a: seq<string>, line: string)
    requires line in NonEmpty(a)
    ensures line in a
  {
    if line != a[|a| - 1] { NonEmptyIsPart(a[..|a| - 1], line); }
  }

  /** The memory properties that may be patched. */
  const WHITELIST := ["query.max-memory", "query.max-memory-per-node", "query.max-total-memory-per-node",
                      "memory.heap-headroom-per-node"]

  lemma WhitelistIsGood(k: string)
    requires k in WHITELIST
    ensures GoodKey(k)
  {
    QueryKeysAreGood();
    assert GoodKey("query.max-total-memory-per-node");
    assert GoodKey("memory.heap-headroom-per-node");
  }

  lemma QueryKeysAreGood()
    ensures GoodKey("query.max-memory") && GoodKey("query.max-memory-per-node")
  {
  }

  predicate AllIn(keys: seq<string>, whitelist: seq<string>) { forall i | 0 <= i < |keys| :: keys[i] in whitelist }

  /** `MemoryConfigWhitelist` */
  method CheckWhitelist(keys: seq<string>, whitelist: seq<string>) returns (ok: bool)
    ensures ok <==> AllIn(keys, whitelist)
  {
    var i := 0;
    while i < |keys|
      invariant 0 <= i <= |keys| && forall j | 0 <= j < i :: keys[j] in whitelist
    {
      if keys[i] !in whitelist { return false; }
      i := i + 1;
    }
    return true;
  }

  /** The read-merge-write of a memory-config step: refused without patches, with a key
      off the whitelist, or when the file cannot be read; otherwise the file keeps its
      lines and order, each patched key's first line takes its patch, and a line is
      appended for each patched key that had none. */
  method AdjustMemoryConfig(current: Option<string>, patches: map<string, string>, keys: seq<string>, again: seq<string>)
    returns (text: Option<string>)
    requires IsIteration(patches, keys) && IsIteration(patches, again)
    ensures text.None? <==> keys == [] || !AllIn(keys, WHITELIST) || current.None?
    ensures text.Some? ==>
              exists order :: Carried(Body(Base(current.value, patches, keys)), Applied(patches, keys),
                                      Applied(patches, keys).Keys, order, Lines(text.value))
  {
    if keys == [] { return None; }
    var ok := CheckWhitelist(keys, WHITELIST);
    if !ok || current.None? { return None; }
    forall k | k in patches ensures GoodKey(k) {
      assert k in keys;
      WhitelistIsGood(k);
    }
    var merged := MergeProperties(current.value, patches, keys, again);
    text := Some(merged);
  }
}
