/** Splitting a sequence at a separator, and joining it back. */
module Splitting {
  /** The pieces of `s` between separators; always at least one. */
  function Split<T(==)>(s: seq<T>, sep: T): (pieces: seq<seq<T>>)
    ensures |pieces| >= 1
  {
    if s == [] then [[]] else
    var rest := Split(s[..|s| - 1], sep);
    var last := s[|s| - 1];
    if last == sep then rest + [[]] else ExtendLast(rest, [last])
  }

  function Join<T>(pieces: seq<seq<T>>, sep: T): seq<T>
    requires pieces != []
  {
    if |pieces| == 1 then pieces[0] else Join(pieces[..|pieces| - 1], sep) + [sep] + pieces[|pieces| - 1]
  }

  predicate Free<T(==)>(pieces: seq<seq<T>>, sep: T) { forall i | 0 <= i < |pieces| :: sep !in pieces[i] }

  lemma {:induction false} SplitJoinsBack<T>(s: seq<T>, sep: T)
    ensures Free(Split(s, sep), sep) && Join(Split(s, sep), sep) == s
  {
    if s == [] {
    } else {
      var front, last := s[..|s| - 1], s[|s| - 1];
      SplitJoinsBack(front, sep);
      var rest := Split(front, sep);
      assert s == front + [last];
      if last == sep {
        assert (rest + [[]])[..|rest|] == rest;
      } else {
        JoinExtendLast(rest, sep, last);
      }
    }
  }

  lemma JoinExtendLast<T>(pieces: seq<seq<T>>, sep: T, x: T)
    requires pieces != []
    ensures Join(ExtendLast(pieces, [x]), sep) == Join(pieces, sep) + [x]
  {
    var out := ExtendLast(pieces, [x]);
    if |pieces| > 1 {
      assert out[..|out| - 1] == pieces[..|pieces| - 1];
    }
  }

  lemma {:induction false} SplitAppend<T>(s: seq<T>, sep: T, tail: seq<T>)
    requires sep !in tail
    ensures Split(s + tail, sep) == ExtendLast(Split(s, sep), tail)
  {
    if tail == [] {
      assert s + tail == s;
      ExtendNothing(Split(s, sep));
    } else {
      var front, x := tail[..|tail| - 1], tail[|tail| - 1];
      SplitAppend(s, sep, front);
      SplitAppendOne(s, sep, front, x);
      assert tail == front + [x];
    }
  }

  lemma SplitAppendOne<T>(s: seq<T>, sep: T, front: seq<T>, x: T)
    requires x != sep && Split(s + front, sep) == ExtendLast(Split(s, sep), front)
    ensures Split(s + (front + [x]), sep) == ExtendLast(Split(s, sep), front + [x])
  {
    AppendTwice(s, front, x);
    SplitPush(s + front, sep, x);
    ExtendTwice(Split(s, sep), front, x);
  }

  function ExtendLast<T>(p: seq<seq<T>>, tail: seq<T>): seq<seq<T>>
    requires p != []
  {
    p[..|p| - 1] + [p[|p| - 1] + tail]
  }

  lemma ExtendNothing<T>(p: seq<seq<T>>)
    requires p != []
    ensures ExtendLast(p, []) == p
  {
    assert p[|p| - 1] + [] == p[|p| - 1];
  }

  lemma AppendTwice<T>(s: seq<T>, a: seq<T>, x: T)
    ensures s + a + [x] == s + (a + [x])
  {
  }

  lemma SplitPush<T>(s: seq<T>, sep: T, x: T)
    ensures Split(s + [x], sep) == if x == sep then Split(s, sep) + [[]] else ExtendLast(Split(s, sep), [x])
  {
    assert (s + [x])[..|s + [x]| - 1] == s;
  }

  lemma ExtendTwice<T>(p: seq<seq<T>>, a: seq<T>, x: T)
    requires p != []
    ensures ExtendLast(ExtendLast(p, a), [x]) == ExtendLast(p, a + [x])
  {
    var q := ExtendLast(p, a);
    assert q[..|q| - 1] == p[..|p| - 1];
    AppendTwice(p[|p| - 1], a, x);
  }

  /** Around a separator the pieces of the two sides stand side by side. */
  lemma {:induction false} SplitConcat<T>(a: seq<T>, sep: T, b: seq<T>)
    ensures Split(a + [sep] + b, sep) == Split(a, sep) + Split(b, sep)
  {
    if b == [] {
      assert a + [sep] + b == a + [sep];
      SplitSeparator(a, sep);
    } else {
      var front, x := b[..|b| - 1], b[|b| - 1];
      SplitConcat(a, sep, front);
      AppendTwice(a + [sep], front, x);
      assert b == front + [x];
      SplitPush(a + [sep] + front, sep, x);
      SplitPush(front, sep, x);
      ExtendRight(Split(a, sep), Split(front, sep), x);
    }
  }

  lemma ExtendRight<T>(p: seq<seq<T>>, q: seq<seq<T>>, x: T)
    requires q != []
    ensures ExtendLast(p + q, [x]) == p + ExtendLast(q, [x])
    ensures (p + q) + [[]] == p + (q + [[]])
  {
    assert (p + q)[..|p + q| - 1] == p + q[..|q| - 1];
  }

  lemma SplitSeparator<T>(s: seq<T>, sep: T)
    ensures Split(s + [sep], sep) == Split(s, sep) + [[]]
  {
    assert (s + [sep])[..|s|] == s;
  }

  lemma FillLast<T>(front: seq<seq<T>>, last: seq<T>)
    ensures ExtendLast(front + [[]], last) == front + [last]
  {
    assert (front + [[]])[..|front|] == front && [] + last == last;
  }

  lemma SplitWhole<T>(s: seq<T>, sep: T)
    requires sep !in s
    ensures Split(s, sep) == [s]
  {
    SplitAppend([], sep, s);
    FillLast([], s);
    assert [] + s == s;
  }

  /** Separator-free pieces are found again: Split is the one way to cut. */
  lemma {:induction false} SplitOfJoin<T>(pieces: seq<seq<T>>, sep: T)
    requires pieces != [] && Free(pieces, sep)
    ensures Split(Join(pieces, sep), sep) == pieces
  {
    if |pieces| == 1 {
      SplitWhole(pieces[0], sep);
    } else {
      var front, last := pieces[..|pieces| - 1], pieces[|pieces| - 1];
      SplitOfJoin(front, sep);
      SplitConcat(Join(front, sep), sep, last);
      SplitWhole(last, sep);
    }
  }

  function NonEmpty<T(==)>(pieces: seq<seq<T>>): seq<seq<T>> {
    if pieces == [] then []
    else NonEmpty(pieces[..|pieces| - 1]) + if pieces[|pieces| - 1] == [] then [] else [pieces[|pieces| - 1]]
  }

  /** What stands before the first separator, or all of `s`. */
  function UpTo<T(==)>(s: seq<T>, sep: T): seq<T> {
    if s == [] || s[0] == sep then [] else [s[0]] + UpTo(s[1..], sep)
  }

  lemma {:induction false} UpToSeparator<T>(a: seq<T>, sep: T, b: seq<T>)
    requires sep !in a
    ensures UpTo(a + [sep] + b, sep) == a && UpTo(a, sep) == a
  {
    if a == [] {
    } else {
      UpToSeparator(a[1..], sep, b);
      assert (a + [sep] + b)[1..] == a[1..] + [sep] + b;
      assert a == [a[0]] + a[1..];
    }
  }

  /** Text behind a separator, or behind one that follows, is not looked at. */
  lemma {:induction false} UpToExtends<T>(s: seq<T>, sep: T, tail: seq<T>)
    requires tail != [] && tail[0] == sep
    ensures UpTo(s + tail, sep) == UpTo(s, sep)
  {
    if s == [] {
      assert s + tail == tail;
    } else {
      assert (s + tail)[1..] == s[1..] + tail;
      UpToExtends(s[1..], sep, tail);
    }
  }

  lemma {:induction false} UpToIsFree<T>(s: seq<T>, sep: T)
    ensures sep !in UpTo(s, sep) && UpTo(s, sep) <= s
    ensures |UpTo(s, sep)| < |s| ==> s[|UpTo(s, sep)|] == sep
  {
    if s != [] && s[0] != sep { UpToIsFree(s[1..], sep); }
  }
}
