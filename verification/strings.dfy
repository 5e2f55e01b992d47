/** JavaScript string operations used by the modelled code: the relational
    operators `<`/`>` on strings and the default order of
    `Array.prototype.sort` (lexicographic over UTF-16 code units),
    `String.prototype.indexOf` with a string argument, and
    `String.prototype.replace` with a string pattern (first occurrence only). */
module Strings {

  /** The UTF-16 code units of a character: the character itself below
      U+10000, otherwise its surrogate pair. A Dafny `char` is a Unicode
      scalar value, so a single unit is never a surrogate. */
  function CodeUnits(c: char): (r: seq<int>)
    ensures 1 <= |r| <= 2
    ensures forall k :: 0 <= k < |r| ==> 0 <= r[k] < 0x10000
    ensures |r| == 1 <==> (c as int) < 0x10000
    ensures |r| == 1 ==> r[0] == c as int && !(0xD800 <= r[0] < 0xE000)
    ensures |r| == 2 ==> 0xD800 <= r[0] < 0xDC00 && 0xDC00 <= r[1] < 0xE000
  {
    var n := c as int;
    if n < 0x10000 then [n] else [0xD800 + (n - 0x10000) / 0x400, 0xDC00 + (n - 0x10000) % 0x400]
  }

  /** The code units of a character read as one number, so that comparing
      keys compares the units lexicographically. */
  function UnitKey(c: char): int
  {
    var u := CodeUnits(c);
    u[0] * 0x10000 + (if |u| == 2 then u[1] else 0)
  }

  /** A character is determined by its code units. */
  lemma UnitsDetermine(a: char, b: char)
    requires CodeUnits(a) == CodeUnits(b)
    ensures a == b
  {
    var n, m := a as int, b as int;
    if n >= 0x10000 {
      assert n - 0x10000 == (n - 0x10000) / 0x400 * 0x400 + (n - 0x10000) % 0x400;
      assert m - 0x10000 == (m - 0x10000) / 0x400 * 0x400 + (m - 0x10000) % 0x400;
    }
  }

  /** Distinct characters have distinct keys. */
  lemma KeyInjective(a: char, b: char)
    requires UnitKey(a) == UnitKey(b)
    ensures a == b
  {
    assert CodeUnits(a)[0] == CodeUnits(b)[0];
    UnitsDetermine(a, b);
  }

  /** `a <= b` for JavaScript strings: lexicographic, characters compared
      by their UTF-16 code units, a proper prefix is smaller. */
  predicate Leq(a: string, b: string)
  {
    |a| == 0 || (|b| > 0 && (UnitKey(a[0]) < UnitKey(b[0]) || (a[0] == b[0] && Leq(a[1..], b[1..]))))
  }

  /** `a < b` for JavaScript strings. */
  predicate Lt(a: string, b: string)
  {
    Leq(a, b) && a != b
  }

  lemma {:induction false} LeqTotal(a: string, b: string)
    ensures Leq(a, b) || Leq(b, a)
  {
    if |a| > 0 && |b| > 0 {
      if a[0] == b[0] {
        LeqTotal(a[1..], b[1..]);
      } else if UnitKey(a[0]) == UnitKey(b[0]) {
        KeyInjective(a[0], b[0]);
      }
    }
  }

  lemma {:induction false} LeqTransitive(a: string, b: string, c: string)
    requires Leq(a, b) && Leq(b, c)
    ensures Leq(a, c)
  {
    if |a| > 0 && a[0] == b[0] && b[0] == c[0] {
      LeqTransitive(a[1..], b[1..], c[1..]);
    }
  }

  lemma {:induction false} LeqAntisymmetric(a: string, b: string)
    requires Leq(a, b) && Leq(b, a)
    ensures a == b
  {
    if |a| > 0 {
      LeqAntisymmetric(a[1..], b[1..]);
      assert a == [a[0]] + a[1..];
      assert b == [b[0]] + b[1..];
    }
  }

  /** A string as the sequence of UTF-16 code units JavaScript stores. */
  function Utf16(s: string): (r: seq<int>)
    ensures |s| <= |r| <= 2 * |s|
  {
    if |s| == 0 then [] else CodeUnits(s[0]) + Utf16(s[1..])
  }

  /** The order of the Abstract Relational Comparison of the ECMAScript
      standard on two strings: lexicographic over code units, a proper
      prefix is smaller. */
  predicate UnitsLeq(x: seq<int>, y: seq<int>)
  {
    |x| == 0 || (|y| > 0 && (x[0] < y[0] || (x[0] == y[0] && UnitsLeq(x[1..], y[1..]))))
  }

  /** `Leq`, which compares character by character, is the order of the
      strings' code-unit sequences. */
  lemma {:induction false} LeqIsCodeUnitOrder(a: string, b: string)
    ensures Leq(a, b) <==> UnitsLeq(Utf16(a), Utf16(b))
  {
    if |a| > 0 && |b| > 0 {
      var u, v := CodeUnits(a[0]), CodeUnits(b[0]);
      var x, y := Utf16(a[1..]), Utf16(b[1..]);
      LeqIsCodeUnitOrder(a[1..], b[1..]);
      if a[0] == b[0] {
        UnitsLeqCommonPrefix(u, x, y);
      } else {
        FirstCharDecides(a[0], b[0], x, y);
      }
    }
  }

  lemma {:induction false} UnitsLeqCommonPrefix(u: seq<int>, x: seq<int>, y: seq<int>)
    ensures UnitsLeq(u + x, u + y) <==> UnitsLeq(x, y)
  {
    if |u| > 0 {
      assert (u + x)[1..] == u[1..] + x;
      assert (u + y)[1..] == u[1..] + y;
      UnitsLeqCommonPrefix(u[1..], x, y);
    } else {
      assert u + x == x && u + y == y;
    }
  }

  /** Two different characters are ordered by their first differing code
      unit, which lies within their own units. */
  lemma FirstCharDecides(c: char, d: char, x: seq<int>, y: seq<int>)
    requires c != d
    ensures UnitsLeq(CodeUnits(c) + x, CodeUnits(d) + y) <==> UnitKey(c) < UnitKey(d)
  {
    var u, v := CodeUnits(c), CodeUnits(d);
    assert (u + x)[0] == u[0] && (v + y)[0] == v[0];
    if u[0] == v[0] {
      if u == v {
        UnitsDetermine(c, d);
      }
      assert |u| == 2 && |v| == 2;
      assert (u + x)[1..][0] == u[1] && (v + y)[1..][0] == v[1];
    }
  }

  /** A character above U+FFFF comes before U+E000, whose code point is
      smaller: its first code unit is the surrogate 0xD800. */
  lemma AstralBeforePrivateUse()
    ensures Lt("\U{10000}", "\U{E000}") && !Leq("\U{E000}", "\U{10000}")
  {
    assert UnitKey('\U{10000}') == 0xD800 * 0x10000 + 0xDC00;
    assert UnitKey('\U{E000}') == 0xE000 * 0x10000;
  }

  /** `pat` occurs in `s` starting at position `i`. */
  predicate OccursAt(s: string, pat: string, i: int)
  {
    0 <= i && i + |pat| <= |s| && s[i..i + |pat|] == pat
  }

  /** `pat` is a substring of `s`. */
  ghost predicate Contains(s: string, pat: string)
  {
    exists i :: OccursAt(s, pat, i)
  }

  /** The search behind `indexOf`, started at position `from`. */
  function FindFrom(s: string, pat: string, from: nat): (r: int)
    requires from <= |s|
    ensures r == -1 || (from <= r <= |s| && OccursAt(s, pat, r))
    ensures r == -1 ==> forall j :: from <= j ==> !OccursAt(s, pat, j)
    ensures r != -1 ==> forall j :: from <= j < r ==> !OccursAt(s, pat, j)
    decreases |s| - from
  {
    if OccursAt(s, pat, from) then from
    else if from == |s| then -1
    else FindFrom(s, pat, from + 1)
  }

  /** `s.indexOf(pat)`: the first position where `pat` occurs, or -1.
      As in JavaScript, the empty pattern is found at position 0. */
  function IndexOf(s: string, pat: string): (r: int)
    ensures r == -1 <==> !Contains(s, pat)
    ensures r != -1 ==> OccursAt(s, pat, r) && forall j :: 0 <= j < r ==> !OccursAt(s, pat, j)
  {
    FindFrom(s, pat, 0)
  }

  /** `s.replace(pat, rep)` with a string pattern: only the first occurrence
      is replaced; without an occurrence the string is returned as is.
      (`rep` is taken literally: the model never passes `$` patterns.) */
  function ReplaceFirst(s: string, pat: string, rep: string): (r: string)
    ensures !Contains(s, pat) ==> r == s
    ensures Contains(s, pat) ==>
      var i := IndexOf(s, pat);
      && |r| == |s| - |pat| + |rep|
      && r[..i] == s[..i]
      && r[i..i + |rep|] == rep
      && r[i + |rep|..] == s[i + |pat|..]
  {
    var i := IndexOf(s, pat);
    if i == -1 then s else s[..i] + rep + s[i + |pat|..]
  }

  /** Deleting the first occurrence, when it is known to start at `i`. */
  lemma DeleteFirstAt(s: string, pat: string, i: nat)
    requires OccursAt(s, pat, i) && forall j :: 0 <= j < i ==> !OccursAt(s, pat, j)
    ensures ReplaceFirst(s, pat, "") == s[..i] + s[i + |pat|..]
  {
    assert Contains(s, pat);
  }

  /** A string contains each of its prefixes. */
  lemma ContainsPrefix(a: string, b: string)
    ensures Contains(a + b, a)
  {
    assert OccursAt(a + b, a, 0) by {
      assert (a + b)[0..|a|] == a;
    }
  }

  /** Prepending keeps every substring. */
  lemma ContainsAfterPrepend(a: string, s: string, pat: string)
    requires Contains(s, pat)
    ensures Contains(a + s, pat)
  {
    var i :| OccursAt(s, pat, i);
    assert (a + s)[|a| + i..|a| + i + |pat|] == s[i..i + |pat|];
    assert OccursAt(a + s, pat, |a| + i);
  }

  /** `s` is ordered by `key` under the JavaScript string order. */
  ghost predicate SortedBy<T>(s: seq<T>, key: T -> string)
  {
    forall i, j :: 0 <= i < j < |s| ==> Leq(key(s[i]), key(s[j]))
  }

  /** Insertion into a sorted sequence, in front of the first element not below `x`. */
  function InsertBy<T>(x: T, s: seq<T>, key: T -> string): (r: seq<T>)
    requires SortedBy(s, key)
    ensures SortedBy(r, key)
    ensures multiset(r) == multiset(s) + multiset{x}
  {
    if |s| == 0 then [x]
    else if Leq(key(x), key(s[0])) then
      BelowSortedHead(x, s, key);
      [x] + s
    else
      var rest := InsertBy(x, s[1..], key);
      LeqTotal(key(x), key(s[0]));
      assert s == [s[0]] + s[1..];
      BelowInserted(s[0], x, s[1..], rest, key);
      [s[0]] + rest
  }

  /** A sort by a string key, as `Array.prototype.sort` with a comparator
      that compares the keys with `<` and `>`. Equal keys keep their input
      order (one of the orders such a sort may produce). */
  function SortBy<T>(s: seq<T>, key: T -> string): (r: seq<T>)
    ensures SortedBy(r, key)
    ensures multiset(r) == multiset(s)
  {
    if |s| == 0 then []
    else
      assert s == [s[0]] + s[1..];
      InsertBy(s[0], SortBy(s[1..], key), key)
  }

  lemma BelowSortedHead<T>(x: T, s: seq<T>, key: T -> string)
    requires SortedBy(s, key) && |s| > 0 && Leq(key(x), key(s[0]))
    ensures forall j :: 0 <= j < |s| ==> Leq(key(x), key(s[j]))
  {
    forall j | 0 < j < |s| {
      LeqTransitive(key(x), key(s[0]), key(s[j]));
    }
  }

  lemma BelowInserted<T>(y: T, x: T, t: seq<T>, r: seq<T>, key: T -> string)
    requires forall i :: 0 <= i < |t| ==> Leq(key(y), key(t[i]))
    requires Leq(key(y), key(x))
    requires multiset(r) == multiset(t) + multiset{x}
    ensures forall j :: 0 <= j < |r| ==> Leq(key(y), key(r[j]))
  {
    forall j | 0 <= j < |r|
      ensures Leq(key(y), key(r[j]))
    {
      assert r[j] in multiset(r);
      if r[j] != x {
        assert r[j] in multiset(t);
        var i :| 0 <= i < |t| && t[i] == r[j];
      }
    }
  }
}
