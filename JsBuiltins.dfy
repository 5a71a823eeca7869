/** The JavaScript built-ins the modelled scripts lean on, written out so that
    their edge cases (empty strings, negative remainders, out-of-range splice
    indices) are explicit. Strings are sequences of characters. */
module JsBuiltins {

  /** WhiteSpace and LineTerminator code points of ECMAScript: the characters
      `String.prototype.trim` strips and the regular-expression class `\s`
      matches. */
  predicate IsWhitespace(c: char) {
    || c == '\t' || c == '\n' || c == '\U{000B}' || c == '\U{000C}' || c == '\r'
    || c == ' ' || c == '\U{00A0}' || c == '\U{1680}'
    || ('\U{2000}' <= c <= '\U{200A}')
    || c == '\U{2028}' || c == '\U{2029}' || c == '\U{202F}' || c == '\U{205F}'
    || c == '\U{3000}' || c == '\U{FEFF}'
  }

  predicate AllWhitespace(s: string) {
    forall i :: 0 <= i < |s| ==> IsWhitespace(s[i])
  }

  /** Leading whitespace removed. */
  function TrimStart(s: string): (r: string)
    ensures |r| <= |s| && r == s[|s| - |r|..]
    ensures AllWhitespace(s[..|s| - |r|])
    ensures r != [] ==> !IsWhitespace(r[0])
  {
    if s != [] && IsWhitespace(s[0]) then
      var r := TrimStart(s[1..]);
      assert s[..|s| - |r|] == [s[0]] + s[1..][..|s| - 1 - |r|];
      AllWhitespaceConcat([s[0]], s[1..][..|s| - 1 - |r|]);
      r
    else s
  }

  /** Trailing whitespace removed. */
  function TrimEnd(s: string): (r: string)
    ensures |r| <= |s| && r == s[..|r|]
    ensures AllWhitespace(s[|r|..])
    ensures r != [] ==> !IsWhitespace(r[|r| - 1])
  {
    if s != [] && IsWhitespace(s[|s| - 1]) then TrimEnd(s[..|s| - 1]) else s
  }

  /** `s.trim()`: whitespace removed at both ends. */
  function Trim(s: string): (r: string)
    ensures |r| <= |s|
    ensures r != [] ==> !IsWhitespace(r[0]) && !IsWhitespace(r[|r| - 1])
    ensures r == [] <==> AllWhitespace(s)
    ensures exists a, b :: s == a + r + b && AllWhitespace(a) && AllWhitespace(b)
  {
    var t := TrimStart(s);
    var r := TrimEnd(t);
    TrimParts(s, t, r);
    r
  }

  lemma TrimParts(s: string, t: string, r: string)
    requires |t| <= |s| && t == s[|s| - |t|..] && AllWhitespace(s[..|s| - |t|])
    requires t != [] ==> !IsWhitespace(t[0])
    requires |r| <= |t| && r == t[..|r|] && AllWhitespace(t[|r|..])
    ensures r != [] ==> !IsWhitespace(r[0])
    ensures r == [] <==> AllWhitespace(s)
    ensures exists a, b :: s == a + r + b && AllWhitespace(a) && AllWhitespace(b)
  {
    var k := |s| - |t|;
    assert s == s[..k] + t;
    assert t == r + t[|r|..];
    assert s == s[..k] + r + t[|r|..];
    AllWhitespaceConcat(s[..k], t);
    if r != [] { assert r[0] == t[0]; }
  }

  lemma AllWhitespaceConcat(a: string, b: string)
    ensures AllWhitespace(a + b) <==> AllWhitespace(a) && AllWhitespace(b)
  {
    if AllWhitespace(a) && AllWhitespace(b) {
      forall i | 0 <= i < |a + b| ensures IsWhitespace((a + b)[i]) {
        if i < |a| { assert (a + b)[i] == a[i]; } else { assert (a + b)[i] == b[i - |a|]; }
      }
    }
    if AllWhitespace(a + b) {
      forall i | 0 <= i < |b| ensures IsWhitespace(b[i]) {
        assert (a + b)[|a| + i] == b[i];
      }
      forall i | 0 <= i < |a| ensures IsWhitespace(a[i]) {
        assert (a + b)[i] == a[i];
      }
    }
  }

  /** `s.split(sep)` for a one-character separator: the pieces between
      occurrences of `sep`; never empty, `"".split(sep)` is `[""]`. */
  function Split(s: string, sep: char): (parts: seq<string>)
    ensures |parts| >= 1
    ensures forall i :: 0 <= i < |parts| ==> sep !in parts[i]
    ensures forall i, x :: 0 <= i < |parts| && x in parts[i] ==> x in s
  {
    if s == [] then [[]]
    else
      var rest := Split(s[1..], sep);
      assert forall x :: x in s[1..] ==> x in s;
      if s[0] == sep then [[]] + rest
      else [[s[0]] + rest[0]] + rest[1..]
  }

  /** `parts.join(sep)`. */
  function Join(parts: seq<string>, sep: char): string {
    if |parts| == 0 then []
    else if |parts| == 1 then parts[0]
    else parts[0] + [sep] + Join(parts[1..], sep)
  }

  /** Joining the pieces of a split gives back the text. */
  lemma {:induction false} JoinSplit(s: string, sep: char)
    ensures Join(Split(s, sep), sep) == s
  {
    if s != [] {
      var rest := Split(s[1..], sep);
      JoinSplit(s[1..], sep);
      if s[0] == sep {
        assert Split(s, sep) == [[]] + rest;
        assert Join([[]] + rest, sep) == [] + [sep] + Join(rest, sep);
      } else {
        var parts := [[s[0]] + rest[0]] + rest[1..];
        assert Split(s, sep) == parts;
        if |rest| == 1 {
          assert Join(parts, sep) == [s[0]] + rest[0];
        } else {
          assert parts[1..] == rest[1..];
          assert Join(rest, sep) == rest[0] + [sep] + Join(rest[1..], sep);
          assert Join(parts, sep) == [s[0]] + rest[0] + [sep] + Join(rest[1..], sep);
        }
        assert s == [s[0]] + s[1..];
      }
    }
  }

  /** Splitting a join of separator-free pieces gives back the pieces. */
  lemma {:induction false} SplitJoin(parts: seq<string>, sep: char)
    requires |parts| >= 1
    requires forall i :: 0 <= i < |parts| ==> sep !in parts[i]
    ensures Split(Join(parts, sep), sep) == parts
  {
    if |parts| == 1 {
      SplitPiece(parts[0], sep);
    } else {
      SplitJoin(parts[1..], sep);
      SplitPrefix(parts[0], Join(parts[1..], sep), sep);
      assert [parts[0]] + parts[1..] == parts;
    }
  }

  /** A separator-free text splits into itself. */
  lemma {:induction false} SplitPiece(p: string, sep: char)
    requires sep !in p
    ensures Split(p, sep) == [p]
  {
    if p != [] {
      SplitPiece(p[1..], sep);
      assert [p[0]] + p[1..] == p;
    }
  }

  /** Splitting `p + [sep] + t` for a separator-free `p`. */
  lemma {:induction false} SplitPrefix(p: string, t: string, sep: char)
    requires sep !in p
    ensures Split(p + [sep] + t, sep) == [p] + Split(t, sep)
  {
    if p == [] {
      assert p + [sep] + t == [sep] + t;
      assert ([sep] + t)[1..] == t;
    } else {
      SplitPrefix(p[1..], t, sep);
      assert (p + [sep] + t)[1..] == p[1..] + [sep] + t;
      assert [p[0]] + p[1..] == p;
    }
  }

  /** `s.indexOf(c)`: the first index holding `c`, or -1. */
  function IndexOf(s: string, c: char): (k: int)
    ensures -1 <= k < |s|
    ensures k >= 0 ==> s[k] == c && c !in s[..k]
    ensures k == -1 <==> c !in s
  {
    if s == [] then -1
    else if s[0] == c then 0
    else
      var k := IndexOf(s[1..], c);
      if k == -1 then -1
      else
        assert s[..k + 1] == [s[0]] + s[1..][..k];
        k + 1
  }

  /** `r` is `s` with its first occurrence of `c` deleted and the rest kept in
      order, or `s` itself when `c` does not occur. */
  predicate RemovesFirst(s: string, c: char, r: string) {
    if c in s then exists k :: 0 <= k < |s| && s[k] == c && c !in s[..k] && r == s[..k] + s[k + 1..]
    else r == s
  }

  /** `s.replace(c, "")` for a one-character string `c`: the first occurrence
      of `c` is deleted, the rest keeps its order. */
  function ReplaceFirst(s: string, c: char): (r: string)
    ensures RemovesFirst(s, c, r)
    ensures c !in s ==> r == s
    ensures c in s ==> |r| == |s| - 1 && multiset(r) == multiset(s) - multiset{c}
  {
    var k := IndexOf(s, c);
    if k < 0 then s
    else
      assert s == s[..k] + [c] + s[k + 1..];
      s[..k] + s[k + 1..]
  }

  /** The remainder `a % n` of JavaScript, which truncates toward zero: its
      sign is the sign of `a`. */
  function JsRem(a: int, n: int): (r: int)
    requires n > 0
    ensures -n < r < n
    ensures a >= 0 ==> r >= 0
    ensures a < 0 ==> r <= 0
  {
    if a >= 0 then a % n else -((-a) % n)
  }

  /** The remainder completes the truncating division: a == q * n + r. */
  lemma JsRemDivision(a: int, n: int)
    requires n > 0
    ensures a == JsQuot(a, n) * n + JsRem(a, n)
  {
  }

  /** The quotient `a / n` truncated toward zero, as `Math.trunc(a / n)`. */
  function JsQuot(a: int, n: int): int
    requires n > 0
  {
    if a >= 0 then a / n else -((-a) / n)
  }

  /** The start position `Array.prototype.splice` derives from its first
      argument: negative values count from the end, both ends are clamped. */
  function SpliceStart(len: nat, start: int): (k: nat)
    ensures k <= len
    ensures 0 <= start <= len ==> k == start
    ensures -(len as int) <= start < 0 ==> k as int == len as int + start
    ensures start < -(len as int) ==> k == 0
    ensures start > len as int ==> k == len
  {
    if start < 0 then (if len + start < 0 then 0 else len + start)
    else if start > len then len
    else start
  }

  /** The array left by `a.splice(start, 1)`. */
  function SpliceOne<T>(s: seq<T>, start: int): (r: seq<T>)
    ensures |r| == |s| - 1 || r == s
    ensures multiset(r) <= multiset(s)
    ensures -|s| <= start < |s| ==>
              var k := SpliceStart(|s|, start);
              |r| == |s| - 1 && r[..k] == s[..k] && r[k..] == s[k + 1..]
    ensures start >= |s| ==> r == s
    ensures start < -|s| && s != [] ==> r == s[1..]
  {
    var k := SpliceStart(|s|, start);
    if k < |s| then
      assert s == s[..k] + [s[k]] + s[k + 1..];
      s[..k] + s[k + 1..]
    else s
  }

  /** `a.reverse()` as a value: the last element first. */
  function Reversed<T>(s: seq<T>): (r: seq<T>)
    ensures |r| == |s|
    ensures forall i :: 0 <= i < |s| ==> r[i] == s[|s| - 1 - i]
  {
    if s == [] then [] else [s[|s| - 1]] + Reversed(s[..|s| - 1])
  }

  /** Reversing twice gives back the sequence. */
  lemma ReversedTwice<T>(s: seq<T>)
    ensures Reversed(Reversed(s)) == s
  {
    var r := Reversed(Reversed(s));
    assert forall i :: 0 <= i < |s| ==> r[i] == s[i];
  }

  /** An element of a JavaScript array of numbers: a number, or `undefined`
      (what reading past the end or shifting an empty array yields). */
  datatype Value = Undefined | Num(n: int)

  /** A JavaScript array, mutated in place by its own methods. */
  class JsArray {
    var elems: seq<Value>

    constructor (init: seq<Value>)
      ensures elems == init
    {
      elems := init;
    }

    /** `a.shift()`: removes and returns the first element. */
    method Shift() returns (x: Value)
      modifies this
      ensures old(elems) == [] ==> x == Undefined && elems == []
      ensures old(elems) != [] ==> x == old(elems)[0] && elems == old(elems)[1..]
    {
      if elems == [] {
        x := Undefined;
      } else {
        x, elems := elems[0], elems[1..];
      }
    }

    /** `a.pop()`: removes and returns the last element. */
    method Pop() returns (x: Value)
      modifies this
      ensures old(elems) == [] ==> x == Undefined && elems == []
      ensures old(elems) != [] ==> x == old(elems)[|old(elems)| - 1] && elems == old(elems)[..|old(elems)| - 1]
    {
      if elems == [] {
        x := Undefined;
      } else {
        x, elems := elems[|elems| - 1], elems[..|elems| - 1];
      }
    }

    /** `a.push(x)`. */
    method Push(x: Value)
      modifies this
      ensures elems == old(elems) + [x]
    {
      elems := elems + [x];
    }

    /** `a.unshift(x)`. */
    method Unshift(x: Value)
      modifies this
      ensures elems == [x] + old(elems)
    {
      elems := [x] + elems;
    }

    /** `a.reverse()`. */
    method Reverse()
      modifies this
      ensures elems == Reversed(old(elems))
    {
      elems := Reversed(elems);
    }
  }
}
