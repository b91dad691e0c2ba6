/** Text helpers: prefixes, selecting lines by prefix, joining lines, ASCII case. */
module Strings {

  predicate StartsWith(s: string, p: string) {
    |p| <= |s| && s[..|p|] == p
  }

  predicate EndsWith(s: string, p: string) {
    |p| <= |s| && s[|s| - |p|..] == p
  }

  /** Two strings that differ at an index inside `p` do not start with `p`. */
  lemma DiffersAt(s: string, p: string, i: nat)
    requires i < |p| && i < |s| && s[i] != p[i]
    ensures !StartsWith(s, p)
  {
  }

  lemma StartsWithAppend(p: string, t: string)
    ensures StartsWith(p + t, p)
  {
    assert (p + t)[..|p|] == p;
  }

  lemma EndsWithAppend(t: string, p: string)
    ensures EndsWith(t + p, p)
  {
    assert (t + p)[|t + p| - |p|..] == p;
  }

  /** The lines that start with `p`, in order */
  function Select(lines: seq<string>, p: string): (r: seq<string>)
    ensures forall l :: l in r ==> l in lines && StartsWith(l, p)
  {
    if lines == [] then []
    else
      var n := |lines| - 1;
      Select(lines[..n], p) + (if StartsWith(lines[n], p) then [lines[n]] else [])
  }

  lemma {:induction false} SelectAppend(a: seq<string>, b: seq<string>, p: string)
    ensures Select(a + b, p) == Select(a, p) + Select(b, p)
    decreases |b|
  {
    if b == [] {
      assert a + b == a;
    } else {
      var n := |b| - 1;
      assert (a + b)[..|a + b| - 1] == a + b[..n];
      SelectAppend(a, b[..n], p);
    }
  }

  /** Selecting from lines none of which starts with `p` gives nothing. */
  lemma {:induction false} SelectNone(lines: seq<string>, p: string)
    requires forall l :: l in lines ==> !StartsWith(l, p)
    ensures Select(lines, p) == []
    decreases |lines|
  {
    if lines != [] {
      SelectNone(lines[..|lines| - 1], p);
    }
  }

  /** The first element and the tail of `[x] + ys + rest` */
  lemma FirstAndTail<T>(x: T, ys: seq<T>, rest: seq<T>)
    ensures ([x] + ys + rest)[0] == x
    ensures ([x] + ys + rest)[1..] == ys + rest
  {
  }

  /** The step of an append lemma about a left fold: if `x` is `y` then
      `t`, and `y` splits as `a` then `b'`, where `b` is `b'` then `t`,
      then `x` is `a` then `b`. */
  lemma SnocAssoc<T>(x: seq<T>, y: seq<T>, a: seq<T>, b': seq<T>, b: seq<T>, t: seq<T>)
    requires x == y + t && y == a + b' && b == b' + t
    ensures x == a + b
  {
  }

  /** Among lines of which only `x` starts with `p`, selecting gives `[x]`. */
  lemma SelectOnly(a: seq<string>, x: string, b: seq<string>, p: string)
    requires forall l :: l in a ==> !StartsWith(l, p)
    requires forall l :: l in b ==> !StartsWith(l, p)
    requires StartsWith(x, p)
    ensures Select(a + [x] + b, p) == [x]
  {
    SelectAppend(a + [x], b, p);
    SelectAppend(a, [x], p);
    SelectNone(a, p);
    SelectNone(b, p);
    assert [x][..0] == [];
  }

  /** Selecting from `head + body + [""]` where no line of `head` starts
      with `p` selects from `body` alone. */
  lemma SelectFramed(head: seq<string>, body: seq<string>, p: string)
    requires p != []
    requires forall l :: l in head ==> !StartsWith(l, p)
    ensures Select(head + body + [""], p) == Select(body, p)
  {
    SelectAppend(head + body, [""], p);
    SelectAppend(head, body, p);
    SelectNone(head, p);
    SelectNone([""], p);
  }

  /** `sep.join(lines)` */
  function Join(lines: seq<string>, sep: string): (r: string)
    ensures lines != [] ==> StartsWith(r, lines[0]) && EndsWith(r, lines[|lines| - 1])
  {
    if lines == [] then ""
    else if |lines| == 1 then lines[0]
    else
      var n := |lines| - 1;
      var prefix := Join(lines[..n], sep);
      assert (prefix + sep + lines[n])[..|lines[0]|] == prefix[..|lines[0]|];
      prefix + sep + lines[n]
  }

  /** `c * n` for a one-character string `c` */
  function Repeat(c: char, n: nat): (r: string)
    ensures |r| == n && forall i :: 0 <= i < n ==> r[i] == c
  {
    if n == 0 then "" else [c] + Repeat(c, n - 1)
  }

  predicate IsAsciiUpper(c: char) {
    'A' <= c <= 'Z'
  }

  function LowerChar(c: char): char {
    if IsAsciiUpper(c) then (c as int - 'A' as int + 'a' as int) as char else c
  }

  /** `s.lower()` restricted to the ASCII letters */
  function LowerAscii(s: string): (r: string)
    ensures |r| == |s|
  {
    seq(|s|, i requires 0 <= i < |s| => LowerChar(s[i]))
  }
}
