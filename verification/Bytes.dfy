/**
 Go strings are byte strings. This module gives the few byte-string operations that room identity
 rests on: the byte order used by sort.Strings, strings.Split / strings.Join on a one-byte separator,
 and strings.TrimSpace, whose white space is the UTF-8 encoding of Unicode white space.
 */
module Bytes {

  newtype Byte = x: int | 0 <= x < 256

  type Str = seq<Byte>

  const DASH: Byte := 0x2D
  const COLON: Byte := 0x3A
  const UNDERSCORE: Byte := 0x5F

  // ---------------------------------------------------------------- order

  /** a < b in Go's string order: bytewise, a proper prefix first. */
  predicate Less(a: Str, b: Str) {
    b != [] && (a == [] || a[0] < b[0] || (a[0] == b[0] && Less(a[1..], b[1..])))
  }

  lemma {:induction false} LessAsymmetric(a: Str, b: Str)
    ensures !(Less(a, b) && Less(b, a))
    ensures Less(a, b) ==> a != b
  {
    if a != [] && b != [] && a[0] == b[0] {
      LessAsymmetric(a[1..], b[1..]);
    }
  }

  lemma {:induction false} LessTotal(a: Str, b: Str)
    ensures Less(a, b) || a == b || Less(b, a)
  {
    if a != [] && b != [] && a[0] == b[0] {
      LessTotal(a[1..], b[1..]);
      assert a == [a[0]] + a[1..] && b == [b[0]] + b[1..];
    }
  }

  /** a < b, on the bytes: they agree up to some place, where a ends or has the lower byte. */
  ghost predicate LowerFrom(a: Str, b: Str, k: nat) {
    && k <= |a| && k < |b| && (forall j :: 0 <= j < k ==> a[j] == b[j])
    && (k == |a| || a[k] < b[k])
  }

  lemma {:induction false} LessIff(a: Str, b: Str)
    ensures Less(a, b) <==> exists k: nat :: LowerFrom(a, b, k)
  {
    if a != [] && b != [] && a[0] == b[0] {
      LessIff(a[1..], b[1..]);
      if k: nat :| LowerFrom(a[1..], b[1..], k) {
        assert LowerFrom(a, b, k + 1);
      }
      if k: nat :| LowerFrom(a, b, k) {
        assert LowerFrom(a[1..], b[1..], k - 1);
      }
    } else if Less(a, b) {
      assert LowerFrom(a, b, 0);
    }
  }

  /** Once two strings differ at some byte of both, whatever follows does not matter. */
  lemma {:induction false} LessExtend(a: Str, b: Str, x: Str, y: Str)
    requires Less(a, b) && !(a <= b)
    ensures Less(a + x, b + y)
  {
    if a[0] == b[0] {
      assert a == [a[0]] + a[1..] && b == [b[0]] + b[1..];
      LessExtend(a[1..], b[1..], x, y);
      assert (a + x)[1..] == a[1..] + x && (b + y)[1..] == b[1..] + y;
    }
  }

  lemma {:induction false} LessPrepend(p: Str, a: Str, b: Str)
    ensures Less(p + a, p + b) == Less(a, b)
  {
    if p == [] {
      assert p + a == a && p + b == b;
    } else {
      LessPrepend(p[1..], a, b);
      assert (p + a)[1..] == p[1..] + a && (p + b)[1..] == p[1..] + b;
    }
  }

  /** 256 to the n. */
  function Pow256(n: nat): (r: nat)
    ensures r > 0
  {
    if n == 0 then 1 else 256 * Pow256(n - 1)
  }

  /** The string read as a big-endian number: a well-founded measure for strings of one length. */
  function Value(s: Str): nat {
    if s == [] then 0 else (s[0] as nat) * Pow256(|s| - 1) + Value(s[1..])
  }

  lemma {:induction false} ValueBound(s: Str)
    ensures Value(s) < Pow256(|s|)
  {
    if s != [] {
      ValueBound(s[1..]);
      NextMultiple(s[0] as nat, 256, Pow256(|s| - 1));
    }
  }

  lemma NextMultiple(a: nat, b: nat, k: nat)
    requires a < b
    ensures a * k + k <= b * k
  {
    assert (a + 1) * k == a * k + k;
    assert (a + 1) * k <= b * k;
  }

  lemma {:induction false} LessDecreasesValue(a: Str, b: Str)
    requires |a| == |b| && Less(a, b)
    ensures Value(a) < Value(b)
  {
    if a[0] == b[0] {
      LessDecreasesValue(a[1..], b[1..]);
    } else {
      ValueBound(a[1..]);
      NextMultiple(a[0] as nat, b[0] as nat, Pow256(|a| - 1));
    }
  }

  // ------------------------------------------------------- split and join

  /** Position of the first c in s, or |s|. */
  function IndexOf(s: Str, c: Byte): (i: nat)
    ensures i <= |s| && c !in s[..i]
    ensures i < |s| ==> s[i] == c
    ensures c in s <==> i < |s|
  {
    if s == [] || s[0] == c then 0
    else
      var j := IndexOf(s[1..], c);
      assert s[..1 + j] == [s[0]] + s[1..][..j];
      assert s == [s[0]] + s[1..];
      1 + j
  }

  lemma {:induction false} IndexOfAppend(p: Str, c: Byte, rest: Str)
    requires c !in p
    ensures IndexOf(p + [c] + rest, c) == |p|
  {
    var s := p + [c] + rest;
    if p != [] {
      IndexOfAppend(p[1..], c, rest);
      assert s[1..] == p[1..] + [c] + rest;
    }
  }

  function Split(s: Str, c: Byte): (parts: seq<Str>)
    ensures |parts| >= 1
  {
    if c !in s then [s]
    else
      var i := IndexOf(s, c);
      [s[..i]] + Split(s[i + 1..], c)
  }

  function Join(parts: seq<Str>, c: Byte): Str {
    if parts == [] then []
    else if |parts| == 1 then parts[0]
    else parts[0] + [c] + Join(parts[1..], c)
  }

  lemma JoinCons(first: Str, rest: seq<Str>, c: Byte)
    requires rest != []
    ensures Join([first] + rest, c) == first + [c] + Join(rest, c)
  {
    assert ([first] + rest)[1..] == rest;
  }

  lemma {:induction false} JoinSplit(s: Str, c: Byte)
    ensures Join(Split(s, c), c) == s
  {
    if c in s {
      var i := IndexOf(s, c);
      JoinSplit(s[i + 1..], c);
      JoinCons(s[..i], Split(s[i + 1..], c), c);
      assert s == s[..i] + [c] + s[i + 1..];
    }
  }

  lemma Regroup(x: Str, c: Byte, y: Str, z: Str)
    ensures x + [c] + y + [c] + z == x + [c] + (y + [c] + z)
  {
  }

  /** The part before the first c (all of s when there is none). */
  function Head(s: Str, c: Byte): Str {
    s[..IndexOf(s, c)]
  }

  /** The part after the first c (empty when there is none). */
  function Tail(s: Str, c: Byte): Str {
    if c in s then s[IndexOf(s, c) + 1..] else []
  }

  lemma HeadTail(p: Str, c: Byte, rest: Str)
    requires c !in p
    ensures c in p + [c] + rest
    ensures Head(p + [c] + rest, c) == p
    ensures Tail(p + [c] + rest, c) == rest
  {
    IndexOfAppend(p, c, rest);
    assert (p + [c] + rest)[|p|] == c;
    assert (p + [c] + rest)[..|p|] == p;
    assert (p + [c] + rest)[|p| + 1..] == rest;
  }

  lemma Recompose(s: Str, c: Byte)
    requires c in s
    ensures s == Head(s, c) + [c] + Tail(s, c)
    ensures c !in Head(s, c)
  {
  }

  // ----------------------------------------------------------- white space

  // unicode.IsSpace, by the length of the rune's UTF-8 encoding.

  predicate Space1(b: Byte) {
    0x09 <= b <= 0x0D || b == 0x20
  }

  predicate Space2(b: Byte, c: Byte) {
    b == 0xC2 && (c == 0x85 || c == 0xA0)
  }

  predicate Space3(b: Byte, c: Byte, d: Byte) {
    || (b == 0xE1 && c == 0x9A && d == 0x80)
    || (b == 0xE2 && c == 0x80 && (0x80 <= d <= 0x8A || d == 0xA8 || d == 0xA9 || d == 0xAF))
    || (b == 0xE2 && c == 0x81 && d == 0x9F)
    || (b == 0xE3 && c == 0x80 && d == 0x80)
  }

  /** The code points with Unicode's White_Space property. */
  predicate UnicodeSpace(cp: int) {
    || 0x09 <= cp <= 0x0D || cp == 0x20 || cp == 0x85 || cp == 0xA0 || cp == 0x1680 || 0x2000 <= cp <= 0x200A
    || cp == 0x2028 || cp == 0x2029 || cp == 0x202F || cp == 0x205F || cp == 0x3000
  }

  predicate Continues(b: Byte) {
    0x80 <= b <= 0xBF
  }

  /** The three predicates say which UTF-8 encodings of one, two and three bytes are white space. */
  lemma SpacesAreUnicode(b: Byte, c: Byte, d: Byte)
    ensures Space1(b) <==> b < 0x80 && UnicodeSpace(b as int)
    ensures Space2(b, c) <==>
            0xC2 <= b <= 0xDF && Continues(c) && UnicodeSpace((b as int - 0xC0) * 64 + (c as int - 0x80))
    ensures var cp := (b as int - 0xE0) * 4096 + (c as int - 0x80) * 64 + (d as int - 0x80);
            Space3(b, c, d) <==> 0xE0 <= b <= 0xEF && Continues(c) && Continues(d) && cp >= 0x800 && UnicodeSpace(cp)
  {
  }

  /** Length of the white-space rune s starts with, 0 when there is none. */
  function LeadingSpace(s: Str): (n: nat)
    ensures n <= |s|
  {
    if |s| >= 1 && Space1(s[0]) then 1
    else if |s| >= 2 && Space2(s[0], s[1]) then 2
    else if |s| >= 3 && Space3(s[0], s[1], s[2]) then 3
    else 0
  }

  /** Length of the white-space rune s ends with, 0 when there is none. */
  function TrailingSpace(s: Str): (n: nat)
    ensures n <= |s|
  {
    var k := |s|;
    if k >= 1 && Space1(s[k - 1]) then 1
    else if k >= 2 && Space2(s[k - 2], s[k - 1]) then 2
    else if k >= 3 && Space3(s[k - 3], s[k - 2], s[k - 1]) then 3
    else 0
  }

  function TrimLeft(s: Str): (r: Str)
    ensures LeadingSpace(r) == 0 && |r| <= |s|
    ensures LeadingSpace(s) == 0 ==> r == s
    decreases |s|
  {
    var n := LeadingSpace(s);
    if n == 0 then s else TrimLeft(s[n..])
  }

  function TrimRight(s: Str): (r: Str)
    ensures TrailingSpace(r) == 0 && r <= s
    ensures TrailingSpace(s) == 0 ==> r == s
    decreases |s|
  {
    var n := TrailingSpace(s);
    if n == 0 then s else TrimRight(s[..|s| - n])
  }

  function TrimSpace(s: Str): Str {
    TrimRight(TrimLeft(s))
  }

  predicate Trimmed(s: Str) {
    LeadingSpace(s) == 0 && TrailingSpace(s) == 0
  }

  lemma PrefixLeading(p: Str, s: Str)
    requires p <= s && LeadingSpace(s) == 0
    ensures LeadingSpace(p) == 0
  {
  }

  /** Trimming gives a trimmed string, leaves a trimmed string alone and shortens any other. */
  lemma TrimSpaceSpec(s: Str)
    ensures Trimmed(TrimSpace(s))
    ensures Trimmed(s) <==> TrimSpace(s) == s
    ensures !Trimmed(s) ==> |TrimSpace(s)| < |s|
  {
    var l := TrimLeft(s);
    PrefixLeading(TrimRight(l), l);
    if LeadingSpace(s) > 0 {
      assert |TrimLeft(s[LeadingSpace(s)..])| < |s|;
    } else if TrailingSpace(s) > 0 {
      assert TrimRight(s) == TrimRight(s[..|s| - TrailingSpace(s)]);
    }
  }

  /** White space and nothing else, read from the front or from the back. */
  predicate AllSpace(s: Str) {
    s == [] || (LeadingSpace(s) > 0 && AllSpace(s[LeadingSpace(s)..]))
  }

  predicate AllSpaceBack(s: Str) {
    s == [] || (TrailingSpace(s) > 0 && AllSpaceBack(s[..|s| - TrailingSpace(s)]))
  }

  /** A prefix or suffix that holds the edge rune has it as its own. */
  lemma SpaceWithin(s: Str, n: nat)
    requires n <= |s|
    ensures 0 < LeadingSpace(s) <= n ==> LeadingSpace(s[..n]) == LeadingSpace(s)
    ensures 0 < TrailingSpace(s) <= n ==> TrailingSpace(s[|s| - n..]) == TrailingSpace(s)
  {
  }

  lemma SpacePeeled(s: Str, i: nat, n: nat)
    requires 0 < n <= i <= |s| && LeadingSpace(s[..i]) == n && AllSpace(s[n..][..i - n])
    ensures AllSpace(s[..i])
  {
    assert s[..i][n..] == s[n..][..i - n];
  }

  lemma SpacePeeledBack(s: Str, j: nat, n: nat)
    requires 0 < n <= |s| - j && j <= |s| && TrailingSpace(s[j..]) == n && AllSpaceBack(s[..|s| - n][j..])
    ensures AllSpaceBack(s[j..])
  {
    assert s[j..][..|s| - j - n] == s[..|s| - n][j..];
  }

  /** s without its first i bytes, all of them white space. */
  predicate CutsLeft(s: Str, t: Str) {
    |t| <= |s| && t == s[|s| - |t|..] && AllSpace(s[..|s| - |t|])
  }

  predicate CutsRight(s: Str, t: Str) {
    |t| <= |s| && t == s[..|t|] && AllSpaceBack(s[|t|..])
  }

  lemma CutMore(s: Str, n: nat, t: Str)
    requires 0 < n == LeadingSpace(s) && CutsLeft(s[n..], t)
    ensures CutsLeft(s, t)
  {
    var i := |s| - |t|;
    assert |s[n..]| - |t| == i - n && s[n..][i - n..] == s[i..];
    assert AllSpace(s[n..][..i - n]);
    SpaceWithin(s, i);
    assert LeadingSpace(s[..i]) == n;
    SpacePeeled(s, i, n);
  }

  lemma CutMoreBack(s: Str, n: nat, t: Str)
    requires 0 < n == TrailingSpace(s) && CutsRight(s[..|s| - n], t)
    ensures CutsRight(s, t)
  {
    assert s[..|s| - n][..|t|] == s[..|t|];
    assert AllSpaceBack(s[..|s| - n][|t|..]);
    SpaceWithin(s, |s| - |t|);
    assert s[|s| - (|s| - |t|)..] == s[|t|..] && TrailingSpace(s[|t|..]) == n;
    SpacePeeledBack(s, |t|, n);
  }

  lemma {:induction false} TrimLeftCuts(s: Str)
    ensures CutsLeft(s, TrimLeft(s))
    decreases |s|
  {
    var n := LeadingSpace(s);
    if n > 0 {
      TrimLeftCuts(s[n..]);
      CutMore(s, n, TrimLeft(s));
    }
  }

  lemma {:induction false} TrimRightCuts(s: Str)
    ensures CutsRight(s, TrimRight(s))
    decreases |s|
  {
    var n := TrailingSpace(s);
    if n > 0 {
      TrimRightCuts(s[..|s| - n]);
      CutMoreBack(s, n, TrimRight(s));
    }
  }

  /** Trimming takes white space off both ends, and nothing else. */
  lemma TrimCuts(s: Str)
    ensures exists i, j :: 0 <= i <= j <= |s| && TrimSpace(s) == s[i..j] && AllSpace(s[..i]) && AllSpaceBack(s[j..])
  {
    var t, r := TrimLeft(s), TrimSpace(s);
    TrimLeftCuts(s);
    TrimRightCuts(t);
    CutBoth(s, t, r);
  }

  lemma CutBoth(s: Str, t: Str, r: Str)
    requires CutsLeft(s, t) && CutsRight(t, r)
    ensures exists i, j :: 0 <= i <= j <= |s| && r == s[i..j] && AllSpace(s[..i]) && AllSpaceBack(s[j..])
  {
    var i, j := |s| - |t|, |s| - |t| + |r|;
    assert s[i..j] == t[..|r|] && s[j..] == t[|r|..];
    assert AllSpaceBack(s[j..]);
  }

  /** Behind an ASCII separator, only the last field decides whether the string ends in white space. */
  lemma TrailingAfterSeparator(p: Str, c: Byte, y: Str)
    requires c == DASH || c == COLON || c == UNDERSCORE
    requires y != []
    ensures TrailingSpace(p + [c] + y) == 0 <==> TrailingSpace(y) == 0
  {
    var s := p + [c] + y;
    var k := |s|;
    assert s[k - 1] == y[|y| - 1];
    assert s[k - 2] == if |y| >= 2 then y[|y| - 2] else c;
    if k >= 3 {
      assert s[k - 3] == if |y| >= 3 then y[|y| - 3] else if |y| == 2 then c else p[|p| - 1];
    }
  }
}
