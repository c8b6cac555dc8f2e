/**
 Room identity: the canonical key of a direct-message room, the constructors that mint it, and the
 normaliser every handler applies to the room id it is given.

 `Normalize` follows normalizeRoomID branch by branch, on bytes. The theorems say when one pass is
 enough, that repeated passes always settle, and which spellings of a pair agree.
 */
module RoomIdentity {
  import opened Bytes

  /** "dm:", and the legacy prefix "CONV_". */
  const DM_COLON: Str := [0x64, 0x6D, COLON]
  const CONV: Str := [0x43, 0x4F, 0x4E, 0x56, UNDERSCORE]

  datatype Pair = NoPair | Pair(a: Str, b: Str)

  function Min(a: Str, b: Str): Str {
    if Less(b, a) then b else a
  }

  function Max(a: Str, b: Str): Str {
    if Less(b, a) then a else b
  }

  /** dm:<lower>:<higher>, the id minted by all three DM constructors. */
  function CanonicalDM(a: Str, b: Str): Str {
    DM_COLON + (Min(a, b) + [COLON] + Max(a, b))
  }

  /** dm<c><a><c><b> */
  function DMForm(c: Byte, a: Str, b: Str): Str {
    [0x64, 0x6D, c] + (a + [c] + b)
  }

  /** CONV_<a>_<b> */
  function LegacyForm(a: Str, b: Str): Str {
    CONV + a + [UNDERSCORE] + b
  }

  /** The pair named by an id of the form dm<c>...<c>..., c being ':' or '-'. */
  function FieldPair(s: Str, c: Byte): Pair {
    if [0x64, 0x6D, c] <= s then
      var parts := Split(s, c);
      if |parts| >= 3 && parts[1] != [] && parts[2] != [] then
        var userA, userB := parts[1], Join(parts[2..], c);
        if userA != [] && userB != [] then Pair(userA, userB) else NoPair
      else NoPair
    else NoPair
  }

  /** The pair named by a legacy id, whose first user id is 36 bytes long. */
  function LegacyPair(s: Str): Pair {
    if CONV <= s then
      var rest := s[|CONV|..];
      if |rest| >= 73 && rest[36] == UNDERSCORE then Pair(rest[..36], rest[37..]) else NoPair
    else NoPair
  }

  function PairOf(s: Str): Pair {
    var dashed := FieldPair(s, DASH);
    if dashed.Pair? then dashed
    else
      var coloned := FieldPair(s, COLON);
      if coloned.Pair? then coloned else LegacyPair(s)
  }

  function Normalize(raw: Str): Str {
    var s := TrimSpace(raw);
    if s == [] then s
    else
      match PairOf(s)
      case Pair(a, b) => CanonicalDM(a, b)
      case NoPair => s
  }

  // ------------------------------------------------------ parsing, in closed form

  /** The parts of <head><c><body>: the head, then the parts of the body. */
  lemma SplitCut(head: Str, c: Byte, body: Str)
    requires c !in head
    ensures Split(head + [c] + body, c) == [head] + Split(body, c)
  {
    HeadTail(head, c, body);
    IndexOfAppend(head, c, body);
  }

  /** Reading a body's first part and the join of the others is cutting it at its first separator. */
  lemma BodyParts(body: Str, c: Byte)
    ensures var parts := Split(body, c);
            && parts[0] == Head(body, c)
            && (c in body <==> |parts| >= 2)
            && (c in body ==> parts[1] == Head(Tail(body, c), c) && Join(parts[1..], c) == Tail(body, c))
  {
    if c in body {
      var tail := Tail(body, c);
      assert Split(body, c)[1..] == Split(tail, c);
      JoinSplit(tail, c);
      FirstPart(tail, c);
    } else {
      HeadWhole(body, c);
    }
  }

  lemma FirstPart(s: Str, c: Byte)
    ensures Split(s, c)[0] == Head(s, c)
  {
    if c !in s {
      HeadWhole(s, c);
    }
  }

  lemma HeadWhole(s: Str, c: Byte)
    requires c !in s
    ensures Head(s, c) == s
  {
    assert s[..|s|] == s;
  }

  lemma FieldPairCut(c: Byte, body: Str)
    requires c == DASH || c == COLON
    ensures FieldPair([0x64, 0x6D, c] + body, c) == CutPair(body, c)
  {
    var s := [0x64, 0x6D, c] + body;
    assert s == [0x64, 0x6D] + [c] + body;
    SplitCut([0x64, 0x6D], c, body);
    BodyParts(body, c);
    PartsPair(Split(s, c), Split(body, c), c, body);
  }

  lemma PartsPair(parts: seq<Str>, inner: seq<Str>, c: Byte, body: Str)
    requires |parts| == 1 + |inner| && parts[1..] == inner && inner != []
    requires inner[0] == Head(body, c)
    requires c in body <==> |inner| >= 2
    requires c in body ==> inner[1] == Head(Tail(body, c), c) && Join(inner[1..], c) == Tail(body, c)
    ensures CutPair(body, c) ==
            if |parts| >= 3 && parts[1] != [] && parts[2] != [] && Join(parts[2..], c) != []
            then Pair(parts[1], Join(parts[2..], c)) else NoPair
  {
    if c in body {
      assert parts[2] == inner[1] && parts[2..] == inner[1..];
      if Tail(body, c) == [] {
        EmptyHead(Tail(body, c), c);
      }
    }
  }

  lemma EmptyHead(s: Str, c: Byte)
    requires s == []
    ensures Head(s, c) == []
  {
  }

  /** The two fields of a body cut at its first separator, when neither starts out empty. */
  function CutPair(body: Str, c: Byte): Pair {
    if c in body && Head(body, c) != [] && Head(Tail(body, c), c) != []
    then Pair(Head(body, c), Tail(body, c)) else NoPair
  }

  /** What a parse gives back: two non-empty fields, and nothing longer than what was read. */
  lemma PairShape(s: Str)
    ensures match PairOf(s)
            case NoPair => true
            case Pair(a, b) => a != [] && b != [] && |a| + |b| + 4 <= |s|
  {
    FieldPairShape(s, DASH);
    FieldPairShape(s, COLON);
  }

  lemma FieldPairShape(s: Str, c: Byte)
    requires c == DASH || c == COLON
    ensures var p := FieldPair(s, c);
            p.Pair? ==> p.a != [] && p.b != [] && c !in p.a && s == DMForm(c, p.a, p.b)
  {
    if [0x64, 0x6D, c] <= s {
      var body := s[3..];
      assert s == [0x64, 0x6D, c] + body;
      FieldPairCut(c, body);
      if c in body {
        Recompose(body, c);
      }
    }
  }

  lemma NormalizeLength(raw: Str)
    ensures |Normalize(raw)| <= |TrimSpace(raw)|
  {
    PairShape(TrimSpace(raw));
  }

  // ------------------------------------------------------- when one pass is enough

  /**
   The sorted pair lo <= hi is safe to print: nothing trails hi, and if lo smuggled in a separator,
   re-reading the printed id does not reorder it.
   */
  predicate SettledPair(lo: Str, hi: Str) {
    && TrailingSpace(hi) == 0
    && (COLON in lo ==>
          var first := Head(lo, COLON);
          var rest := Tail(lo, COLON) + [COLON] + hi;
          first == [] || Head(rest, COLON) == [] || !Less(rest, first))
  }

  predicate Settled(raw: Str) {
    match PairOf(TrimSpace(raw))
    case NoPair => true
    case Pair(a, b) => SettledPair(Min(a, b), Max(a, b))
  }

  lemma SwapDiffers(first: Str, rest: Str)
    requires COLON !in first && Less(rest, first)
    ensures rest + [COLON] + first != first + [COLON] + rest
  {
    LessAsymmetric(rest, first);
    if rest <= first {
      HeadTail(first, COLON, rest);
      HeadTail(rest, COLON, first);
    } else {
      LessExtend(rest, first, [COLON] + first, [COLON] + rest);
      LessAsymmetric(rest + ([COLON] + first), first + ([COLON] + rest));
      assert rest + ([COLON] + first) == rest + [COLON] + first;
      assert first + ([COLON] + rest) == first + [COLON] + rest;
    }
  }

  lemma TrimmedDM(lo: Str, hi: Str)
    requires hi != []
    ensures Trimmed(DM_COLON + (lo + [COLON] + hi)) <==> TrailingSpace(hi) == 0
  {
    TrailingAfterSeparator(DM_COLON + lo, COLON, hi);
    assert DM_COLON + lo + [COLON] + hi == DM_COLON + (lo + [COLON] + hi);
  }

  lemma SameBody(x: Str, y: Str)
    ensures DM_COLON + x == DM_COLON + y <==> x == y
  {
    assert (DM_COLON + x)[3..] == x && (DM_COLON + y)[3..] == y;
  }

  /** A trimmed dm: or dm- id is read as its pair of fields, and printed from it. */
  lemma NormalizeDM(c: Byte, body: Str)
    requires c == DASH || c == COLON
    requires Trimmed([0x64, 0x6D, c] + body)
    ensures Normalize([0x64, 0x6D, c] + body) ==
            match CutPair(body, c)
            case Pair(first, rest) => CanonicalDM(first, rest)
            case NoPair => [0x64, 0x6D, c] + body
  {
    var s := [0x64, 0x6D, c] + body;
    TrimSpaceSpec(s);
    FieldPairCut(c, body);
    assert s[0] == 0x64 && s[2] == c;
  }

  lemma PrintedFixedIff(body: Str)
    requires Trimmed(DM_COLON + body)
    ensures Normalize(DM_COLON + body) == DM_COLON + body <==>
            match CutPair(body, COLON)
            case Pair(first, rest) => !Less(rest, first)
            case NoPair => true
  {
    NormalizeDM(COLON, body);
    match CutPair(body, COLON)
    case NoPair =>
    case Pair(first, rest) =>
      Recompose(body, COLON);
      SameBody(Min(first, rest) + [COLON] + Max(first, rest), body);
      if Less(rest, first) {
        SwapDiffers(first, rest);
      }
  }

  lemma HeadOfPrefix(lo: Str, hi: Str)
    ensures var body := lo + [COLON] + hi;
            COLON in body &&
            if COLON in lo
            then Head(body, COLON) == Head(lo, COLON) && Tail(body, COLON) == Tail(lo, COLON) + [COLON] + hi
            else Head(body, COLON) == lo && Tail(body, COLON) == hi
  {
    if COLON in lo {
      Recompose(lo, COLON);
      var h, t := Head(lo, COLON), Tail(lo, COLON);
      assert lo + [COLON] + hi == h + [COLON] + (t + [COLON] + hi);
      HeadTail(h, COLON, t + [COLON] + hi);
    } else {
      HeadTail(lo, COLON, hi);
    }
  }

  lemma SettledCut(lo: Str, hi: Str)
    requires !Less(hi, lo) && TrailingSpace(hi) == 0
    ensures SettledPair(lo, hi) <==>
            match CutPair(lo + [COLON] + hi, COLON)
            case Pair(first, rest) => !Less(rest, first)
            case NoPair => true
  {
    HeadOfPrefix(lo, hi);
  }

  lemma CanonicalFixedIff(a: Str, b: Str)
    requires a != [] && b != []
    ensures Normalize(CanonicalDM(a, b)) == CanonicalDM(a, b) <==> SettledPair(Min(a, b), Max(a, b))
  {
    var lo, hi, id := Min(a, b), Max(a, b), CanonicalDM(a, b);
    TrimmedDM(lo, hi);
    if TrailingSpace(hi) == 0 {
      PrintedFixedIff(lo + [COLON] + hi);
      LessAsymmetric(a, b);
      SettledCut(lo, hi);
    } else {
      TrimSpaceSpec(id);
      NormalizeLength(id);
    }
  }

  /** One pass is enough exactly for the inputs that parse to a settled pair, or to none. */
  lemma NormalizeIdempotentIff(raw: Str)
    ensures Normalize(Normalize(raw)) == Normalize(raw) <==> Settled(raw)
  {
    var s := TrimSpace(raw);
    TrimSpaceSpec(raw);
    PairShape(s);
    match PairOf(s)
    case NoPair => TrimSpaceSpec(s);
    case Pair(a, b) => CanonicalFixedIff(a, b);
  }

  lemma ReadSwapped(first: Str, rest: Str)
    requires COLON !in first && first != [] && Head(rest, COLON) != []
    requires Less(rest, first) && TrailingSpace(rest) == 0
    ensures Normalize(DM_COLON + (first + [COLON] + rest)) == DM_COLON + (rest + [COLON] + first)
  {
    HeadTail(first, COLON, rest);
    TrimmedDM(first, rest);
    NormalizeDM(COLON, first + [COLON] + rest);
  }

  /** dm:z:y:x is read as the pair (z, y:x) and printed dm:y:x:z. */
  lemma Rotate(z: Str, y: Str, x: Str)
    requires UserId(x) && UserId(y) && UserId(z) && Less(y + [COLON] + x, z)
    ensures Normalize(DM_COLON + (z + [COLON] + (y + [COLON] + x))) == DM_COLON + (y + [COLON] + (x + [COLON] + z))
  {
    var rest := y + [COLON] + x;
    assert Head(rest, COLON) != [] && TrailingSpace(rest) == 0 by {
      HeadTail(y, COLON, x);
      TrailingAfterSeparator(y, COLON, x);
    }
    ReadSwapped(z, rest);
    Regroup(y, COLON, x, z);
  }

  lemma RotationDiffers(z: Str, y: Str, x: Str)
    requires UserId(z) && Less(y + [COLON] + x, z)
    ensures DM_COLON + (z + [COLON] + (y + [COLON] + x)) != DM_COLON + (y + [COLON] + (x + [COLON] + z))
  {
    SwapDiffers(z, y + [COLON] + x);
    Regroup(y, COLON, x, z);
    SameBody(z + [COLON] + (y + [COLON] + x), y + [COLON] + (x + [COLON] + z));
  }

  /** So dm:z:y:x goes to dm:y:x:z, and that goes on to dm:x:z:y. */
  lemma SecondPassMoves(x: Str, y: Str, z: Str)
    requires UserId(x) && UserId(y) && UserId(z)
    requires Less(y + [COLON] + x, z) && Less(x + [COLON] + z, y)
    ensures var raw := DM_COLON + (z + [COLON] + (y + [COLON] + x));
            Normalize(Normalize(raw)) == DM_COLON + (x + [COLON] + (z + [COLON] + y)) != Normalize(raw)
  {
    Rotate(z, y, x);
    Rotate(y, x, z);
    RotationDiffers(y, x, z);
  }

  /** dm:c:b:a */
  const DM_CBA: Str := DM_COLON + ([0x63] + [COLON] + ([0x62] + [COLON] + [0x61]))

  lemma LessFirst(x: Str, y: Str)
    requires x != [] && y != [] && x[0] < y[0]
    ensures Less(x, y)
  {
  }

  lemma OnePassIsNotEnough()
    ensures Normalize(Normalize(DM_CBA)) != Normalize(DM_CBA)
  {
    var a, b, c: Str := [0x61], [0x62], [0x63];
    LessFirst(b + [COLON] + a, c);
    LessFirst(a + [COLON] + c, b);
    SecondPassMoves(a, b, c);
    assert DM_CBA == DM_COLON + (c + [COLON] + (b + [COLON] + a));
  }

  // ------------------------------------------------------------ ids that name no pair

  /** Starts like no direct-message id: not with dm:, dm- or CONV_. Group ids are of this kind. */
  predicate Plain(s: Str) {
    && !([0x64, 0x6D, 0x3A] <= s) && !([0x64, 0x6D, 0x2D] <= s) && !([0x43, 0x4F, 0x4E, 0x56, 0x5F] <= s)
  }

  /** Such an id loses its edge white space and is otherwise left alone. */
  lemma PlainKept(raw: Str)
    requires Plain(TrimSpace(raw))
    ensures Normalize(raw) == TrimSpace(raw)
    ensures Trimmed(raw) ==> Normalize(raw) == raw
  {
    TrimSpaceSpec(raw);
  }

  /** So two rooms so named stay apart iff they were. */
  lemma PlainApart(x: Str, y: Str)
    requires Plain(TrimSpace(x)) && Plain(TrimSpace(y))
    ensures Normalize(x) == Normalize(y) <==> TrimSpace(x) == TrimSpace(y)
  {
    PlainKept(x);
    PlainKept(y);
  }

  /** Edge white space never matters. */
  lemma TrimmedFirst(raw: Str)
    ensures Normalize(raw) == Normalize(TrimSpace(raw))
  {
    TrimSpaceSpec(raw);
    TrimSpaceSpec(TrimSpace(raw));
  }

  /** An id with a direct-message prefix but no second separator is left alone. */
  lemma UnpairedKept(c: Byte, body: Str)
    requires (c == DASH || c == COLON) && c !in body && Trimmed([0x64, 0x6D, c] + body)
    ensures Normalize([0x64, 0x6D, c] + body) == [0x64, 0x6D, c] + body
  {
    NormalizeDM(c, body);
  }

  /** With one, it is read as what stands before and after, unless either begins with nothing. */
  lemma FieldsDecide(c: Byte, first: Str, rest: Str)
    requires (c == DASH || c == COLON) && c !in first && Trimmed([0x64, 0x6D, c] + (first + [c] + rest))
    ensures Normalize([0x64, 0x6D, c] + (first + [c] + rest)) ==
            if first != [] && rest != [] && rest[0] != c then CanonicalDM(first, rest) else [0x64, 0x6D, c] + (first + [c] + rest)
  {
    NormalizeDM(c, first + [c] + rest);
    HeadTail(first, c, rest);
  }

  lemma LegacyPairIs(s: Str, rest: Str)
    requires s == CONV + rest
    ensures PairOf(s) == LegacyPair(s) == if |rest| >= 73 && rest[36] == UNDERSCORE then Pair(rest[..36], rest[37..]) else NoPair
  {
    assert s[5..] == rest && s[0] == 0x43;
  }

  lemma TrimmedReading(s: Str)
    requires Trimmed(s) && s != []
    ensures Normalize(s) == match PairOf(s) case Pair(a, b) => CanonicalDM(a, b) case NoPair => s
  {
    TrimSpaceSpec(s);
  }

  /** A legacy id is read as 36 bytes, a separator, and at least 36 more, and left alone if it is not of that form. */
  lemma LegacyDecides(rest: Str)
    requires Trimmed([0x43, 0x4F, 0x4E, 0x56, 0x5F] + rest)
    ensures Normalize([0x43, 0x4F, 0x4E, 0x56, 0x5F] + rest) ==
            if |rest| >= 73 && rest[36] == 0x5F then CanonicalDM(rest[..36], rest[37..]) else [0x43, 0x4F, 0x4E, 0x56, 0x5F] + rest
  {
    var s := [0x43, 0x4F, 0x4E, 0x56, 0x5F] + rest;
    LegacyPairIs(s, rest);
    TrimmedReading(s);
  }

  /** The canonical id on the bytes: the lesser id first. */
  lemma CanonicalPrints(a: Str, b: Str)
    ensures CanonicalDM(a, b) ==
            if exists k: nat :: LowerFrom(b, a, k) then [0x64, 0x6D, 0x3A] + (b + [0x3A] + a) else [0x64, 0x6D, 0x3A] + (a + [0x3A] + b)
  {
    LessIff(b, a);
  }

  // ------------------------------------------------------------ repeated passes settle

  function Iterate(raw: Str, k: nat): Str
    decreases k
  {
    if k == 0 then raw else Iterate(Normalize(raw), k - 1)
  }

  predicate FixedAfter(raw: Str, k: nat) {
    Normalize(Iterate(raw, k)) == Iterate(raw, k)
  }

  /** Second and third components of the measure that every non-trivial pass decreases. */
  function Rank(s: Str): nat {
    if [0x64, 0x6D, DASH] <= s then 1 else 0
  }

  function Disorder(s: Str): nat {
    if !(DM_COLON <= s) then 0
    else
      var first, rest := Head(s[3..], COLON), Tail(s[3..], COLON);
      if COLON in rest then Value(s) else if Less(rest, first) then 1 else 0
  }

  lemma SwapDecreases(first: Str, rest: Str)
    requires COLON !in first && Less(rest, first)
    ensures Disorder(DM_COLON + (rest + [COLON] + first)) < Disorder(DM_COLON + (first + [COLON] + rest))
  {
    var was, now := first + [COLON] + rest, rest + [COLON] + first;
    assert (DM_COLON + was)[3..] == was && (DM_COLON + now)[3..] == now;
    HeadTail(first, COLON, rest);
    HeadOfPrefix(rest, first);
    if COLON in rest {
      assert (Tail(rest, COLON) + [COLON] + first)[|Tail(rest, COLON)|] == COLON;
      SwapLowers(first, rest);
    } else {
      LessAsymmetric(rest, first);
    }
  }

  lemma SwapLowers(first: Str, rest: Str)
    requires COLON !in first && COLON in rest && Less(rest, first)
    ensures Value(DM_COLON + (rest + [COLON] + first)) < Value(DM_COLON + (first + [COLON] + rest))
  {
    var was, now := first + [COLON] + rest, rest + [COLON] + first;
    assert !(rest <= first) by {
      var i := IndexOf(rest, COLON);
      assert rest[i] == COLON && (i < |first| ==> first[i] != COLON);
    }
    LessExtend(rest, first, [COLON] + first, [COLON] + rest);
    assert rest + ([COLON] + first) == now && first + ([COLON] + rest) == was;
    LessPrepend(DM_COLON, now, was);
    LessDecreasesValue(DM_COLON + now, DM_COLON + was);
  }

  /** t comes strictly before s in the measure (length, Rank, Disorder). */
  predicate Decreased(t: Str, s: Str) {
    || |t| < |s|
    || (|t| == |s| && Rank(t) < Rank(s))
    || (|t| == |s| && Rank(t) == Rank(s) && Disorder(t) < Disorder(s))
  }

  lemma CanonicalRank(a: Str, b: Str)
    ensures Rank(CanonicalDM(a, b)) == 0 && |CanonicalDM(a, b)| == |a| + |b| + 4
  {
    assert CanonicalDM(a, b)[2] == COLON;
  }

  lemma PassDecreases(s: Str)
    requires Normalize(s) != s
    ensures Decreased(Normalize(s), s)
  {
    TrimSpaceSpec(s);
    NormalizeLength(s);
    if Trimmed(s) {
      FieldPairShape(s, DASH);
      FieldPairShape(s, COLON);
      var dashed, coloned := FieldPair(s, DASH), FieldPair(s, COLON);
      var p := PairOf(s);
      CanonicalRank(p.a, p.b);
      if dashed.NoPair? && coloned.Pair? {
        assert s == DM_COLON + (p.a + [COLON] + p.b);
        assert Normalize(s) == DM_COLON + (Min(p.a, p.b) + [COLON] + Max(p.a, p.b));
        SwapDecreases(p.a, p.b);
      }
    }
  }

  /** On any bytes whatever, some number of passes reaches a fixed point. */
  lemma {:induction false} NormalizeSettles(raw: Str)
    ensures exists k: nat :: FixedAfter(raw, k)
    decreases |raw|, Rank(raw), Disorder(raw)
  {
    if Normalize(raw) == raw {
      assert FixedAfter(raw, 0);
    } else {
      PassDecreases(raw);
      NormalizeSettles(Normalize(raw));
      var k: nat :| FixedAfter(Normalize(raw), k);
      assert FixedAfter(raw, k + 1);
    }
  }

  // --------------------------------------------------------------- the spellings of a pair

  /** An id as users have them: non-empty, no separator of the canonical form, no edge white space. */
  predicate UserId(id: Str) {
    id != [] && COLON !in id && Trimmed(id)
  }

  lemma CanonicalSymmetric(a: Str, b: Str)
    ensures CanonicalDM(a, b) == CanonicalDM(b, a)
  {
    LessAsymmetric(a, b);
    LessTotal(a, b);
  }

  lemma CanonicalIsFixed(a: Str, b: Str)
    requires UserId(a) && UserId(b)
    ensures Normalize(CanonicalDM(a, b)) == CanonicalDM(a, b)
  {
    CanonicalFixedIff(a, b);
  }

  /** Either order of the dm: form normalises to the canonical id. */
  lemma ColonFormAgrees(a: Str, b: Str)
    requires UserId(a) && UserId(b)
    ensures Normalize(DMForm(COLON, a, b)) == CanonicalDM(a, b)
  {
    HeadTail(a, COLON, b);
    HeadWhole(b, COLON);
    assert DMForm(COLON, a, b) == DM_COLON + a + [COLON] + b;
    TrimmedDM(a, b);
    NormalizeDM(COLON, a + [COLON] + b);
  }

  lemma TrimmedDash(a: Str, b: Str)
    requires b != [] && TrailingSpace(b) == 0
    ensures Trimmed(DMForm(DASH, a, b))
  {
    TrailingAfterSeparator([0x64, 0x6D, DASH] + a, DASH, b);
    assert DMForm(DASH, a, b) == [0x64, 0x6D, DASH] + a + [DASH] + b;
  }

  /** Two pairs of colon-free ids share a canonical id only if they are the same pair. */
  lemma CanonicalInjective(a: Str, b: Str, c: Str, d: Str)
    requires COLON !in a && COLON !in b && COLON !in c && COLON !in d
    requires CanonicalDM(a, b) == CanonicalDM(c, d)
    ensures (a == c && b == d) || (a == d && b == c)
  {
    var x, y := Min(a, b) + [COLON] + Max(a, b), Min(c, d) + [COLON] + Max(c, d);
    assert CanonicalDM(a, b) == DM_COLON + x && CanonicalDM(c, d) == DM_COLON + y;
    assert x == (DM_COLON + x)[3..] == (DM_COLON + y)[3..] == y;
    HeadTail(Min(a, b), COLON, Max(a, b));
    HeadTail(Min(c, d), COLON, Max(c, d));
  }

  predicate SamePair(a: Str, b: Str, c: Str, d: Str) {
    (a == c && b == d) || (a == d && b == c)
  }

  /** x:y cut again at a later colon, one that y holds: x2 is x:m and y is m:y2 for some m. */
  predicate Recut(x: Str, y: Str, x2: Str, y2: Str) {
    x + [COLON] <= x2 && y == x2[|x| + 1..] + [COLON] + y2
  }

  lemma RecutPrints(x: Str, y: Str, x2: Str, y2: Str)
    requires Recut(x, y, x2, y2)
    ensures x + [COLON] + y == x2 + [COLON] + y2
  {
    assert x2 == x + [COLON] + x2[|x| + 1..];
  }

  lemma LaterCut(x: Str, y: Str, x2: Str, y2: Str)
    requires x + [COLON] + y == x2 + [COLON] + y2 && |x| < |x2|
    ensures Recut(x, y, x2, y2)
  {
    var s := x + [COLON] + y;
    assert s[..|x| + 1] == x + [COLON] && s[..|x2|] == x2;
    assert s[|x| + 1..] == y && s[|x| + 1..] == x2[|x| + 1..] + [COLON] + y2;
  }

  lemma SameCut(x: Str, y: Str, x2: Str, y2: Str)
    requires x + [COLON] + y == x2 + [COLON] + y2 && |x| == |x2|
    ensures x == x2 && y == y2
  {
    assert (x + [COLON] + y)[..|x|] == x && (x2 + [COLON] + y2)[..|x|] == x2;
    assert (x + [COLON] + y)[|x| + 1..] == y && (x2 + [COLON] + y2)[|x| + 1..] == y2;
  }

  /** The same pair, or one sorted pair is a re-cut of the other. */
  predicate ShareID(a: Str, b: Str, c: Str, d: Str) {
    || SamePair(a, b, c, d)
    || Recut(Min(a, b), Max(a, b), Min(c, d), Max(c, d))
    || Recut(Min(c, d), Max(c, d), Min(a, b), Max(a, b))
  }

  /** Exactly when two pairs, of any byte strings, are given one canonical id. */
  lemma CanonicalSharedIff(a: Str, b: Str, c: Str, d: Str)
    ensures CanonicalDM(a, b) == CanonicalDM(c, d) <==> ShareID(a, b, c, d)
  {
    var x, y, x2, y2 := Min(a, b), Max(a, b), Min(c, d), Max(c, d);
    SameBody(x + [COLON] + y, x2 + [COLON] + y2);
    CanonicalSymmetric(a, b);
    SortedSame(a, b, c, d);
    if x + [COLON] + y == x2 + [COLON] + y2 {
      if |x| < |x2| {
        LaterCut(x, y, x2, y2);
      } else if |x2| < |x| {
        LaterCut(x2, y2, x, y);
      } else {
        SameCut(x, y, x2, y2);
      }
    } else {
      if Recut(x, y, x2, y2) {
        RecutPrints(x, y, x2, y2);
      }
      if Recut(x2, y2, x, y) {
        RecutPrints(x2, y2, x, y);
      }
    }
  }

  lemma SortedSame(a: Str, b: Str, c: Str, d: Str)
    ensures SamePair(a, b, c, d) <==> Min(a, b) == Min(c, d) && Max(a, b) == Max(c, d)
  {
    LessAsymmetric(a, b);
    LessTotal(a, b);
  }

  /**
   The dm- spelling, exactly: a hyphen-free first id is read back iff the second does not start with
   a hyphen; an id with a hyphen is read back only in the one degenerate family where cutting at its
   first hyphen yields the same two ids swapped.
   */
  predicate DashReadable(a: Str, b: Str) {
    if DASH !in a then Head(b, DASH) != []
    else Head(a, DASH) == b && a == Tail(a, DASH) + [DASH] + b
  }

  lemma DashFormAgreesIff(a: Str, b: Str)
    requires UserId(a) && UserId(b)
    ensures Normalize(DMForm(DASH, a, b)) == CanonicalDM(a, b) <==> DashReadable(a, b)
  {
    if DASH in a {
      DashedFormAgreesIff(a, b);
    } else {
      TrimmedDash(a, b);
      HeadTail(a, DASH, b);
      NormalizeDM(DASH, a + [DASH] + b);
      assert DMForm(DASH, a, b)[2] == DASH && CanonicalDM(a, b)[2] == COLON;
    }
  }

  /** With a hyphen in the first id, the cut falls inside it. */
  lemma DashedReading(a: Str, b: Str)
    requires b != [] && TrailingSpace(b) == 0 && DASH in a
    ensures var x, y := Head(a, DASH), Tail(a, DASH) + [DASH] + b;
            Normalize(DMForm(DASH, a, b)) ==
            if x != [] && Head(y, DASH) != [] then CanonicalDM(x, y) else DMForm(DASH, a, b)
  {
    var x, y := Head(a, DASH), Tail(a, DASH) + [DASH] + b;
    TrimmedDash(a, b);
    Recompose(a, DASH);
    assert a + [DASH] + b == x + [DASH] + y;
    HeadTail(x, DASH, y);
    NormalizeDM(DASH, a + [DASH] + b);
  }

  lemma DashedFormAgreesIff(a: Str, b: Str)
    requires UserId(a) && UserId(b) && DASH in a
    ensures Normalize(DMForm(DASH, a, b)) == CanonicalDM(a, b) <==> DashReadable(a, b)
  {
    var s, x, y := DMForm(DASH, a, b), Head(a, DASH), Tail(a, DASH) + [DASH] + b;
    DashedReading(a, b);
    Recompose(a, DASH);
    assert a == x + [DASH] + Tail(a, DASH) && |x| < |a|;
    assert s[2] == DASH && CanonicalDM(a, b)[2] == COLON;
    if DashReadable(a, b) {
      assert y == a;
      CanonicalSymmetric(a, b);
    } else if Normalize(s) == CanonicalDM(a, b) {
      CanonicalInjective(x, y, a, b);
    }
  }

  /** UUID-shaped ids (equal length, with a hyphen) are never read back from the dm- spelling. */
  lemma DashFormLosesUuids(a: Str, b: Str)
    requires UserId(a) && UserId(b) && |a| == |b|
    requires DASH in a
    ensures Normalize(DMForm(DASH, a, b)) != CanonicalDM(a, b)
  {
    DashFormAgreesIff(a, b);
  }

  lemma TrimmedLegacy(a: Str, b: Str)
    requires b != []
    ensures Trimmed(LegacyForm(a, b)) <==> TrailingSpace(b) == 0
  {
    TrailingAfterSeparator(CONV + a, UNDERSCORE, b);
  }

  /**
   The legacy spelling, exactly: it is cut after 36 bytes. That is the first id, or it is the second id
   and what follows the cut happens to spell the first.
   */
  predicate LegacyReadable(a: Str, b: Str) {
    || (|a| == 36 && |b| >= 36)
    || (|a| > 36 && |b| == 36 && a[36] == UNDERSCORE && a[..36] == b && a == a[37..] + [UNDERSCORE] + b)
  }

  /** A legacy id is read as the two sides of its 37th byte, if that is the separator and enough follows. */
  lemma LegacyCut(a: Str, b: Str)
    ensures var rest := a + [UNDERSCORE] + b;
            PairOf(LegacyForm(a, b)) == LegacyPair(LegacyForm(a, b)) ==
            if |rest| >= 73 && rest[36] == UNDERSCORE then Pair(rest[..36], rest[37..]) else NoPair
  {
    var s, rest := LegacyForm(a, b), a + [UNDERSCORE] + b;
    assert s == CONV + rest && s[5..] == rest;
    assert s[0] == 0x43;
  }

  lemma LegacyNormal(a: Str, b: Str)
    requires b != [] && TrailingSpace(b) == 0
    ensures var rest := a + [UNDERSCORE] + b;
            Normalize(LegacyForm(a, b)) ==
            if |rest| >= 73 && rest[36] == UNDERSCORE then CanonicalDM(rest[..36], rest[37..]) else LegacyForm(a, b)
  {
    TrimmedLegacy(a, b);
    TrimSpaceSpec(LegacyForm(a, b));
    LegacyCut(a, b);
  }

  lemma LegacyDiffers(a: Str, b: Str)
    ensures LegacyForm(a, b) != CanonicalDM(a, b)
  {
    assert LegacyForm(a, b)[0] == 0x43 && CanonicalDM(a, b)[0] == 0x64;
  }

  /** The two sides of the cut are the pair again only if they are it in order, or swapped. */
  lemma LegacySides(a: Str, b: Str, x: Str, y: Str)
    requires a + [UNDERSCORE] + b == x + [UNDERSCORE] + y && |x| == 36
    requires SamePair(x, y, a, b) && |a| + |b| >= 72
    ensures LegacyReadable(a, b)
  {
    var rest := a + [UNDERSCORE] + b;
    assert rest[..36] == x && rest[36] == UNDERSCORE && rest[37..] == y;
    if |a| > 36 {
      assert rest[36] == a[36] && rest[..36] == a[..36];
      assert rest[37..] == a[37..] + [UNDERSCORE] + b;
    }
  }

  /** If the cut gives the pair's own id, it gives the pair. */
  lemma CutGivesPair(a: Str, b: Str)
    requires COLON !in a && COLON !in b
    requires var rest := a + [UNDERSCORE] + b;
             |rest| >= 73 && rest[36] == UNDERSCORE && CanonicalDM(rest[..36], rest[37..]) == CanonicalDM(a, b)
    ensures LegacyReadable(a, b)
  {
    var rest := a + [UNDERSCORE] + b;
    var x, y := rest[..36], rest[37..];
    assert COLON !in rest;
    assert rest == x + [UNDERSCORE] + y;
    CanonicalInjective(x, y, a, b);
    LegacySides(a, b, x, y);
  }

  /** For any two user ids the legacy spelling normalises to the canonical id iff the cut gives them back. */
  lemma LegacyFormAgreesIff(a: Str, b: Str)
    requires UserId(a) && UserId(b)
    ensures Normalize(LegacyForm(a, b)) == CanonicalDM(a, b) <==> LegacyReadable(a, b)
  {
    var form, id := LegacyForm(a, b), CanonicalDM(a, b);
    LegacyNormal(a, b);
    LegacyDiffers(a, b);
    LegacyReadBack(a, b);
    if Normalize(form) == id {
      CutGivesPair(a, b);
    }
  }

  lemma LegacyReadBack(a: Str, b: Str)
    ensures var rest := a + [UNDERSCORE] + b;
            LegacyReadable(a, b) ==>
              |rest| >= 73 && rest[36] == UNDERSCORE && CanonicalDM(rest[..36], rest[37..]) == CanonicalDM(a, b)
  {
    var rest := a + [UNDERSCORE] + b;
    CanonicalSymmetric(a, b);
    if |a| == 36 && |b| >= 36 {
      assert rest[..36] == a && rest[37..] == b;
    } else if LegacyReadable(a, b) {
      assert rest[..36] == a[..36] && rest[37..] == a[37..] + [UNDERSCORE] + b;
    }
  }

  /** The legacy spelling of 36-byte ids, in either order, normalises to the canonical id. */
  lemma LegacyFormAgrees(a: Str, b: Str)
    requires UserId(a) && UserId(b) && |a| == 36 && |b| >= 36
    ensures Normalize(LegacyForm(a, b)) == CanonicalDM(a, b)
  {
    LegacyFormAgreesIff(a, b);
  }
}
