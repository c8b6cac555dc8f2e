/**
 The alias index: the ids under which the history of a room may have been written. GetMessages asks
 for every document stored under an alias of the canonical room id.
 */
module RoomAliases {
  import opened Bytes
  import opened RoomIdentity

  function AddAlias(out: seq<Str>, id: Str): seq<Str> {
    var t := TrimSpace(id);
    if t == [] || t in out then out else out + [t]
  }

  function AddPair(out: seq<Str>, a: Str, b: Str): seq<Str> {
    if a == [] || b == [] then out
    else
      var out1 := AddAlias(out, CanonicalDM(a, b));
      var out2 := AddAlias(out1, LegacyForm(Min(a, b), Max(a, b)));
      AddAlias(AddAlias(out2, LegacyForm(a, b)), LegacyForm(b, a))
  }

  function AliasList(raw: Str): seq<Str> {
    var s := TrimSpace(raw);
    if s == [] then []
    else if DM_COLON <= s then
      var parts := Split(s, COLON);
      if |parts| >= 3 then AddPair([s], parts[1], Join(parts[2..], COLON)) else [s]
    else
      match LegacyPair(s)
      case Pair(a, b) => AddPair([s], a, b)
      case NoPair => [s]
  }

  /** The closure add of the source: `seen` is the set of what `out` lists. */
  method Add(seen: set<Str>, out: seq<Str>, id: Str) returns (seen': set<Str>, out': seq<Str>)
    requires seen == set x | x in out
    ensures out' == AddAlias(out, id)
    ensures seen' == set x | x in out'
  {
    var t := TrimSpace(id);
    if t == [] || t in seen {
      return seen, out;
    }
    seen', out' := seen + {t}, out + [t];
  }

  method AddCanonicalDM(seen: set<Str>, out: seq<Str>, a: Str, b: Str) returns (out': seq<Str>)
    requires seen == set x | x in out
    ensures out' == AddPair(out, a, b)
  {
    if a == [] || b == [] {
      return out;
    }
    var seen1, out1 := Add(seen, out, CanonicalDM(a, b));
    var seen2, out2 := Add(seen1, out1, LegacyForm(Min(a, b), Max(a, b)));
    var seen3, out3 := Add(seen2, out2, LegacyForm(a, b));
    var seen4, out4 := Add(seen3, out3, LegacyForm(b, a));
    return out4;
  }

  method RoomIDAliases(roomID: Str) returns (out: seq<Str>)
    ensures out == AliasList(roomID)
  {
    var s := TrimSpace(roomID);
    if s == [] {
      return [];
    }
    out := [s];
    if DM_COLON <= s {
      var parts := Split(s, COLON);
      if |parts| >= 3 {
        out := AddCanonicalDM({s}, out, parts[1], Join(parts[2..], COLON));
      }
    } else if CONV <= s {
      var rest := s[|CONV|..];
      if |rest| >= 73 && rest[36] == UNDERSCORE {
        out := AddCanonicalDM({s}, out, rest[..36], rest[37..]);
      }
    }
  }

  // ------------------------------------------------------------------- theorems

  predicate Distinct(out: seq<Str>) {
    forall i, j :: 0 <= i < j < |out| ==> out[i] != out[j]
  }

  lemma AddDistinct(out: seq<Str>, id: Str)
    requires Distinct(out)
    ensures Distinct(AddAlias(out, id))
  {
  }

  lemma AddPairDistinct(out: seq<Str>, a: Str, b: Str)
    requires Distinct(out)
    ensures Distinct(AddPair(out, a, b))
  {
    if a != [] && b != [] {
      var out1 := AddAlias(out, CanonicalDM(a, b));
      AddDistinct(out, CanonicalDM(a, b));
      var out2 := AddAlias(out1, LegacyForm(Min(a, b), Max(a, b)));
      AddDistinct(out1, LegacyForm(Min(a, b), Max(a, b)));
      AddDistinct(out2, LegacyForm(a, b));
      AddDistinct(AddAlias(out2, LegacyForm(a, b)), LegacyForm(b, a));
    }
  }

  /** No alias is listed twice, whatever the id. */
  lemma AliasesDistinct(raw: Str)
    ensures Distinct(AliasList(raw))
  {
    var s := TrimSpace(raw);
    if s != [] && DM_COLON <= s {
      var parts := Split(s, COLON);
      if |parts| >= 3 {
        AddPairDistinct([s], parts[1], Join(parts[2..], COLON));
      }
    } else if s != [] && LegacyPair(s).Pair? {
      AddPairDistinct([s], LegacyPair(s).a, LegacyPair(s).b);
    }
  }

  /** A room whose id names no pair has one alias, its trimmed id; a blank id has none. */
  lemma PlainAliases(raw: Str)
    requires Plain(TrimSpace(raw))
    ensures AliasList(raw) == if TrimSpace(raw) == [] then [] else [TrimSpace(raw)]
  {
  }

  lemma AddKeeps(out: seq<Str>, id: Str)
    ensures out <= AddAlias(out, id)
  {
  }

  lemma AddPairKeeps(out: seq<Str>, a: Str, b: Str)
    ensures out <= AddPair(out, a, b)
  {
    if a != [] && b != [] {
      var out1 := AddAlias(out, CanonicalDM(a, b));
      var out2 := AddAlias(out1, LegacyForm(Min(a, b), Max(a, b)));
      AddKeeps(out, CanonicalDM(a, b));
      AddKeeps(out1, LegacyForm(Min(a, b), Max(a, b)));
      AddKeeps(out2, LegacyForm(a, b));
      AddKeeps(AddAlias(out2, LegacyForm(a, b)), LegacyForm(b, a));
    }
  }

  /** Whatever the id, history written under it as it stands is looked up first. */
  lemma OwnIdFirst(raw: Str)
    requires TrimSpace(raw) != []
    ensures AliasList(raw) != [] && AliasList(raw)[0] == TrimSpace(raw)
  {
    var s := TrimSpace(raw);
    if DM_COLON <= s {
      var parts := Split(s, COLON);
      if |parts| >= 3 {
        AddPairKeeps([s], parts[1], Join(parts[2..], COLON));
      }
    } else if LegacyPair(s).Pair? {
      AddPairKeeps([s], LegacyPair(s).a, LegacyPair(s).b);
    }
  }

  /** Ids of the legacy scheme: 36 bytes, as UUIDs are. */
  predicate LegacyUserId(id: Str) {
    UserId(id) && |id| == 36
  }

  /** The canonical id first, then both orders of the legacy spelling, each once. */
  function DMAliases(lo: Str, hi: Str): seq<Str> {
    [CanonicalDM(lo, hi), LegacyForm(lo, hi)] + if LegacyForm(lo, hi) == LegacyForm(hi, lo) then [] else [LegacyForm(hi, lo)]
  }

  /** Adding id, x, x again, y to [id], when all three are printable as they stand. */
  lemma FourAdds(id: Str, x: Str, y: Str)
    requires TrimSpace(id) == id && TrimSpace(x) == x != [] && TrimSpace(y) == y != []
    requires id != x && id != y
    ensures AddAlias(AddAlias(AddAlias(AddAlias([id], id), x), x), y) == [id, x] + if x == y then [] else [y]
  {
    assert id in [id] && x in [id, x];
    assert AddAlias([id], id) == [id];
    assert AddAlias([id], x) == [id, x];
    assert AddAlias([id, x], x) == [id, x];
  }

  lemma AddSortedPair(lo: Str, hi: Str)
    requires UserId(lo) && UserId(hi) && !Less(hi, lo)
    ensures AddPair([CanonicalDM(lo, hi)], lo, hi) == DMAliases(lo, hi)
  {
    var id, x, y := CanonicalDM(lo, hi), LegacyForm(lo, hi), LegacyForm(hi, lo);
    TrimmedDM(lo, hi);
    TrimSpaceSpec(id);
    TrimmedLegacy(lo, hi);
    TrimSpaceSpec(x);
    TrimmedLegacy(hi, lo);
    TrimSpaceSpec(y);
    assert id[0] == 0x64 && x[0] == 0x43 && y[0] == 0x43;
    FourAdds(id, x, y);
  }

  /** Exactly these are the aliases of a canonical DM id. */
  lemma AliasesExact(a: Str, b: Str)
    requires UserId(a) && UserId(b)
    ensures AliasList(CanonicalDM(a, b)) == DMAliases(Min(a, b), Max(a, b))
  {
    var lo, hi, id := Min(a, b), Max(a, b), CanonicalDM(a, b);
    LessAsymmetric(a, b);
    TrimmedDM(lo, hi);
    TrimSpaceSpec(id);
    CanonicalParts(lo, hi);
    AddSortedPair(lo, hi);
  }

  lemma CanonicalParts(lo: Str, hi: Str)
    requires COLON !in lo && COLON !in hi
    ensures var parts := Split(DM_COLON + (lo + [COLON] + hi), COLON);
            |parts| == 3 && parts[1] == lo && Join(parts[2..], COLON) == hi
  {
    assert DM_COLON + (lo + [COLON] + hi) == [0x64, 0x6D] + [COLON] + (lo + [COLON] + hi);
    SplitCut([0x64, 0x6D], COLON, lo + [COLON] + hi);
    SplitCut(lo, COLON, hi);
    assert Split(hi, COLON) == [hi];
    assert ([[0x64, 0x6D]] + ([lo] + [hi]))[2..] == [hi];
  }

  lemma LegacyList(a: Str, b: Str)
    requires b != [] && TrailingSpace(b) == 0 && |a| == 36 && |b| >= 36
    ensures AliasList(LegacyForm(a, b)) == AddPair([LegacyForm(a, b)], a, b)
  {
    var s, rest := LegacyForm(a, b), a + [UNDERSCORE] + b;
    TrimmedLegacy(a, b);
    TrimSpaceSpec(s);
    LegacyCut(a, b);
    assert rest[..36] == a && rest[37..] == b && s[0] == 0x43;
  }

  /** A legacy id itself is read under both its orders and the canonical id. */
  lemma LegacyAliases(a: Str, b: Str)
    requires UserId(a) && UserId(b) && |a| == 36 && |b| >= 36
    ensures forall id :: id in AliasList(LegacyForm(a, b)) <==>
                         id == CanonicalDM(a, b) || id == LegacyForm(a, b) || id == LegacyForm(b, a)
  {
    LegacyList(a, b);
    AddedPair([LegacyForm(a, b)], a, b);
  }

  lemma PartsList(s: Str)
    requires Trimmed(s) && DM_COLON <= s && |Split(s, COLON)| >= 3
    ensures AliasList(s) == AddPair([s], Split(s, COLON)[1], Join(Split(s, COLON)[2..], COLON))
  {
    TrimSpaceSpec(s);
  }

  lemma WrittenList(a: Str, b: Str)
    requires UserId(a) && UserId(b)
    ensures AliasList(DMForm(COLON, a, b)) == AddPair([DMForm(COLON, a, b)], a, b)
  {
    var s := DMForm(COLON, a, b);
    assert s == DM_COLON + (a + [COLON] + b);
    TrimmedDM(a, b);
    CanonicalParts(a, b);
    PartsList(s);
  }

  /** So is a dm: id as somebody wrote it, in either order. */
  lemma WrittenAliases(a: Str, b: Str)
    requires UserId(a) && UserId(b)
    ensures forall id :: id in AliasList(DMForm(COLON, a, b)) <==>
                         id == DMForm(COLON, a, b) || id == CanonicalDM(a, b) || id == LegacyForm(a, b) || id == LegacyForm(b, a)
  {
    WrittenList(a, b);
    AddedPair([DMForm(COLON, a, b)], a, b);
  }

  lemma AddTrimmed(out: seq<Str>, id: Str)
    requires Trimmed(id) && id != []
    ensures forall x :: x in AddAlias(out, id) <==> x in out || x == id
  {
    TrimSpaceSpec(id);
  }

  /** Adding a pair adds its canonical id and both its legacy orders. */
  lemma AddedPair(out: seq<Str>, a: Str, b: Str)
    requires UserId(a) && UserId(b)
    ensures forall id :: id in AddPair(out, a, b) <==>
                         id in out || id == CanonicalDM(a, b) || id == LegacyForm(a, b) || id == LegacyForm(b, a)
  {
    var lo, hi := Min(a, b), Max(a, b);
    TrimmedDM(lo, hi);
    TrimmedLegacy(a, b);
    TrimmedLegacy(b, a);
    var out1 := AddAlias(out, CanonicalDM(a, b));
    var out2 := AddAlias(out1, LegacyForm(lo, hi));
    AddTrimmed(out, CanonicalDM(a, b));
    AddTrimmed(out1, LegacyForm(lo, hi));
    AddTrimmed(out2, LegacyForm(a, b));
    AddTrimmed(AddAlias(out2, LegacyForm(a, b)), LegacyForm(b, a));
  }

  lemma AliasMember(a: Str, b: Str, id: Str)
    requires UserId(a) && UserId(b)
    ensures id in AliasList(CanonicalDM(a, b)) <==>
            id == CanonicalDM(a, b) || id == LegacyForm(a, b) || id == LegacyForm(b, a)
  {
    var lo, hi := Min(a, b), Max(a, b);
    AliasesExact(a, b);
    CanonicalSymmetric(a, b);
    LessAsymmetric(a, b);
    assert CanonicalDM(lo, hi) == CanonicalDM(a, b);
    DMAliasMember(lo, hi, id);
  }

  lemma DMAliasMember(lo: Str, hi: Str, id: Str)
    ensures id in DMAliases(lo, hi) <==> id == CanonicalDM(lo, hi) || id == LegacyForm(lo, hi) || id == LegacyForm(hi, lo)
  {
    var out := DMAliases(lo, hi);
    assert out[0] == CanonicalDM(lo, hi) && out[1] == LegacyForm(lo, hi);
    if LegacyForm(lo, hi) != LegacyForm(hi, lo) {
      assert out[2] == LegacyForm(hi, lo);
    }
  }

  /**
   For any two user ids: every alias leads back to the room it was listed for iff both orders of the legacy
   spelling can be read. Aliases of ids of other lengths are ids of other rooms, or of none.
   */
  lemma AliasesSoundIff(a: Str, b: Str)
    requires UserId(a) && UserId(b)
    ensures (forall id :: id in AliasList(CanonicalDM(a, b)) ==> Normalize(id) == CanonicalDM(a, b))
            <==> LegacyReadable(a, b) && LegacyReadable(b, a)
  {
    forall id ensures id in AliasList(CanonicalDM(a, b)) <==>
                      id == CanonicalDM(a, b) || id == LegacyForm(a, b) || id == LegacyForm(b, a) {
      AliasMember(a, b, id);
    }
    CanonicalIsFixed(a, b);
    LegacyFormAgreesIff(a, b);
    LegacyFormAgreesIff(b, a);
    CanonicalSymmetric(a, b);
    assert LegacyForm(a, b) in AliasList(CanonicalDM(a, b)) && LegacyForm(b, a) in AliasList(CanonicalDM(a, b));
  }

  /** So it is for 36-byte ids. */
  lemma AliasesSound(a: Str, b: Str, id: Str)
    requires LegacyUserId(a) && LegacyUserId(b)
    requires id in AliasList(CanonicalDM(a, b))
    ensures Normalize(id) == CanonicalDM(a, b)
  {
    AliasesSoundIff(a, b);
  }

  /** No document is history of two different rooms. */
  lemma AliasesDisjoint(a: Str, b: Str, c: Str, d: Str, id: Str)
    requires LegacyUserId(a) && LegacyUserId(b) && LegacyUserId(c) && LegacyUserId(d)
    requires id in AliasList(CanonicalDM(a, b)) && id in AliasList(CanonicalDM(c, d))
    ensures (a == c && b == d) || (a == d && b == c)
  {
    AliasesSound(a, b, id);
    AliasesSound(c, d, id);
    CanonicalInjective(a, b, c, d);
  }

  /**
   Of the ways a pair has been spelled, history is read back from exactly these: the sorted dm: form
   and either legacy form. The unsorted dm: form normalises to the room but is not among its aliases.
   */
  lemma SpellingReachableIff(a: Str, b: Str)
    requires UserId(a) && UserId(b)
    ensures Normalize(DMForm(COLON, a, b)) == CanonicalDM(a, b)
    ensures DMForm(COLON, a, b) in AliasList(CanonicalDM(a, b)) <==> !Less(b, a)
    ensures forall id :: id in AliasList(CanonicalDM(a, b)) <==>
                         id == CanonicalDM(a, b) || id == LegacyForm(a, b) || id == LegacyForm(b, a)
  {
    forall id {
      AliasMember(a, b, id);
    }
    ColonFormAgrees(a, b);
    UnsortedDiffers(a, b);
    assert DMForm(COLON, a, b)[0] == 0x64 && LegacyForm(a, b)[0] == 0x43 && LegacyForm(b, a)[0] == 0x43;
  }

  lemma UnsortedDiffers(a: Str, b: Str)
    requires COLON !in a && COLON !in b
    ensures DMForm(COLON, a, b) == CanonicalDM(a, b) <==> !Less(b, a)
  {
    SameBody(a + [COLON] + b, Min(a, b) + [COLON] + Max(a, b));
    HeadTail(a, COLON, b);
    HeadTail(b, COLON, a);
    LessAsymmetric(a, b);
  }
}
