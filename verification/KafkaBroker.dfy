/**
 The Kafka broker's in-memory registry: per room a slice of channels, appended to by Subscribe and
 shifted in place by the cancel function. The dispatcher takes a slice under the read lock and walks
 it after releasing the lock, so it shares the backing array that a cancel shifts.
 */
module KafkaBroker {
  import opened Bytes
  import opened Slices
  import Hub

  type Data = Str

  /** A Go slice: the first len cells of a backing array. */
  datatype Slice = Slice(cells: array<nat>, len: nat) {
    ghost predicate Holds(list: seq<nat>)
      reads cells
    {
      len <= cells.Length && cells[..len] == list
    }
  }

  ghost predicate Unshared(subs: map<Str, Slice>) {
    forall r, q :: r in subs && q in subs && r != q ==> subs[r].cells != subs[q].cells
  }

  /** Every channel listed is known, open, and listed once in one room. */
  ghost predicate WellListed(subs: Registry, open: set<nat>) {
    && (forall r :: r in subs ==> subs[r] != [])
    && (forall r, k :: r in subs && 0 <= k < |subs[r]| ==> subs[r][k] in open)
    && (forall r, j, k :: r in subs && 0 <= j < k < |subs[r]| ==> subs[r][j] != subs[r][k])
    && (forall r, q, ch :: r in subs && q in subs && ch in subs[r] && ch in subs[q] ==> r == q)
  }

  class Broker {
    var subs: map<Str, Slice>
    var queues: map<nat, seq<Data>>
    var closed: set<nat>
    var next: nat
    ghost var lists: Registry

    ghost function Arrays(): set<object>
      reads `subs
    {
      set r | r in subs :: subs[r].cells
    }

    /** The slices hold the lists of the registry, and no two rooms share an array. */
    ghost predicate Sliced()
      reads `subs, `lists, Arrays()
    {
      && subs.Keys == lists.Keys && Unshared(subs)
      && (forall r :: r in subs ==> subs[r].Holds(lists[r]))
    }

    ghost predicate Valid()
      reads this, Arrays()
    {
      Sliced() && closed <= queues.Keys && (forall ch: nat :: ch in queues <==> ch < next)
    }

    constructor ()
      ensures Valid() && lists == map[] && closed == {} && queues == map[]
    {
      subs, queues, closed, next, lists := map[], map[], {}, 0, map[];
    }

    /** append: in place while the backing array has room, into a larger array otherwise. */
    static method Append(cells: array<nat>, len: nat, ch: nat) returns (t: Slice)
      requires len <= cells.Length
      modifies cells
      ensures t.Holds(old(cells[..len]) + [ch])
      ensures if len < cells.Length then t.cells == cells else fresh(t.cells)
      ensures cells[..] == Appended(old(cells[..]), len, ch)
    {
      var target := cells;
      if len == cells.Length {
        target := new nat[2 * len + 1];
        for k := 0 to len
          invariant target[..k] == cells[..k]
          invariant cells[..] == old(cells[..])
        {
          target[k] := cells[k];
        }
      }
      target[len] := ch;
      t := Slice(target, len + 1);
    }

    /** append(list[:i], list[i+1:]...): later cells move down by one and the last one keeps its value. */
    static method Shift(cells: array<nat>, len: nat, i: nat)
      requires i < len <= cells.Length
      modifies cells
      ensures cells[..] == Shifted(old(cells[..]), len, i)
    {
      var k := i;
      while k + 1 < len
        invariant i <= k < len
        invariant forall j :: 0 <= j < cells.Length ==> cells[j] == old(cells[if i <= j < k then j + 1 else j])
      {
        cells[k] := cells[k + 1];
        k := k + 1;
      }
      ghost var before := old(cells[..]);
      ShiftedFrom(before, len, i);
      assert forall j :: 0 <= j < cells.Length ==> cells[j] == before[if i <= j < len - 1 then j + 1 else j];
    }

    /** All rooms but one hold their lists. */
    ghost predicate SlicedBut(room: Str)
      reads `subs, `lists, Arrays()
    {
      && subs.Keys == lists.Keys && Unshared(subs)
      && (forall r :: r in subs && r != room ==> subs[r].Holds(lists[r]))
    }

    method Install(room: Str, s: Slice, ghost list: seq<nat>)
      requires SlicedBut(room) && s.Holds(list)
      requires forall r :: r in subs && r != room ==> subs[r].cells != s.cells
      modifies `subs, `lists
      ensures Sliced() && lists == old(lists)[room := list] && subs == old(subs)[room := s]
    {
      subs := subs[room := s];
      lists := lists[room := list];
    }

    method Uninstall(room: Str)
      requires SlicedBut(room)
      modifies `subs, `lists
      ensures Sliced() && lists == old(lists) - {room} && subs == old(subs) - {room}
    {
      subs := subs - {room};
      lists := lists - {room};
    }

    method Enlist(room: Str, ch: nat)
      requires Sliced()
      modifies `subs, `lists, if room in subs then {subs[room].cells} else {}
      ensures Sliced() && lists == Subscribed(old(lists), room, ch)
      ensures queues == old(queues) && closed == old(closed) && next == old(next)
      ensures room in subs && (room !in old(subs) ==> fresh(subs[room].cells))
      ensures room in old(subs) ==>
                var s := old(subs)[room];
                && s.cells[..] == Appended(old(subs[room].cells[..]), s.len, ch)
                && if s.len < s.cells.Length then subs[room].cells == s.cells else fresh(subs[room].cells)
    {
      var cells, len := new nat[0], 0;
      if room in subs {
        cells, len := subs[room].cells, subs[room].len;
      }
      var s := Append(cells, len, ch);
      assert SlicedBut(room);
      Install(room, s, s.cells[..s.len]);
    }

    method Subscribe(room: Str) returns (ch: nat)
      requires Valid()
      modifies this, if room in subs then {subs[room].cells} else {}
      ensures Valid()
      ensures ch == old(next) && ch !in old(queues) && next == ch + 1
      ensures queues == old(queues)[ch := []] && closed == old(closed)
      ensures lists == Subscribed(old(lists), room, ch)
      ensures room in subs && (room !in old(subs) ==> fresh(subs[room].cells))
      ensures room in old(subs) ==>
                var s := old(subs)[room];
                && s.cells[..] == Appended(old(subs[room].cells[..]), s.len, ch)
                && if s.len < s.cells.Length then subs[room].cells == s.cells else fresh(subs[room].cells)
    {
      ch := next;
      next := next + 1;
      queues := queues[ch := []];
      Enlist(room, ch);
    }

    /** What the dispatcher copies under the read lock: the slice, not the cells. */
    method TakeSlice(room: Str) returns (s: Slice)
      requires Sliced()
      ensures if room in subs then s == subs[room] else s.len == s.cells.Length == 0 && fresh(s.cells)
    {
      if room in subs {
        return subs[room];
      }
      var none := new nat[0];
      s := Slice(none, 0);
    }

    /** The select of the dispatcher: enqueue or drop, and a panic on a closed channel. */
    method Send(ch: nat, data: Data) returns (panics: bool)
      requires ch in queues
      modifies `queues
      ensures panics <==> ch in closed
      ensures queues == if panics then old(queues) else SentTo(old(queues), [ch], data)
      ensures queues.Keys == old(queues.Keys)
    {
      assert [ch][..0] == [];
      panics := ch in closed;
      if !panics {
        queues := queues[ch := if |queues[ch]| < Hub.QUEUE_CAPACITY then queues[ch] + [data] else queues[ch]];
      }
    }

    method SendAll(s: Slice, ghost list: seq<nat>, data: Data)
      requires s.Holds(list) && forall ch :: ch in list ==> ch in queues && ch !in closed
      modifies `queues
      ensures queues == SentTo(old(queues), list, data)
    {
      for k := 0 to s.len
        invariant queues == SentTo(old(queues), list[..k], data) && queues.Keys == old(queues.Keys)
      {
        assert s.cells[k] == list[k] && list[..k + 1][..k] == list[..k];
        var panics := Send(s.cells[k], data);
        assert !panics;
      }
      assert list[..s.len] == list;
    }

    /** One turn of the dispatcher that nothing disturbs: every channel of the room is offered the data once. */
    method Dispatch(room: Str, data: Data)
      requires Valid() && WellListed(lists, queues.Keys - closed)
      modifies `queues
      ensures Valid() && queues.Keys == old(queues.Keys)
      ensures forall ch :: ch in queues ==>
                queues[ch] == if ch in Channels(lists, room) then Hub.Offered(old(queues)[ch], data) else old(queues)[ch]
    {
      var s := TakeSlice(room);
      ghost var list := Channels(lists, room);
      ListedOpen(lists, queues.Keys - closed, room);
      SentOnce(queues, list, data);
      SendAll(s, list, data);
    }

    static method Search(s: Slice, ch: nat) returns (i: nat)
      requires s.len <= s.cells.Length
      ensures i == Position(s.cells[..s.len], ch)
    {
      i := 0;
      while i < s.len && s.cells[i] != ch
        invariant i <= s.len && ch !in s.cells[..i]
      {
        i := i + 1;
      }
      assert s.cells[..s.len][..i] == s.cells[..i];
      PositionIs(s.cells[..s.len], ch, i);
    }

    /** The search and removal of the cancel function. */
    static method Remove(s: Slice, ch: nat) returns (t: Slice)
      requires s.len <= s.cells.Length
      modifies s.cells
      ensures t.cells == s.cells && t.Holds(WithoutFirst(old(s.cells[..s.len]), ch))
      ensures ch in old(s.cells[..s.len]) ==>
                s.cells[..] == Shifted(old(s.cells[..]), s.len, Position(old(s.cells[..s.len]), ch))
    {
      var i := Search(s, ch);
      t := s;
      if i < s.len {
        ghost var cells := s.cells[..];
        assert cells[..s.len] == s.cells[..s.len];
        Shift(s.cells, s.len, i);
        ShiftedFront(cells, s.len, i);
        assert s.cells[..s.len - 1] == s.cells[..][..s.len - 1];
        t := Slice(s.cells, s.len - 1);
      }
    }

    method Delist(room: Str, ch: nat)
      requires Sliced() && room in subs
      modifies `subs, `lists, subs[room].cells
      ensures queues == old(queues) && closed == old(closed) && next == old(next)
      ensures Sliced() && lists == Cancelled(old(lists), room, ch)
      ensures ch in old(lists[room]) ==>
                var s := old(subs)[room];
                && s.cells[..] == Shifted(old(subs[room].cells[..]), s.len, Position(old(lists)[room], ch))
                && (room in subs ==> subs[room].cells == s.cells)
    {
      var s := Remove(subs[room], ch);
      assert SlicedBut(room);
      if s.len == 0 {
        Uninstall(room);
      } else {
        Install(room, s, s.cells[..s.len]);
      }
    }

    /**
     The cancel function of channel ch. Besides removing exactly its own channel it states what is left
     in the backing array, which is what a dispatcher that took the slice earlier goes on reading.
     */
    method Cancel(room: Str, ch: nat)
      requires Valid()
      requires ch in queues && ch !in closed
      modifies this, if room in subs then {subs[room].cells} else {}
      ensures Valid()
      ensures lists == Cancelled(old(lists), room, ch)
      ensures closed == old(closed) + {ch} && queues == old(queues) && next == old(next)
      ensures room in old(subs) && ch in old(lists[room]) ==>
                var s := old(subs)[room];
                && s.cells[..] == Shifted(old(subs[room].cells[..]), s.len, Position(old(lists)[room], ch))
                && (room in subs ==> subs[room].cells == s.cells)
    {
      if room in subs {
        Delist(room, ch);
      }
      closed := closed + {ch};
    }
  }

  /** The queues after one message was offered to each channel of a list in turn. */
  function SentTo(queues: map<nat, seq<Data>>, list: seq<nat>, data: Data): map<nat, seq<Data>> {
    if list == [] then queues
    else
      var before, ch := SentTo(queues, list[..|list| - 1], data), list[|list| - 1];
      if ch in before then before[ch := Hub.Offered(before[ch], data)] else before
  }

  lemma {:induction false} SentOnce(queues: map<nat, seq<Data>>, list: seq<nat>, data: Data)
    requires Distinct(list)
    ensures var after := SentTo(queues, list, data);
            && after.Keys == queues.Keys
            && forall ch :: ch in queues ==> after[ch] == if ch in list then Hub.Offered(queues[ch], data) else queues[ch]
  {
    if list != [] {
      var n := |list| - 1;
      assert list == list[..n] + [list[n]];
      SentOnce(queues, list[..n], data);
    }
  }

  lemma ShiftedFront(cells: seq<nat>, len: nat, i: nat)
    requires i < len <= |cells|
    ensures Shifted(cells, len, i)[..len - 1] == Without(cells[..len], i)
    ensures Shifted(cells, len, i)[..len] == Stale(cells[..len], i)
  {
  }

  lemma ListedOpen(lists: Registry, open: set<nat>, room: Str)
    requires WellListed(lists, open)
    ensures Distinct(Channels(lists, room))
    ensures forall ch :: ch in Channels(lists, room) ==> ch in open
  {
  }

  lemma SubscribedWellListed(lists: Registry, open: set<nat>, room: Str, ch: nat)
    requires WellListed(lists, open) && ch !in open
    ensures WellListed(Subscribed(lists, room, ch), open + {ch})
  {
  }

  lemma WithoutKeeps(list: seq<nat>, i: nat)
    requires i < |list| && forall j, k :: 0 <= j < k < |list| ==> list[j] != list[k]
    ensures var left := Without(list, i);
            && (forall x :: x in left <==> x in list && x != list[i])
            && (forall j, k :: 0 <= j < k < |left| ==> left[j] != left[k])
  {
    var left := Without(list, i);
    forall x | x in list && x != list[i] ensures x in left {
      var k :| 0 <= k < |list| && list[k] == x;
      assert left[if k < i then k else k - 1] == x;
    }
  }

  lemma CancelledWellListed(lists: Registry, open: set<nat>, room: Str, ch: nat)
    requires WellListed(lists, open)
    requires forall r :: r in lists && r != room ==> ch !in lists[r]
    ensures WellListed(Cancelled(lists, room, ch), open - {ch})
  {
    if room in lists && ch in lists[room] {
      WithoutKeeps(lists[room], Position(lists[room], ch));
    }
    var after := Cancelled(lists, room, ch);
    forall r, k | r in after && 0 <= k < |after[r]| ensures after[r][k] in open - {ch} {
      assert after[r][k] in after[r];
    }
    forall r, q, x | r in after && q in after && x in after[r] && x in after[q] ensures r == q {
      assert x in lists[r] && x in lists[q];
    }
  }

  lemma PositionIs(list: seq<nat>, ch: nat, i: nat)
    requires i <= |list| && ch !in list[..i] && (i < |list| ==> list[i] == ch)
    ensures Position(list, ch) == i
  {
    var p := Position(list, ch);
    assert i < |list| ==> ch in list;
    assert forall k :: 0 <= k < i ==> list[k] == list[..i][k];
    assert forall k :: 0 <= k < p ==> list[k] == list[..p][k];
  }

  /** What the cells of a list hold after the channel at i was shifted out of it. */
  function Stale(list: seq<nat>, i: nat): seq<nat>
    requires i < |list|
  {
    Without(list, i) + [list[|list| - 1]]
  }

  // ------------------------------------------------- a cancel that strikes during a dispatch

  predicate Distinct(list: seq<nat>) {
    forall j, k :: 0 <= j < k < |list| ==> list[j] != list[k]
  }

  /** The channels a dispatcher sends to when the channel at i is cancelled after its first p sends. */
  function Walk(list: seq<nat>, p: nat, i: nat): seq<nat>
    requires i < |list| && p <= |list|
  {
    list[..p] + Stale(list, i)[p..]
  }

  lemma {:induction false} DistinctOnce(list: seq<nat>, k: nat)
    requires Distinct(list) && k < |list|
    ensures multiset(list)[list[k]] == 1
  {
    var n := |list| - 1;
    assert list == list[..n] + [list[n]];
    if k < n {
      DistinctOnce(list[..n], k);
    } else {
      assert list[n] !in list[..n];
    }
  }

  /** What is left in the cells: the others in order, the last of them twice; all of the list if it was the last. */
  lemma StaleCells(list: seq<nat>, i: nat)
    requires i < |list|
    ensures |Stale(list, i)| == |list|
    ensures forall k :: 0 <= k < |list| ==> Stale(list, i)[k] == list[if i <= k < |list| - 1 then k + 1 else k]
  {
  }

  lemma UndisturbedWalk(list: seq<nat>, p: nat, i: nat)
    requires Distinct(list) && i < |list| && p <= |list| && (i == |list| - 1 || p >= |list| - 1)
    ensures forall k :: 0 <= k < |list| && k != i ==> multiset(Walk(list, p, i))[list[k]] == 1
  {
    StaleCells(list, i);
    assert Walk(list, p, i) == list;
    forall k | 0 <= k < |list| && k != i ensures multiset(list)[list[k]] == 1 {
      DistinctOnce(list, k);
    }
  }

  lemma TwiceIn(list: seq<nat>, x: nat, j: nat, k: nat)
    requires j < k < |list| && list[j] == list[k] == x
    ensures multiset(list)[x] >= 2
  {
    assert list == list[..j + 1] + list[j + 1..];
    assert list[..j + 1][j] == x && list[j + 1..][k - j - 1] == x;
    assert x in multiset(list[..j + 1]) && x in multiset(list[j + 1..]);
  }

  lemma DisturbedWalk(list: seq<nat>, p: nat, i: nat)
    requires Distinct(list) && i < |list| - 1 && p < |list| - 1
    ensures multiset(Walk(list, p, i))[list[|list| - 1]] >= 2
  {
    StaleCells(list, i);
    TwiceIn(Walk(list, p, i), list[|list| - 1], |list| - 2, |list| - 1);
  }

  /** Each channel of the list but the i-th has been sent to once. */
  predicate OthersOnce(list: seq<nat>, i: nat, sent: seq<nat>) {
    forall k :: 0 <= k < |list| && k != i ==> multiset(sent)[list[k]] == 1
  }

  /** The others are visited once each iff the cancelled channel was the last, or at most one visit was left. */
  lemma WalkOnceIff(list: seq<nat>, p: nat, i: nat)
    requires Distinct(list) && i < |list| && p <= |list|
    ensures OthersOnce(list, i, Walk(list, p, i)) <==> i == |list| - 1 || p >= |list| - 1
  {
    if i == |list| - 1 || p >= |list| - 1 {
      UndisturbedWalk(list, p, i);
    } else {
      DisturbedWalk(list, p, i);
      assert multiset(Walk(list, p, i))[list[|list| - 1]] != 1;
    }
  }
}
