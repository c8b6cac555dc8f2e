/**
 History paging. The store is a finite collection in insertion order; a query filters it, sorts it
 newest first and cuts it to a limit. A client that passes the oldest timestamp of each page as the
 next cursor reads back a history that is characterised here exactly, ties included.
 */
module Paging {
  import opened Bytes

  datatype Doc = Doc(id: nat, conversationID: Str, roomID: Str, createdAt: int, sentAt: int)

  // ------------------------------------------------------------- filter, sort, limit

  function Filter(c: seq<Doc>, p: Doc -> bool): seq<Doc> {
    if c == [] then [] else if p(c[0]) then [c[0]] + Filter(c[1..], p) else Filter(c[1..], p)
  }

  /** The sort key of queryMessages: created_at, then sent_at, both descending. */
  predicate Newer(x: Doc, y: Doc) {
    x.createdAt > y.createdAt || (x.createdAt == y.createdAt && x.sentAt > y.sentAt)
  }

  function Insert(x: Doc, s: seq<Doc>): seq<Doc> {
    if s == [] || Newer(x, s[0]) then [x] + s else [s[0]] + Insert(x, s[1..])
  }

  /** Newest first; documents with equal keys stay in insertion order. */
  function Sort(c: seq<Doc>): seq<Doc> {
    if c == [] then [] else Insert(c[|c| - 1], Sort(c[..|c| - 1]))
  }

  function Take(s: seq<Doc>, n: nat): seq<Doc> {
    if |s| <= n then s else s[..n]
  }

  predicate InRoom(ids: seq<Str>, d: Doc) {
    d.conversationID in ids || d.roomID in ids
  }

  /** The filter of GetMessagesBefore; a zero cursor is no cursor. */
  predicate Matches(ids: seq<Str>, before: int, d: Doc) {
    InRoom(ids, d) && (before == 0 || d.createdAt < before || d.sentAt < before)
  }

  function Matching(ids: seq<Str>, before: int): Doc -> bool {
    (d: Doc) => Matches(ids, before, d)
  }

  function Find(c: seq<Doc>, ids: seq<Str>, before: int, limit: nat): seq<Doc> {
    Take(Sort(Filter(c, Matching(ids, before))), limit)
  }

  function EffectiveLimit(limit: int): (r: nat)
    ensures 0 < r <= 200
  {
    if limit <= 0 || limit > 200 then 50 else limit
  }

  /** GetMessages: one document more than the page is asked for, and its presence is has_more. */
  method GetMessages(c: seq<Doc>, ids: seq<Str>, reqLimit: int, before: int) returns (msgs: seq<Doc>, hasMore: bool)
    ensures var all := Sort(Filter(c, Matching(ids, before)));
            && msgs == Take(all, EffectiveLimit(reqLimit))
            && (hasMore <==> |all| > EffectiveLimit(reqLimit))
    // only documents of the room, older than a cursor that is given, and none more often than it is stored
    ensures forall d :: d in msgs ==>
              && d in c && (d.conversationID in ids || d.roomID in ids)
              && (before != 0 ==> d.createdAt < before || d.sentAt < before)
    ensures multiset(msgs) <= multiset(c)
    // newest first
    ensures forall i, j :: 0 <= i < j < |msgs| ==>
              msgs[i].createdAt > msgs[j].createdAt || (msgs[i].createdAt == msgs[j].createdAt && msgs[i].sentAt >= msgs[j].sentAt)
    // all of them unless there are more, and what is left out is no newer than what is returned
    ensures forall d :: d in c && (d.conversationID in ids || d.roomID in ids)
                        && (before != 0 ==> d.createdAt < before || d.sentAt < before) ==>
              if !hasMore then multiset(msgs)[d] == multiset(c)[d]
              else d in msgs || forall x :: x in msgs ==>
                     x.createdAt > d.createdAt || (x.createdAt == d.createdAt && x.sentAt >= d.sentAt)
    ensures if 1 <= reqLimit <= 200 then |msgs| <= reqLimit && (hasMore ==> |msgs| == reqLimit)
            else |msgs| <= 50 && (hasMore ==> |msgs| == 50)
  {
    var limit := reqLimit;
    if limit <= 0 || limit > 200 {
      limit := 50;
    }
    PageOfRoom(c, ids, before, limit);
    msgs := Find(c, ids, before, limit + 1);
    hasMore := |msgs| > limit;
    if hasMore {
      msgs := msgs[..limit];
    }
  }

  // ---------------------------------------------------------------- about filter and sort

  predicate Sorted(s: seq<Doc>) {
    forall i, j :: 0 <= i < j < |s| ==> !Newer(s[j], s[i])
  }

  lemma {:induction false} InsertAdds(x: Doc, s: seq<Doc>)
    ensures multiset(Insert(x, s)) == multiset(s) + multiset{x}
  {
    if s != [] && !Newer(x, s[0]) {
      InsertAdds(x, s[1..]);
      assert s == [s[0]] + s[1..];
    }
  }

  lemma {:induction false} InsertSorted(x: Doc, s: seq<Doc>)
    requires Sorted(s)
    ensures Sorted(Insert(x, s))
  {
    if s != [] && !Newer(x, s[0]) {
      InsertSorted(x, s[1..]);
      InsertAdds(x, s[1..]);
      SortedCons(s[0], Insert(x, s[1..]));
    } else {
      SortedCons(x, s);
    }
  }

  lemma SortedCons(x: Doc, s: seq<Doc>)
    requires Sorted(s) && forall y :: y in multiset(s) && y != x ==> !Newer(y, x)
    ensures Sorted([x] + s)
  {
    forall k | 0 <= k < |s| ensures !Newer(s[k], x) {
      assert s[k] in multiset(s);
    }
  }

  lemma {:induction false} SortSorted(c: seq<Doc>)
    ensures Sorted(Sort(c)) && multiset(Sort(c)) == multiset(c)
  {
    if c != [] {
      var n := |c| - 1;
      SortSorted(c[..n]);
      InsertSorted(c[n], Sort(c[..n]));
      InsertAdds(c[n], Sort(c[..n]));
      assert c == c[..n] + [c[n]];
    }
  }

  lemma {:induction false} FilterAppend(x: seq<Doc>, y: seq<Doc>, p: Doc -> bool)
    ensures Filter(x + y, p) == Filter(x, p) + Filter(y, p)
  {
    if x == [] {
      assert x + y == y;
    } else {
      FilterAppend(x[1..], y, p);
      Reassociate(x, y);
      if p(x[0]) {
        assert [x[0]] + (Filter(x[1..], p) + Filter(y, p)) == [x[0]] + Filter(x[1..], p) + Filter(y, p);
      }
    }
  }

  lemma Reassociate(x: seq<Doc>, y: seq<Doc>)
    requires x != []
    ensures (x + y)[0] == x[0] && (x + y)[1..] == x[1..] + y
  {
  }

  lemma FilterCons(x: Doc, s: seq<Doc>, p: Doc -> bool)
    ensures Filter([x] + s, p) == if p(x) then [x] + Filter(s, p) else Filter(s, p)
  {
    assert ([x] + s)[1..] == s;
  }

  lemma InsertCons(x: Doc, y: Doc, s: seq<Doc>)
    ensures Insert(x, [y] + s) == if Newer(x, y) then [x] + ([y] + s) else [y] + Insert(x, s)
  {
    assert ([y] + s)[1..] == s;
  }

  lemma {:induction false} FilterInsert(x: Doc, s: seq<Doc>, p: Doc -> bool)
    requires Sorted(s)
    ensures Filter(Insert(x, s), p) == if p(x) then Insert(x, Filter(s, p)) else Filter(s, p)
  {
    if s == [] || Newer(x, s[0]) {
      FilterCons(x, s, p);
      InsertAtFront(x, s, p);
    } else {
      FilterInsert(x, s[1..], p);
      FilterCons(s[0], Insert(x, s[1..]), p);
      InsertCons(x, s[0], Filter(s[1..], p));
    }
  }

  /** Before everything in s means before everything that is kept of s. */
  lemma {:induction false} InsertAtFront(x: Doc, s: seq<Doc>, p: Doc -> bool)
    requires Sorted(s) && (s == [] || Newer(x, s[0]))
    ensures Insert(x, Filter(s, p)) == [x] + Filter(s, p)
  {
    if s != [] && !p(s[0]) {
      if |s| > 1 {
        assert !Newer(s[1], s[0]);
      }
      InsertAtFront(x, s[1..], p);
    } else if s != [] {
      InsertCons(x, s[0], Filter(s[1..], p));
    }
  }

  lemma FilterSnoc(front: seq<Doc>, x: Doc, p: Doc -> bool)
    ensures Filter(front + [x], p) == if p(x) then Filter(front, p) + [x] else Filter(front, p)
  {
    FilterAppend(front, [x], p);
    FilterCons(x, [], p);
    assert [x] + [] == [x];
  }

  lemma SortSnoc(c: seq<Doc>, x: Doc)
    ensures Sort(c + [x]) == Insert(x, Sort(c))
  {
    assert (c + [x])[..|c|] == c;
  }

  /** Filtering before sorting or after is the same. */
  lemma {:induction false} FilterSort(c: seq<Doc>, p: Doc -> bool)
    ensures Sort(Filter(c, p)) == Filter(Sort(c), p)
  {
    if c != [] {
      var front, x := c[..|c| - 1], c[|c| - 1];
      FilterSort(front, p);
      FilterSortSnoc(front, x, p);
      assert c == front + [x];
    }
  }

  lemma FilterSortSnoc(front: seq<Doc>, x: Doc, p: Doc -> bool)
    requires Sort(Filter(front, p)) == Filter(Sort(front), p)
    ensures Sort(Filter(front + [x], p)) == Filter(Sort(front + [x]), p)
  {
    SortSorted(front);
    FilterInsert(x, Sort(front), p);
    FilterSnoc(front, x, p);
    SortSnoc(front, x);
    SortSnoc(Filter(front, p), x);
  }

  // ----------------------------------------------------------- what is on a page

  lemma {:induction false} FilterCounts(c: seq<Doc>, p: Doc -> bool, d: Doc)
    ensures multiset(Filter(c, p))[d] == if p(d) then multiset(c)[d] else 0
  {
    if c != [] {
      FilterCounts(c[1..], p, d);
      assert c == [c[0]] + c[1..];
    }
  }

  /** What a query finds, on the fields: each document of the room before the cursor as often as it is stored. */
  lemma FoundCounts(c: seq<Doc>, ids: seq<Str>, before: int, d: Doc)
    ensures multiset(Found(c, ids, before))[d] ==
            if (d.conversationID in ids || d.roomID in ids) && (before != 0 ==> d.createdAt < before || d.sentAt < before)
            then multiset(c)[d] else 0
  {
    SortSorted(Filter(c, Matching(ids, before)));
    FilterCounts(c, Matching(ids, before), d);
  }

  lemma TakeCounts(s: seq<Doc>, n: nat)
    ensures multiset(Take(s, n)) <= multiset(s)
  {
    if |s| > n {
      assert s == s[..n] + s[n..];
    }
  }

  /** A page of a sorted list: a part of it, and whatever is not on it is no newer. */
  lemma TakeNewest(s: seq<Doc>, n: nat, d: Doc)
    requires Sorted(s) && d in multiset(s)
    ensures d in Take(s, n) || forall x :: x in Take(s, n) ==> !Newer(d, x)
  {
    var k :| 0 <= k < |s| && s[k] == d;
    if k < n {
      assert Take(s, n)[k] == d;
    } else {
      forall x | x in Take(s, n) ensures !Newer(d, x) {
        var j :| 0 <= j < |Take(s, n)| && Take(s, n)[j] == x;
        assert s[j] == x;
      }
    }
  }

  ghost predicate OnPage(d: Doc, c: seq<Doc>, ids: seq<Str>, before: int) {
    && d in c && (d.conversationID in ids || d.roomID in ids)
    && (before != 0 ==> d.createdAt < before || d.sentAt < before)
  }

  lemma PageOfRoom(c: seq<Doc>, ids: seq<Str>, before: int, limit: nat)
    ensures var found, page := Found(c, ids, before), Take(Found(c, ids, before), limit);
            && (forall d :: d in page ==> OnPage(d, c, ids, before))
            && multiset(page) <= multiset(c)
            && Sorted(page)
            && (forall d :: OnPage(d, c, ids, before) ==>
                  if |found| <= limit then multiset(page)[d] == multiset(c)[d]
                  else d in page || forall x :: x in page ==> !Newer(d, x))
  {
    var found := Found(c, ids, before);
    var page := Take(found, limit);
    SortSorted(Filter(c, Matching(ids, before)));
    TakeCounts(found, limit);
    forall d: Doc
      ensures multiset(found)[d] ==
              if (d.conversationID in ids || d.roomID in ids) && (before != 0 ==> d.createdAt < before || d.sentAt < before)
              then multiset(c)[d] else 0
    {
      FoundCounts(c, ids, before, d);
    }
    forall d | d in page ensures OnPage(d, c, ids, before) {
      assert d in multiset(page) && d in multiset(found) && d in multiset(c);
    }
    forall d | OnPage(d, c, ids, before)
      ensures if |found| <= limit then multiset(page)[d] == multiset(c)[d]
              else d in page || forall x :: x in page ==> !Newer(d, x)
    {
      assert d in multiset(c) && d in multiset(found);
      TakeNewest(found, limit, d);
    }
  }

  // ----------------------------------------------------------- the cursor loop

  /** What the client has read so far, the cursor of its next call, and whether it will make one. */
  datatype Progress = Progress(all: seq<Doc>, cursor: int, more: bool)

  const START: Progress := Progress([], 0, true)

  function Found(c: seq<Doc>, ids: seq<Str>, cursor: int): seq<Doc> {
    Sort(Filter(c, Matching(ids, cursor)))
  }

  function Call(c: seq<Doc>, ids: seq<Str>, limit: nat, p: Progress): Progress
    requires limit > 0
  {
    var found := Found(c, ids, p.cursor);
    if |found| > limit then Progress(p.all + found[..limit], found[limit - 1].createdAt, true)
    else Progress(p.all + found, p.cursor, false)
  }

  /** The loop after n turns; `arrivals(k)` are the documents that call k finds besides c. */
  function After(c: seq<Doc>, arrivals: nat -> seq<Doc>, ids: seq<Str>, limit: nat, n: nat): Progress
    requires limit > 0
  {
    if n == 0 then START
    else
      var p := After(c, arrivals, ids, limit, n - 1);
      if p.more then Call(c + arrivals(n - 1), ids, limit, p) else p
  }

  /** One turn of the client: a page, and the oldest timestamp on it as the next cursor if there is more. */
  method NextPage(c: seq<Doc>, ids: seq<Str>, reqLimit: int, cursor: int, ghost all: seq<Doc>)
    returns (page: seq<Doc>, next: int, more: bool)
    ensures Progress(all + page, next, more) == Call(c, ids, EffectiveLimit(reqLimit), Progress(all, cursor, true))
  {
    page, more := GetMessages(c, ids, reqLimit, cursor);
    next := if more then page[|page| - 1].createdAt else cursor;
  }

  /**
   A client that starts at cursor 0 and passes on the oldest timestamp of each page until has_more is
   false, or until it loses patience.
   */
  method ReadHistory(c: seq<Doc>, arrivals: nat -> seq<Doc>, ids: seq<Str>, reqLimit: int, patience: nat)
    returns (all: seq<Doc>, calls: nat, done: bool)
    ensures calls <= patience && (done || calls == patience)
    ensures var p := After(c, arrivals, ids, EffectiveLimit(reqLimit), calls); all == p.all && done == !p.more
  {
    var cursor := 0;
    all, calls, done := [], 0, false;
    while !done && calls < patience
      invariant calls <= patience
      invariant Progress(all, cursor, !done) == After(c, arrivals, ids, EffectiveLimit(reqLimit), calls)
    {
      var page, more;
      page, cursor, more := NextPage(c + arrivals(calls), ids, reqLimit, cursor, all);
      all, calls, done := all + page, calls + 1, !more;
    }
  }

  // ----------------------------------------------------------- what it reads

  /** SaveMessage writes one time in both fields. */
  predicate Saved(c: seq<Doc>, ids: seq<Str>) {
    forall d :: d in c && InRoom(ids, d) ==> d.createdAt == d.sentAt
  }

  function OlderThan(t: int): Doc -> bool {
    (d: Doc) => d.createdAt < t
  }

  function Older(h: seq<Doc>, t: int): seq<Doc> {
    Filter(h, OlderThan(t))
  }

  /** The room's history, newest first. */
  function History(c: seq<Doc>, ids: seq<Str>): seq<Doc> {
    Sort(Filter(c, Matching(ids, 0)))
  }

  lemma {:induction false} FilterMembers(h: seq<Doc>, p: Doc -> bool)
    ensures |Filter(h, p)| <= |h|
    ensures forall d :: d in Filter(h, p) <==> d in h && p(d)
  {
    if h != [] {
      FilterMembers(h[1..], p);
      assert h == [h[0]] + h[1..];
    }
  }

  lemma {:induction false} FilterShorter(h: seq<Doc>, p: Doc -> bool, k: nat)
    requires k < |h| && !p(h[k])
    ensures |Filter(h, p)| < |h|
  {
    if k == 0 {
      FilterMembers(h[1..], p);
    } else {
      FilterShorter(h[1..], p, k - 1);
    }
  }

  /** Page after page over one history: a full page, then whatever is strictly older than its last. */
  function ReadBack(h: seq<Doc>, limit: nat): seq<Doc>
    requires limit > 0
    decreases |h|
  {
    if |h| <= limit then h
    else
      FilterShorter(h, OlderThan(h[limit - 1].createdAt), limit - 1);
      h[..limit] + ReadBack(Older(h, h[limit - 1].createdAt), limit)
  }

  function Calls(h: seq<Doc>, limit: nat): nat
    requires limit > 0
    decreases |h|
  {
    if |h| <= limit then 1
    else
      FilterShorter(h, OlderThan(h[limit - 1].createdAt), limit - 1);
      1 + Calls(Older(h, h[limit - 1].createdAt), limit)
  }

  /** The loop comes to a last page before some full page hands out cursor 0, which asks for the first page again. */
  predicate Ends(h: seq<Doc>, limit: nat)
    requires limit > 0
    decreases |h|
  {
    |h| <= limit ||
    (var edge := h[limit - 1].createdAt;
     FilterShorter(h, OlderThan(edge), limit - 1);
     edge != 0 && Ends(Older(h, edge), limit))
  }

  lemma {:induction false} FilterTwice(c: seq<Doc>, p: Doc -> bool, q: Doc -> bool, r: Doc -> bool)
    requires forall d :: d in c ==> (r(d) <==> p(d) && q(d))
    ensures Filter(Filter(c, p), q) == Filter(c, r)
  {
    if c != [] {
      FilterTwice(c[1..], p, q, r);
      FilterCons(c[0], Filter(c[1..], p), q);
    }
  }

  lemma {:induction false} FilterNone(c: seq<Doc>, p: Doc -> bool)
    requires forall d :: d in c ==> !p(d)
    ensures Filter(c, p) == []
  {
    if c != [] {
      FilterNone(c[1..], p);
    }
  }

  /** No later arrival in the room is older than anything of the history. */
  predicate ArrivedAfter(c: seq<Doc>, ids: seq<Str>, extra: seq<Doc>) {
    forall x, d :: x in extra && InRoom(ids, x) && d in c && InRoom(ids, d) ==> x.createdAt > d.createdAt && x.sentAt > d.sentAt
  }

  lemma HistoryMembers(c: seq<Doc>, ids: seq<Str>)
    ensures forall d :: d in History(c, ids) <==> d in c && InRoom(ids, d)
    ensures Sorted(History(c, ids))
  {
    var kept := Filter(c, Matching(ids, 0));
    FilterMembers(c, Matching(ids, 0));
    SortSorted(kept);
    forall d ensures d in History(c, ids) <==> d in kept {
      assert d in History(c, ids) <==> d in multiset(Sort(kept));
      assert d in kept <==> d in multiset(kept);
    }
  }

  /** With a cursor taken from the history, later arrivals change nothing. */
  lemma CursorReads(c: seq<Doc>, extra: seq<Doc>, ids: seq<Str>, t: int)
    requires Saved(c, ids) && ArrivedAfter(c, ids, extra)
    requires t != 0 && exists d :: d in c && InRoom(ids, d) && d.createdAt == t
    ensures Found(c + extra, ids, t) == Older(History(c, ids), t)
  {
    var d :| d in c && InRoom(ids, d) && d.createdAt == t;
    assert t == d.sentAt;
    FilterAppend(c, extra, Matching(ids, t));
    FilterNone(extra, Matching(ids, t));
    assert Filter(c, Matching(ids, t)) + [] == Filter(c, Matching(ids, t));
    FilterTwice(c, Matching(ids, 0), OlderThan(t), Matching(ids, t));
    FilterSort(Filter(c, Matching(ids, 0)), OlderThan(t));
  }

  /** Newer messages may keep arriving; the first call sees the history as it is. */
  ghost predicate Arrivals(c: seq<Doc>, ids: seq<Str>, arrivals: nat -> seq<Doc>) {
    arrivals(0) == [] && forall n: nat :: ArrivedAfter(c, ids, arrivals(n))
  }

  ghost predicate NoArrivals(arrivals: nat -> seq<Doc>) {
    forall n: nat :: arrivals(n) == []
  }

  /** Where a cursor is: at the start, or behind a document of the history. */
  ghost predicate Behind(history: seq<Doc>, rest: seq<Doc>, cursor: int) {
    if cursor == 0 then rest == history
    else rest == Older(history, cursor) && exists d :: d in history && d.createdAt == cursor
  }

  lemma FoundIsRest(c: seq<Doc>, extra: seq<Doc>, ids: seq<Str>, rest: seq<Doc>, cursor: int)
    requires Saved(c, ids) && ArrivedAfter(c, ids, extra) && (cursor == 0 ==> extra == [])
    requires Behind(History(c, ids), rest, cursor)
    ensures Found(c + extra, ids, cursor) == rest
  {
    if cursor == 0 {
      assert c + extra == c;
    } else {
      HistoryMembers(c, ids);
      CursorReads(c, extra, ids, cursor);
    }
  }

  lemma NextBehind(history: seq<Doc>, rest: seq<Doc>, cursor: int, limit: nat)
    requires Behind(history, rest, cursor) && 0 < limit < |rest|
    ensures var edge := rest[limit - 1].createdAt;
            edge != 0 ==> Behind(history, Older(rest, edge), edge)
  {
    var last := rest[limit - 1];
    var edge := last.createdAt;
    assert last in rest;
    if cursor != 0 {
      FilterMembers(history, OlderThan(cursor));
      FilterTwice(history, OlderThan(cursor), OlderThan(edge), OlderThan(edge));
    }
  }

  /** The loop stands before `rest` with `all` read. */
  ghost predicate Standing(c: seq<Doc>, arrivals: nat -> seq<Doc>, ids: seq<Str>, limit: nat, n: nat, all: seq<Doc>, rest: seq<Doc>)
    requires limit > 0
  {
    var p := After(c, arrivals, ids, limit, n);
    && p.more && p.all == all && Behind(History(c, ids), rest, p.cursor)
    && (p.cursor == 0 ==> arrivals(n) == [])
  }

  /** One turn of the loop: the last page ends it. */
  lemma LastTurn(c: seq<Doc>, arrivals: nat -> seq<Doc>, ids: seq<Str>, limit: nat, n: nat, all: seq<Doc>, rest: seq<Doc>)
    requires 0 < limit && |rest| <= limit && Saved(c, ids) && ArrivedAfter(c, ids, arrivals(n))
    requires Standing(c, arrivals, ids, limit, n, all, rest)
    ensures Read(c, arrivals, ids, limit, n + 1, all + rest)
  {
    FoundIsRest(c, arrivals(n), ids, rest, After(c, arrivals, ids, limit, n).cursor);
  }

  /** A full one moves it on, or sends it back. */
  lemma FullTurn(c: seq<Doc>, arrivals: nat -> seq<Doc>, ids: seq<Str>, limit: nat, n: nat, all: seq<Doc>, rest: seq<Doc>)
    requires 0 < limit < |rest| && Saved(c, ids) && ArrivedAfter(c, ids, arrivals(n))
    requires Standing(c, arrivals, ids, limit, n, all, rest)
    ensures After(c, arrivals, ids, limit, n + 1) == Progress(all + rest[..limit], rest[limit - 1].createdAt, true)
  {
    FoundIsRest(c, arrivals(n), ids, rest, After(c, arrivals, ids, limit, n).cursor);
  }

  lemma MovedOn(c: seq<Doc>, arrivals: nat -> seq<Doc>, ids: seq<Str>, limit: nat, n: nat, all: seq<Doc>, rest: seq<Doc>)
    requires 0 < limit < |rest| && Saved(c, ids) && ArrivedAfter(c, ids, arrivals(n))
    requires Standing(c, arrivals, ids, limit, n, all, rest) && rest[limit - 1].createdAt != 0
    ensures Standing(c, arrivals, ids, limit, n + 1, all + rest[..limit], Beyond(rest, limit))
  {
    FullTurn(c, arrivals, ids, limit, n, all, rest);
    NextBehind(History(c, ids), rest, After(c, arrivals, ids, limit, n).cursor, limit);
  }

  /** What is left after a full page. */
  function Beyond(rest: seq<Doc>, limit: nat): (left: seq<Doc>)
    requires 0 < limit < |rest|
    ensures |left| < |rest|
  {
    var edge := rest[limit - 1].createdAt;
    FilterShorter(rest, OlderThan(edge), limit - 1);
    Older(rest, edge)
  }

  lemma PassUnfolds(rest: seq<Doc>, limit: nat)
    requires 0 < limit < |rest|
    ensures ReadBack(rest, limit) == rest[..limit] + ReadBack(Beyond(rest, limit), limit)
    ensures Calls(rest, limit) == 1 + Calls(Beyond(rest, limit), limit)
    ensures Ends(rest, limit) <==> rest[limit - 1].createdAt != 0 && Ends(Beyond(rest, limit), limit)
  {
  }

  /** From its n-th turn on, the loop reads out what is left. */
  predicate ReadsOut(c: seq<Doc>, arrivals: nat -> seq<Doc>, ids: seq<Str>, limit: nat, n: nat, all: seq<Doc>, rest: seq<Doc>)
    requires limit > 0
  {
    Read(c, arrivals, ids, limit, n + Calls(rest, limit), all + ReadBack(rest, limit))
  }

  lemma ReadsOutStep(c: seq<Doc>, arrivals: nat -> seq<Doc>, ids: seq<Str>, limit: nat, n: nat, all: seq<Doc>, rest: seq<Doc>)
    requires 0 < limit < |rest|
    requires ReadsOut(c, arrivals, ids, limit, n + 1, all + rest[..limit], Beyond(rest, limit))
    ensures ReadsOut(c, arrivals, ids, limit, n, all, rest)
  {
    PassUnfolds(rest, limit);
    Regroup(all, rest[..limit], ReadBack(Beyond(rest, limit), limit));
  }

  lemma {:induction false} PassReads(c: seq<Doc>, arrivals: nat -> seq<Doc>, ids: seq<Str>, limit: nat, n: nat, all: seq<Doc>, rest: seq<Doc>)
    requires limit > 0 && Saved(c, ids) && Arrivals(c, ids, arrivals)
    requires Standing(c, arrivals, ids, limit, n, all, rest) && Ends(rest, limit)
    ensures ReadsOut(c, arrivals, ids, limit, n, all, rest)
    decreases |rest|
  {
    if |rest| <= limit {
      LastTurn(c, arrivals, ids, limit, n, all, rest);
    } else {
      PassUnfolds(rest, limit);
      MovedOn(c, arrivals, ids, limit, n, all, rest);
      PassReads(c, arrivals, ids, limit, n + 1, all + rest[..limit], Beyond(rest, limit));
      ReadsOutStep(c, arrivals, ids, limit, n, all, rest);
    }
  }

  lemma Regroup(x: seq<Doc>, y: seq<Doc>, z: seq<Doc>)
    ensures x + (y + z) == x + y + z
  {
  }

  /** A loop that comes to its end reads ReadBack of the history, whatever newer messages arrive meanwhile. */
  lemma EndingLoopReads(c: seq<Doc>, arrivals: nat -> seq<Doc>, ids: seq<Str>, limit: nat)
    requires limit > 0 && Saved(c, ids) && Arrivals(c, ids, arrivals) && Ends(History(c, ids), limit)
    ensures Read(c, arrivals, ids, limit, Calls(History(c, ids), limit), ReadBack(History(c, ids), limit))
  {
    PassReads(c, arrivals, ids, limit, 0, [], History(c, ids));
    assert [] + ReadBack(History(c, ids), limit) == ReadBack(History(c, ids), limit);
  }

  ghost predicate Finished(c: seq<Doc>, arrivals: nat -> seq<Doc>, ids: seq<Str>, limit: nat, all: seq<Doc>)
    requires limit > 0
  {
    exists n: nat :: Read(c, arrivals, ids, limit, n, all)
  }

  predicate Read(c: seq<Doc>, arrivals: nat -> seq<Doc>, ids: seq<Str>, limit: nat, n: nat, all: seq<Doc>)
    requires limit > 0
  {
    var p := After(c, arrivals, ids, limit, n);
    !p.more && p.all == all
  }

  lemma {:induction false} StaysEnded(c: seq<Doc>, arrivals: nat -> seq<Doc>, ids: seq<Str>, limit: nat, n: nat, m: nat)
    requires limit > 0 && n <= m && !After(c, arrivals, ids, limit, n).more
    ensures After(c, arrivals, ids, limit, m) == After(c, arrivals, ids, limit, n)
  {
    if n < m {
      StaysEnded(c, arrivals, ids, limit, n, m - 1);
    }
  }

  /** What a loop has read when it ends is determined. */
  lemma EndIsUnique(c: seq<Doc>, arrivals: nat -> seq<Doc>, ids: seq<Str>, limit: nat, n: nat, m: nat)
    requires limit > 0 && !After(c, arrivals, ids, limit, n).more && !After(c, arrivals, ids, limit, m).more
    ensures After(c, arrivals, ids, limit, n) == After(c, arrivals, ids, limit, m)
  {
    StaysEnded(c, arrivals, ids, limit, if n < m then n else m, if n < m then m else n);
  }

  // ----------------------------------------------------------- when it does not end

  /** The loop goes on, and from here it will be sent back. */
  ghost predicate Doomed(h: seq<Doc>, limit: nat, p: Progress)
    requires limit > 0
  {
    p.more && exists rest: seq<Doc> :: Behind(h, rest, p.cursor) && !Ends(rest, limit)
  }

  lemma DoomedNext(h: seq<Doc>, limit: nat, rest: seq<Doc>, cursor: int, q: Progress)
    requires 0 < limit < |rest| && Behind(h, rest, cursor) && !Ends(rest, limit) && !Ends(h, limit)
    requires q.more && q.cursor == rest[limit - 1].createdAt
    ensures Doomed(h, limit, q)
  {
    PassUnfolds(rest, limit);
    NextBehind(h, rest, cursor, limit);
    assert Behind(h, if q.cursor == 0 then h else Beyond(rest, limit), q.cursor);
  }

  /** While nothing arrives, a loop that is sent back to the start is sent back for ever. */
  lemma {:induction false} SentBackForEver(c: seq<Doc>, arrivals: nat -> seq<Doc>, ids: seq<Str>, limit: nat, n: nat)
    requires limit > 0 && Saved(c, ids) && NoArrivals(arrivals) && !Ends(History(c, ids), limit)
    ensures Doomed(History(c, ids), limit, After(c, arrivals, ids, limit, n))
  {
    var h := History(c, ids);
    if n == 0 {
      assert Behind(h, h, 0);
    } else {
      SentBackForEver(c, arrivals, ids, limit, n - 1);
      var p := After(c, arrivals, ids, limit, n - 1);
      var rest: seq<Doc> :| Behind(h, rest, p.cursor) && !Ends(rest, limit);
      FullTurn(c, arrivals, ids, limit, n - 1, p.all, rest);
      DoomedNext(h, limit, rest, p.cursor, After(c, arrivals, ids, limit, n));
    }
  }

  /** On a store that nothing is added to, the loop ends iff no full page hands out cursor 0. */
  lemma LoopEndsIff(c: seq<Doc>, arrivals: nat -> seq<Doc>, ids: seq<Str>, limit: nat)
    requires limit > 0 && Saved(c, ids) && NoArrivals(arrivals)
    ensures (exists n: nat :: !After(c, arrivals, ids, limit, n).more) <==> Ends(History(c, ids), limit)
  {
    if Ends(History(c, ids), limit) {
      NoneArrive(c, ids, arrivals);
      EndingLoopReads(c, arrivals, ids, limit);
      assert !After(c, arrivals, ids, limit, Calls(History(c, ids), limit)).more;
    } else {
      forall n: nat ensures After(c, arrivals, ids, limit, n).more {
        SentBackForEver(c, arrivals, ids, limit, n);
      }
    }
  }

  lemma NoneArrive(c: seq<Doc>, ids: seq<Str>, arrivals: nat -> seq<Doc>)
    requires NoArrivals(arrivals)
    ensures Arrivals(c, ids, arrivals)
  {
  }

  /**
   Frames without a send time are stored at time 0, which is not Go's zero time: a room with more of them
   than fit on a page, and nothing older, is never read to its end.
   */
  lemma UnstampedNeverEnds(c: seq<Doc>, arrivals: nat -> seq<Doc>, ids: seq<Str>, limit: nat, n: nat)
    requires limit > 0 && Saved(c, ids) && NoArrivals(arrivals)
    requires |History(c, ids)| > limit && forall d :: d in c && InRoom(ids, d) ==> d.createdAt == 0
    ensures After(c, arrivals, ids, limit, n).more
  {
    HistoryMembers(c, ids);
    assert History(c, ids)[limit - 1] in History(c, ids);
    SentBackForEver(c, arrivals, ids, limit, n);
  }

  // ----------------------------------------------------------- when it reads the history

  /** The document before each page edge is strictly newer than the one after it. */
  predicate NoTieAtEdge(h: seq<Doc>, limit: nat)
    requires limit > 0
    decreases |h|
  {
    |h| <= limit || (h[limit - 1].createdAt != h[limit].createdAt && NoTieAtEdge(h[limit..], limit))
  }

  predicate Descending(h: seq<Doc>) {
    forall i, j :: 0 <= i < j < |h| ==> h[i].createdAt >= h[j].createdAt
  }

  /** In a descending history the older documents are a suffix. */
  lemma {:induction false} OlderSuffix(h: seq<Doc>, t: int, j: nat)
    requires Descending(h) && j <= |h|
    requires forall i :: 0 <= i < j ==> h[i].createdAt >= t
    requires forall i :: j <= i < |h| ==> h[i].createdAt < t
    ensures Older(h, t) == h[j..]
    decreases |h|
  {
    if h != [] {
      if j > 0 {
        OlderSuffix(h[1..], t, j - 1);
      } else {
        OlderSuffix(h[1..], t, 0);
        assert h[1..][0..] == h[1..];
      }
    }
  }

  lemma OlderAfterPage(h: seq<Doc>, limit: nat)
    requires Descending(h) && 0 < limit < |h|
    ensures var rest := Older(h, h[limit - 1].createdAt);
            if h[limit - 1].createdAt != h[limit].createdAt then rest == h[limit..] else |rest| < |h| - limit
  {
    var t := h[limit - 1].createdAt;
    if t != h[limit].createdAt {
      OlderSuffix(h, t, limit);
    } else {
      assert h == h[..limit] + h[limit..];
      FilterAppend(h[..limit], h[limit..], OlderThan(t));
      FilterNone(h[..limit], OlderThan(t));
      FilterShorter(h[limit..], OlderThan(t), 0);
    }
  }

  lemma {:induction false} FilterDescending(h: seq<Doc>, p: Doc -> bool)
    requires Descending(h)
    ensures Descending(Filter(h, p))
  {
    if h != [] {
      FilterDescending(h[1..], p);
      FilterMembers(h[1..], p);
      assert forall d :: d in h[1..] ==> d.createdAt <= h[0].createdAt;
    }
  }

  lemma {:induction false} ReadBackLength(h: seq<Doc>, limit: nat)
    requires limit > 0 && Descending(h)
    ensures |ReadBack(h, limit)| <= |h|
    decreases |h|
  {
    if |h| > limit {
      var rest := Older(h, h[limit - 1].createdAt);
      OlderAfterPage(h, limit);
      FilterDescending(h, OlderThan(h[limit - 1].createdAt));
      ReadBackLength(rest, limit);
    }
  }

  /** Where a pass gets to its last page, what it read is the history iff no tie straddles a page edge. */
  lemma {:induction false} ReadBackWholeIff(h: seq<Doc>, limit: nat)
    requires limit > 0 && Descending(h)
    ensures ReadBack(h, limit) == h <==> NoTieAtEdge(h, limit)
    decreases |h|
  {
    if |h| > limit {
      var rest := Older(h, h[limit - 1].createdAt);
      OlderAfterPage(h, limit);
      FilterDescending(h, OlderThan(h[limit - 1].createdAt));
      assert h == h[..limit] + h[limit..];
      if h[limit - 1].createdAt != h[limit].createdAt {
        ReadBackWholeIff(rest, limit);
        assert ReadBack(h, limit)[limit..] == ReadBack(rest, limit);
      } else {
        ReadBackLength(rest, limit);
      }
    }
  }

  /** No two equal times on either side of a page edge, and no page but the last ends at time 0. */
  predicate CleanEdges(h: seq<Doc>, limit: nat)
    requires limit > 0
    decreases |h|
  {
    |h| <= limit || (h[limit - 1].createdAt != h[limit].createdAt && h[limit - 1].createdAt != 0 && CleanEdges(h[limit..], limit))
  }

  lemma {:induction false} CleanEdgesIff(h: seq<Doc>, limit: nat)
    requires limit > 0 && Descending(h)
    ensures CleanEdges(h, limit) <==> NoTieAtEdge(h, limit) && Ends(h, limit)
    decreases |h|
  {
    if |h| > limit && h[limit - 1].createdAt != h[limit].createdAt {
      OlderAfterPage(h, limit);
      CleanEdgesIff(h[limit..], limit);
    }
  }

  /**
   The loop finishes having read exactly the history, each message once and newest first, iff the edges
   are clean: on any store that nothing is added to.
   */
  lemma ReadsWholeIff(c: seq<Doc>, arrivals: nat -> seq<Doc>, ids: seq<Str>, limit: nat)
    requires limit > 0 && Saved(c, ids) && NoArrivals(arrivals)
    ensures Finished(c, arrivals, ids, limit, History(c, ids)) <==> CleanEdges(History(c, ids), limit)
  {
    var h := History(c, ids);
    HistoryDescending(c, ids);
    CleanEdgesIff(h, limit);
    NoneArrive(c, ids, arrivals);
    if Ends(h, limit) {
      EndingLoopWholeIff(c, arrivals, ids, limit);
    } else {
      forall n: nat ensures !Read(c, arrivals, ids, limit, n, h) {
        SentBackForEver(c, arrivals, ids, limit, n);
      }
    }
  }

  lemma EndingLoopWholeIff(c: seq<Doc>, arrivals: nat -> seq<Doc>, ids: seq<Str>, limit: nat)
    requires limit > 0 && Saved(c, ids) && Arrivals(c, ids, arrivals) && Ends(History(c, ids), limit)
    ensures Finished(c, arrivals, ids, limit, History(c, ids)) <==> NoTieAtEdge(History(c, ids), limit)
  {
    var h := History(c, ids);
    HistoryDescending(c, ids);
    ReadBackWholeIff(h, limit);
    EndingLoopReads(c, arrivals, ids, limit);
    if n: nat :| Read(c, arrivals, ids, limit, n, h) {
      EndIsUnique(c, arrivals, ids, limit, n, Calls(h, limit));
    }
  }

  // ---- and while newer messages keep arriving

  predicate Distinct(h: seq<Doc>) {
    forall i, j :: 0 <= i < j < |h| ==> h[i] != h[j]
  }

  lemma {:induction false} ReadGrows(c: seq<Doc>, arrivals: nat -> seq<Doc>, ids: seq<Str>, limit: nat, n: nat, m: nat)
    requires limit > 0 && n <= m
    ensures After(c, arrivals, ids, limit, n).all <= After(c, arrivals, ids, limit, m).all
  {
    if n < m {
      ReadGrows(c, arrivals, ids, limit, n, m - 1);
    }
  }

  /** The client has read something and asks for the first page again. */
  predicate SentBack(p: Progress) {
    p.more && p.cursor == 0 && p.all != []
  }

  lemma {:induction false} PassSentBack(c: seq<Doc>, arrivals: nat -> seq<Doc>, ids: seq<Str>, limit: nat, n: nat, all: seq<Doc>, rest: seq<Doc>)
    requires limit > 0 && Saved(c, ids) && Arrivals(c, ids, arrivals)
    requires Standing(c, arrivals, ids, limit, n, all, rest) && !Ends(rest, limit)
    ensures exists k: nat :: SentBack(After(c, arrivals, ids, limit, k))
    decreases |rest|
  {
    PassUnfolds(rest, limit);
    if rest[limit - 1].createdAt == 0 {
      FullTurn(c, arrivals, ids, limit, n, all, rest);
      assert SentBack(After(c, arrivals, ids, limit, n + 1));
    } else {
      MovedOn(c, arrivals, ids, limit, n, all, rest);
      PassSentBack(c, arrivals, ids, limit, n + 1, all + rest[..limit], Beyond(rest, limit));
    }
  }

  /** The first page of a store that has grown begins with an arrival, or it is that of the history. */
  lemma FirstFound(c: seq<Doc>, extra: seq<Doc>, ids: seq<Str>)
    requires ArrivedAfter(c, ids, extra) && History(c, ids) != []
    ensures var found := Found(c + extra, ids, 0);
            var h := History(c, ids);
            found != [] && (found[0] == h[0] || forall d :: d in h ==> found[0].createdAt > d.createdAt)
  {
    var h, found := History(c, ids), Found(c + extra, ids, 0);
    HistoryMembers(c, ids);
    FilterAppend(c, extra, Matching(ids, 0));
    var late := Filter(extra, Matching(ids, 0));
    FilterMembers(extra, Matching(ids, 0));
    if late == [] {
      assert Filter(c, Matching(ids, 0)) + [] == Filter(c, Matching(ids, 0));
    } else {
      HistoryMembers(c + extra, ids);
      assert found == History(c + extra, ids);
      assert late[0] in late && late[0] in c + extra;
      assert late[0] in found;
      assert h[0] in h;
      FoundFirstIsLate(c, extra, ids, late[0]);
    }
  }

  lemma FoundFirstIsLate(c: seq<Doc>, extra: seq<Doc>, ids: seq<Str>, x: Doc)
    requires ArrivedAfter(c, ids, extra) && x in extra && InRoom(ids, x)
    ensures var found := History(c + extra, ids);
            found != [] && forall d :: d in History(c, ids) ==> found[0].createdAt > d.createdAt
  {
    var found := History(c + extra, ids);
    HistoryMembers(c + extra, ids);
    HistoryMembers(c, ids);
    assert x in c + extra;
    assert x in found;
    var k :| 0 <= k < |found| && found[k] == x;
    assert k > 0 ==> !Newer(found[k], found[0]);
    assert found[0].createdAt >= x.createdAt;
  }

  /** What a client that was sent back reads next is not how the history goes on. */
  lemma SentBackStrays(c: seq<Doc>, arrivals: nat -> seq<Doc>, ids: seq<Str>, limit: nat, k: nat)
    requires limit > 0 && Arrivals(c, ids, arrivals) && Distinct(History(c, ids)) && History(c, ids) != []
    requires SentBack(After(c, arrivals, ids, limit, k))
    ensures !(After(c, arrivals, ids, limit, k + 1).all <= History(c, ids))
  {
    var h, p := History(c, ids), After(c, arrivals, ids, limit, k);
    FirstFound(c, arrivals(k), ids);
    var i := |p.all|;
    assert After(c, arrivals, ids, limit, k + 1).all[i] == Found(c + arrivals(k), ids, 0)[0];
    if i < |h| {
      assert h[i] in h && h[i] != h[0];
    }
  }

  /** Once sent back, the loop never ends up with the history. */
  lemma SentBackSpoils(c: seq<Doc>, arrivals: nat -> seq<Doc>, ids: seq<Str>, limit: nat, k: nat, n: nat)
    requires limit > 0 && Arrivals(c, ids, arrivals) && Distinct(History(c, ids)) && History(c, ids) != []
    requires SentBack(After(c, arrivals, ids, limit, k))
    ensures !Read(c, arrivals, ids, limit, n, History(c, ids))
  {
    if n <= k {
      if !After(c, arrivals, ids, limit, n).more {
        StaysEnded(c, arrivals, ids, limit, n, k);
      }
    } else {
      SentBackStrays(c, arrivals, ids, limit, k);
      ReadGrows(c, arrivals, ids, limit, k + 1, n);
    }
  }

  /** The same with newer messages arriving between any two calls; no document is in the history twice. */
  lemma ReadsWholeWhileGrowingIff(c: seq<Doc>, arrivals: nat -> seq<Doc>, ids: seq<Str>, limit: nat)
    requires limit > 0 && Saved(c, ids) && Arrivals(c, ids, arrivals) && Distinct(History(c, ids))
    ensures Finished(c, arrivals, ids, limit, History(c, ids)) <==> CleanEdges(History(c, ids), limit)
  {
    var h := History(c, ids);
    HistoryDescending(c, ids);
    CleanEdgesIff(h, limit);
    if Ends(h, limit) {
      EndingLoopWholeIff(c, arrivals, ids, limit);
    } else {
      PassSentBack(c, arrivals, ids, limit, 0, [], h);
      var k: nat :| SentBack(After(c, arrivals, ids, limit, k));
      forall n: nat ensures !Read(c, arrivals, ids, limit, n, h) {
        SentBackSpoils(c, arrivals, ids, limit, k, n);
      }
    }
  }

  // ----------------------------------------------------------- how many calls

  /** calls is max(1, ceil(n / limit)). */
  predicate Ceiling(calls: nat, n: nat, limit: nat) {
    if n == 0 then calls == 1 else calls > 0 && (calls - 1) * limit < n <= calls * limit
  }

  lemma CeilingStep(calls: nat, n: nat, limit: nat)
    requires 0 < limit < n && Ceiling(calls, n - limit, limit)
    ensures Ceiling(calls + 1, n, limit)
  {
    assert (calls - 1) * limit + limit == calls * limit;
    assert calls * limit + limit == (calls + 1) * limit;
  }

  /** And then that is the number of calls it takes. */
  lemma {:induction false} CallsCount(h: seq<Doc>, limit: nat)
    requires limit > 0 && Descending(h) && NoTieAtEdge(h, limit)
    ensures Ceiling(Calls(h, limit), |h|, limit)
    decreases |h|
  {
    if |h| > limit {
      OlderAfterPage(h, limit);
      CallsCount(h[limit..], limit);
      CeilingStep(Calls(h[limit..], limit), |h|, limit);
    }
  }

  lemma {:induction false} DistinctClean(h: seq<Doc>, limit: nat)
    requires limit > 0 && (forall i, j :: 0 <= i < j < |h| ==> h[i].createdAt != h[j].createdAt)
    requires forall i :: 0 <= i < |h| ==> h[i].createdAt != 0
    ensures CleanEdges(h, limit)
    decreases |h|
  {
    if |h| > limit {
      DistinctClean(h[limit..], limit);
    }
  }

  lemma HistoryDescending(c: seq<Doc>, ids: seq<Str>)
    ensures Descending(History(c, ids))
  {
    HistoryMembers(c, ids);
    var h := History(c, ids);
    forall i, j | 0 <= i < j < |h| ensures h[i].createdAt >= h[j].createdAt {
      assert !Newer(h[j], h[i]);
    }
  }

  /** Distinct times other than 0: every history is read whole, in max(1, ceil(n / limit)) calls, while it grows. */
  lemma DistinctTimesReadWhole(c: seq<Doc>, arrivals: nat -> seq<Doc>, ids: seq<Str>, limit: nat)
    requires limit > 0 && Saved(c, ids) && Arrivals(c, ids, arrivals)
    requires var h := History(c, ids);
             && (forall i, j :: 0 <= i < j < |h| ==> h[i].createdAt != h[j].createdAt)
             && (forall i :: 0 <= i < |h| ==> h[i].createdAt != 0)
    ensures var h := History(c, ids);
            exists calls: nat :: Ceiling(calls, |h|, limit) && Read(c, arrivals, ids, limit, calls, h)
  {
    var h := History(c, ids);
    HistoryDescending(c, ids);
    DistinctClean(h, limit);
    CleanEdgesIff(h, limit);
    ReadBackWholeIff(h, limit);
    CallsCount(h, limit);
    EndingLoopReads(c, arrivals, ids, limit);
  }
}
