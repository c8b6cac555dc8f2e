/**
 The inbox of GetUserRooms: rows of two sources merged by canonical room id, in one pass, through a
 map and a list of ids in first-appearance order. It is proved to be the group-by it stands for.
 */
module Inbox {
  import opened Bytes
  import opened RoomIdentity

  datatype Kind = DM | Group

  datatype UserRoom = UserRoom(roomID: Str, kind: Kind, name: Str, lastMessage: Str, lastMessageAt: int,
                               hasUnread: bool, members: seq<Str>)

  /** A Mongo conversation summary. */
  datatype Summary = Summary(roomID: Str, lastMessage: Str, lastMessageAt: int, members: seq<Str>)

  /** "group:" */
  const GROUP_PREFIX: Str := [0x67, 0x72, 0x6F, 0x75, 0x70, COLON]

  /** The row made of a Mongo summary: its id is normalised here, and again when it is added. */
  function FromSummary(key: Str -> Str, m: Summary): UserRoom {
    var id := key(m.roomID);
    var kind := if GROUP_PREFIX <= id || (|m.roomID| > 6 && m.roomID[..6] == GROUP_PREFIX) then Group else DM;
    UserRoom(id, kind, [], m.lastMessage, m.lastMessageAt, false, m.members)
  }

  // ------------------------------------------------------------------ the group-by

  // The merge is proved for any function from raw ids to keys; the server's is Normalize.

  /** Rows in the order they are added, under their canonical ids; a row without an id is skipped. */
  function Keyed(key: Str -> Str, rows: seq<UserRoom>): seq<UserRoom> {
    if rows == [] then []
    else Keyed(key, rows[..|rows| - 1]) + KeyedRow(key, rows[|rows| - 1])
  }

  function KeyedRow(key: Str -> Str, r: UserRoom): seq<UserRoom> {
    if r.roomID == [] then [] else [r.(roomID := key(r.roomID))]
  }

  function GroupOf(rows: seq<UserRoom>, id: Str): seq<UserRoom> {
    if rows == [] then []
    else GroupOf(rows[..|rows| - 1], id) + if rows[|rows| - 1].roomID == id then [rows[|rows| - 1]] else []
  }

  /** The ids of rows, each where it first appears. */
  function FirstSeen(rows: seq<UserRoom>): seq<Str> {
    if rows == [] then []
    else
      var before, id := FirstSeen(rows[..|rows| - 1]), rows[|rows| - 1].roomID;
      if id in before then before else before + [id]
  }

  /** The first non-empty value of a field. */
  predicate FirstNonEmpty<T(==)>(v: seq<T>, values: seq<seq<T>>) {
    if v == [] then forall i :: 0 <= i < |values| ==> values[i] == []
    else exists i :: 0 <= i < |values| && values[i] == v && forall j :: 0 <= j < i ==> values[j] == []
  }

  /** The latest time, and the preview of the first row attaining it. */
  predicate LatestAt(r: UserRoom, g: seq<UserRoom>, i: nat) {
    && i < |g| && g[i].lastMessageAt == r.lastMessageAt && g[i].lastMessage == r.lastMessage
    && (forall j :: 0 <= j < i ==> g[j].lastMessageAt < r.lastMessageAt)
    && (forall j :: 0 <= j < |g| ==> g[j].lastMessageAt <= r.lastMessageAt)
  }

  function Names(g: seq<UserRoom>): seq<Str> {
    seq(|g|, i requires 0 <= i < |g| => g[i].name)
  }

  function MemberLists(g: seq<UserRoom>): seq<seq<Str>> {
    seq(|g|, i requires 0 <= i < |g| => g[i].members)
  }

  ghost predicate Summarises(r: UserRoom, g: seq<UserRoom>) {
    && g != [] && r.roomID == g[0].roomID && r.kind == g[0].kind
    && (exists i :: LatestAt(r, g, i))
    && (r.hasUnread <==> exists i :: 0 <= i < |g| && g[i].hasUnread)
    && FirstNonEmpty(r.name, Names(g))
    && FirstNonEmpty(r.members, MemberLists(g))
  }

  /** The map and order list hold one summary per id seen. */
  ghost predicate Merged(byID: map<Str, UserRoom>, order: seq<Str>, rows: seq<UserRoom>) {
    && order == FirstSeen(rows)
    && (forall id :: id in byID <==> id in order)
    && (forall id :: id in byID ==> Summarises(byID[id], GroupOf(rows, id)))
  }

  // ------------------------------------------------------------------ adding one row

  function Combine(existing: UserRoom, r: UserRoom): UserRoom {
    var a := if r.lastMessageAt > existing.lastMessageAt
             then existing.(lastMessage := r.lastMessage, lastMessageAt := r.lastMessageAt) else existing;
    var b := if a.name == [] && r.name != [] then a.(name := r.name) else a;
    var c := if |b.members| == 0 && |r.members| > 0 then b.(members := r.members) else b;
    if r.hasUnread then c.(hasUnread := true) else c
  }

  lemma FirstNonEmptySnoc<T>(v: seq<T>, values: seq<seq<T>>, w: seq<T>)
    requires FirstNonEmpty(v, values)
    ensures FirstNonEmpty(if v == [] then w else v, values + [w])
  {
    var all := values + [w];
    if v != [] {
      var i :| 0 <= i < |values| && values[i] == v && forall j :: 0 <= j < i ==> values[j] == [];
      assert all[i] == v && forall j :: 0 <= j < i ==> all[j] == [];
    } else if w != [] {
      assert all[|values|] == w;
    }
  }

  lemma CombineSummarises(x: UserRoom, g: seq<UserRoom>, r: UserRoom)
    requires Summarises(x, g)
    ensures Summarises(Combine(x, r), g + [r])
  {
    var all, y := g + [r], Combine(x, r);
    var i: nat :| LatestAt(x, g, i);
    assert LatestAt(y, all, if r.lastMessageAt > x.lastMessageAt then |g| else i);
    assert Names(all) == Names(g) + [r.name];
    FirstNonEmptySnoc(x.name, Names(g), r.name);
    assert MemberLists(all) == MemberLists(g) + [r.members];
    FirstNonEmptySnoc(x.members, MemberLists(g), r.members);
    if x.hasUnread {
      var k :| 0 <= k < |g| && g[k].hasUnread;
      assert all[k].hasUnread;
    }
    assert all[|g|] == r;
  }

  lemma AloneSummarises(r: UserRoom)
    ensures Summarises(r, [r])
  {
    assert LatestAt(r, [r], 0);
    assert [r][0].hasUnread == r.hasUnread;
    assert Names([r])[0] == r.name && MemberLists([r])[0] == r.members;
  }

  /** What the map holds after rows are added one by one. */
  function ByID(rows: seq<UserRoom>): map<Str, UserRoom> {
    if rows == [] then map[]
    else
      var before, r := ByID(rows[..|rows| - 1]), rows[|rows| - 1];
      before[r.roomID := if r.roomID in before then Combine(before[r.roomID], r) else r]
  }

  lemma ByIDSnoc(rows: seq<UserRoom>, r: UserRoom)
    ensures ByID(rows + [r]) == ByID(rows)[r.roomID := if r.roomID in ByID(rows) then Combine(ByID(rows)[r.roomID], r) else r]
  {
    assert (rows + [r])[..|rows|] == rows;
  }

  /** The pass computes the group-by. */
  lemma {:induction false} PassMerges(rows: seq<UserRoom>)
    ensures Merged(ByID(rows), FirstSeen(rows), rows)
  {
    if rows != [] {
      var front, r := rows[..|rows| - 1], rows[|rows| - 1];
      PassMerges(front);
      assert front + [r] == rows;
      AddMerged(ByID(front), FirstSeen(front), front, r);
    }
  }

  lemma GroupSnoc(rows: seq<UserRoom>, r: UserRoom, id: Str)
    ensures GroupOf(rows + [r], id) == GroupOf(rows, id) + if r.roomID == id then [r] else []
    ensures FirstSeen(rows + [r]) == FirstSeen(rows) + if r.roomID in FirstSeen(rows) then [] else [r.roomID]
  {
    assert (rows + [r])[..|rows|] == rows;
  }

  lemma {:induction false} GroupUnseen(rows: seq<UserRoom>, id: Str)
    requires id !in FirstSeen(rows)
    ensures GroupOf(rows, id) == []
  {
    if rows != [] {
      GroupUnseen(rows[..|rows| - 1], id);
    }
  }

  /** The closure addRoom, over the accumulators it captures. */
  class Accumulator {
    const key: Str -> Str
    var byID: map<Str, UserRoom>
    var order: seq<Str>
    ghost var rows: seq<UserRoom>

    ghost predicate Valid()
      reads this
    {
      byID == ByID(rows) && order == FirstSeen(rows)
    }

    constructor (key: Str -> Str)
      ensures this.key == key
      ensures rows == [] && Valid()
    {
      this.key := key;
      byID, order, rows := map[], [], [];
    }

    method AddRoom(row: UserRoom)
      requires Valid()
      modifies this
      ensures Valid()
      ensures rows == old(rows) + KeyedRow(key, row)
    {
      if row.roomID == [] {
        return;
      }
      var r := row.(roomID := key(row.roomID));
      PassMerges(rows);
      ByIDSnoc(rows, r);
      GroupSnoc(rows, r, r.roomID);
      if r.roomID in byID {
        var existing := byID[r.roomID];
        if r.lastMessageAt > existing.lastMessageAt {
          existing := existing.(lastMessage := r.lastMessage, lastMessageAt := r.lastMessageAt);
        }
        if existing.name == [] && r.name != [] {
          existing := existing.(name := r.name);
        }
        if |existing.members| == 0 && |r.members| > 0 {
          existing := existing.(members := r.members);
        }
        if r.hasUnread {
          existing := existing.(hasUnread := true);
        }
        byID := byID[r.roomID := existing];
      } else {
        byID := byID[r.roomID := r];
        order := order + [r.roomID];
      }
      rows := rows + [r];
    }

    method Rooms() returns (out: seq<UserRoom>)
      requires Valid()
      ensures Lists(out, ByID(rows), FirstSeen(rows))
    {
      PassMerges(rows);
      out := [];
      for k := 0 to |order|
        invariant |out| == k
        invariant forall j :: 0 <= j < k ==> order[j] in byID && out[j] == byID[order[j]]
      {
        assert order[k] in byID;
        out := out + [byID[order[k]]];
      }
    }
  }

  lemma AddMerged(byID: map<Str, UserRoom>, order: seq<Str>, rows: seq<UserRoom>, r: UserRoom)
    requires Merged(byID, order, rows)
    ensures if r.roomID in byID
            then Merged(byID[r.roomID := Combine(byID[r.roomID], r)], order, rows + [r])
            else Merged(byID[r.roomID := r], order + [r.roomID], rows + [r])
  {
    var value := if r.roomID in byID then Combine(byID[r.roomID], r) else r;
    var after := byID[r.roomID := value];
    GroupSnoc(rows, r, r.roomID);
    forall id | id in after ensures Summarises(after[id], GroupOf(rows + [r], id)) {
      GroupSnoc(rows, r, id);
      if id != r.roomID {
        assert GroupOf(rows, id) + [] == GroupOf(rows, id);
      } else if id in byID {
        CombineSummarises(byID[id], GroupOf(rows, id), r);
      } else {
        GroupUnseen(rows, id);
        AloneSummarises(r);
        assert [] + [r] == [r];
      }
    }
    assert FirstSeen(rows) + [] == FirstSeen(rows);
  }

  /** One room per id, in order, each the summary of the rows that carry its id. */
  ghost predicate IsInbox(out: seq<UserRoom>, rows: seq<UserRoom>) {
    && |out| == |FirstSeen(rows)|
    && forall k :: 0 <= k < |out| ==> out[k].roomID == FirstSeen(rows)[k] && Summarises(out[k], GroupOf(rows, out[k].roomID))
  }

  /** The rows of both sources in the order they are added. */
  function AllRows(key: Str -> Str, pg: seq<UserRoom>, mongo: seq<Summary>): seq<UserRoom> {
    pg + FromSummaries(key, mongo)
  }

  ghost predicate Lists(out: seq<UserRoom>, byID: map<Str, UserRoom>, order: seq<Str>) {
    |out| == |order| && forall j :: 0 <= j < |out| ==> order[j] in byID && out[j] == byID[order[j]]
  }

  lemma KeyedSnoc(key: Str -> Str, rows: seq<UserRoom>, r: UserRoom)
    ensures Keyed(key, rows + [r]) == Keyed(key, rows) + KeyedRow(key, r)
  {
    assert (rows + [r])[..|rows|] == rows;
  }

  lemma Reassociate<T>(x: seq<T>, y: seq<T>, z: seq<T>)
    ensures x + (y + z) == x + y + z
  {
  }

  lemma {:induction false} KeyedAllRows(key: Str -> Str, pg: seq<UserRoom>, mongo: seq<Summary>)
    ensures Keyed(key, AllRows(key, pg, mongo)) == Keyed(key, pg) + Keyed(key, FromSummaries(key, mongo))
  {
    if mongo != [] {
      var n := |mongo| - 1;
      KeyedAllRows(key, pg, mongo[..n]);
      var row := FromSummary(key, mongo[n]);
      KeyedSnoc(key, pg + FromSummaries(key, mongo[..n]), row);
      KeyedSnoc(key, FromSummaries(key, mongo[..n]), row);
      Reassociate(pg, FromSummaries(key, mongo[..n]), [row]);
      Reassociate(Keyed(key, pg), Keyed(key, FromSummaries(key, mongo[..n])), KeyedRow(key, row));
    } else {
      assert pg + [] == pg && Keyed(key, pg) + [] == Keyed(key, pg);
    }
  }

  /** A listing of the summaries in order is the inbox. */
  lemma MergedIsInbox(rows: seq<UserRoom>, out: seq<UserRoom>)
    requires Lists(out, ByID(rows), FirstSeen(rows))
    ensures IsInbox(out, rows)
  {
    var byID, order := ByID(rows), FirstSeen(rows);
    PassMerges(rows);
    forall k | 0 <= k < |out| ensures out[k].roomID == order[k] {
      var g := GroupOf(rows, order[k]);
      assert Summarises(out[k], g);
      GroupIds(rows, order[k]);
      assert g[0] in g;
    }
  }

  // ------------------------------------------------------------------ the listing, in the sources' own fields

  /** A row of either source is listed under the id: a Postgres id is keyed once, a Mongo id twice. */
  predicate FromPg(key: Str -> Str, r: UserRoom, id: Str) {
    r.roomID != [] && key(r.roomID) == id
  }

  predicate FromMongo(key: Str -> Str, m: Summary, id: Str) {
    key(m.roomID) != [] && key(key(m.roomID)) == id
  }

  /** "group:" starts the raw id or the normalised one. */
  predicate NamesGroup(key: Str -> Str, m: Summary) {
    GROUP_PREFIX <= m.roomID || GROUP_PREFIX <= key(m.roomID)
  }

  /** The time is the latest of all rows under the id, and the preview is that of a row attaining it. */
  ghost predicate ShowsLatest(key: Str -> Str, pg: seq<UserRoom>, mongo: seq<Summary>, x: UserRoom) {
    && (forall r :: r in pg && FromPg(key, r, x.roomID) ==> r.lastMessageAt <= x.lastMessageAt)
    && (forall m :: m in mongo && FromMongo(key, m, x.roomID) ==> m.lastMessageAt <= x.lastMessageAt)
    && (|| (exists r :: r in pg && FromPg(key, r, x.roomID) && r.lastMessageAt == x.lastMessageAt && r.lastMessage == x.lastMessage)
        || (exists m :: m in mongo && FromMongo(key, m, x.roomID) && m.lastMessageAt == x.lastMessageAt && m.lastMessage == x.lastMessage))
  }

  /** Only Postgres knows what is unread and what rooms are called; both know members. */
  ghost predicate ShowsRest(key: Str -> Str, pg: seq<UserRoom>, mongo: seq<Summary>, x: UserRoom) {
    && (x.hasUnread <==> exists r :: r in pg && FromPg(key, r, x.roomID) && r.hasUnread)
    && (x.name != [] ==> exists r :: r in pg && FromPg(key, r, x.roomID) && r.name == x.name)
    && (x.name == [] ==> forall r :: r in pg && FromPg(key, r, x.roomID) ==> r.name == [])
    && (x.members != [] ==>
          || (exists r :: r in pg && FromPg(key, r, x.roomID) && r.members == x.members)
          || (exists m :: m in mongo && FromMongo(key, m, x.roomID) && m.members == x.members))
    && (x.members == [] ==>
          && (forall r :: r in pg && FromPg(key, r, x.roomID) ==> r.members == [])
          && (forall m :: m in mongo && FromMongo(key, m, x.roomID) ==> m.members == []))
  }

  ghost predicate ListedUnder(out: seq<UserRoom>, id: Str, x: UserRoom) {
    x in out && x.roomID == id
  }

  /** A summary is in the listing, and as it is where no other row carries its id. */
  ghost predicate SummaryListed(key: Str -> Str, pg: seq<UserRoom>, mongo: seq<Summary>, out: seq<UserRoom>, m: Summary) {
    var id := key(key(m.roomID));
    key(m.roomID) != [] ==>
      exists x :: ListedUnder(out, id, x) && x.lastMessageAt >= m.lastMessageAt &&
        ((forall r :: r in pg ==> !FromPg(key, r, id)) && (forall n :: n in mongo && FromMongo(key, n, id) ==> n == m) ==>
           x == UserRoom(id, if NamesGroup(key, m) then Group else DM, [], m.lastMessage, m.lastMessageAt, false, m.members))
  }

  ghost predicate RowListed(key: Str -> Str, pg: seq<UserRoom>, mongo: seq<Summary>, out: seq<UserRoom>, r: UserRoom) {
    var id := key(r.roomID);
    r.roomID != [] ==>
      exists x :: ListedUnder(out, id, x) && x.lastMessageAt >= r.lastMessageAt && (r.hasUnread ==> x.hasUnread) &&
        ((forall q :: q in pg && FromPg(key, q, id) ==> q == r) && (forall n :: n in mongo ==> !FromMongo(key, n, id)) ==>
           x == r.(roomID := id))
  }

  ghost predicate PgMember(key: Str -> Str, pg: seq<UserRoom>, id: Str, y: UserRoom) {
    exists r :: r in pg && FromPg(key, r, id) && y == r.(roomID := id)
  }

  /** What a summary is as a row. */
  function SummaryRow(key: Str -> Str, m: Summary, id: Str): UserRoom {
    UserRoom(id, if NamesGroup(key, m) then Group else DM, [], m.lastMessage, m.lastMessageAt, false, m.members)
  }

  ghost predicate MongoMember(key: Str -> Str, mongo: seq<Summary>, id: Str, y: UserRoom) {
    exists m :: m in mongo && FromMongo(key, m, id) && y == SummaryRow(key, m, id)
  }

  lemma SummaryIsRow(key: Str -> Str, m: Summary, id: Str)
    requires key(GROUP_PREFIX) == GROUP_PREFIX
    ensures FromSummary(key, m).(roomID := id) == SummaryRow(key, m, id)
    ensures FromSummary(key, m).roomID == key(m.roomID)
  {
    if GROUP_PREFIX <= m.roomID && |m.roomID| == 6 {
      assert m.roomID == GROUP_PREFIX;
    }
    assert |m.roomID| > 6 ==> (m.roomID[..6] == GROUP_PREFIX <==> GROUP_PREFIX <= m.roomID);
  }

  lemma {:induction false} SummariesAre(key: Str -> Str, mongo: seq<Summary>)
    ensures forall y :: y in FromSummaries(key, mongo) <==> exists m :: m in mongo && y == FromSummary(key, m)
  {
    if mongo != [] {
      var n := |mongo| - 1;
      SummariesAre(key, mongo[..n]);
      assert mongo == mongo[..n] + [mongo[n]];
    }
  }

  /** The rows under an id, told by source. */
  lemma GroupMembers(key: Str -> Str, pg: seq<UserRoom>, mongo: seq<Summary>, id: Str, y: UserRoom)
    requires key(GROUP_PREFIX) == GROUP_PREFIX
    ensures y in GroupOf(Keyed(key, AllRows(key, pg, mongo)), id) <==> PgMember(key, pg, id, y) || MongoMember(key, mongo, id, y)
  {
    var rows := AllRows(key, pg, mongo);
    GroupIds(Keyed(key, rows), id);
    KeyedMembers(key, rows);
    SummariesAre(key, mongo);
    if y in Keyed(key, rows) && y.roomID == id {
      var r :| r in rows && r.roomID != [] && y == r.(roomID := key(r.roomID));
      if r !in pg {
        var m :| m in mongo && r == FromSummary(key, m);
        SummaryIsRow(key, m, id);
      }
    }
    if PgMember(key, pg, id, y) {
      var r :| r in pg && FromPg(key, r, id) && y == r.(roomID := id);
      assert r in rows;
    }
    if MongoMember(key, mongo, id, y) {
      var m :| m in mongo && FromMongo(key, m, id) && y == SummaryRow(key, m, id);
      SummaryIsRow(key, m, id);
      assert FromSummary(key, m) in rows;
    }
  }

  /** The rows under an id are those two kinds of rows. */
  ghost predicate Grouped(key: Str -> Str, pg: seq<UserRoom>, mongo: seq<Summary>, id: Str, g: seq<UserRoom>) {
    forall y :: y in g <==> PgMember(key, pg, id, y) || MongoMember(key, mongo, id, y)
  }

  lemma PgIn(key: Str -> Str, pg: seq<UserRoom>, mongo: seq<Summary>, id: Str, g: seq<UserRoom>, r: UserRoom)
    requires Grouped(key, pg, mongo, id, g) && r in pg && FromPg(key, r, id)
    ensures r.(roomID := id) in g
  {
    assert PgMember(key, pg, id, r.(roomID := id));
  }

  lemma MongoIn(key: Str -> Str, pg: seq<UserRoom>, mongo: seq<Summary>, id: Str, g: seq<UserRoom>, m: Summary)
    requires Grouped(key, pg, mongo, id, g) && m in mongo && FromMongo(key, m, id)
    ensures SummaryRow(key, m, id) in g
  {
    assert MongoMember(key, mongo, id, SummaryRow(key, m, id));
  }

  lemma LatestShown(key: Str -> Str, pg: seq<UserRoom>, mongo: seq<Summary>, x: UserRoom, g: seq<UserRoom>)
    requires Grouped(key, pg, mongo, x.roomID, g) && Summarises(x, g)
    ensures ShowsLatest(key, pg, mongo, x)
  {
    var i: nat :| LatestAt(x, g, i);
    forall r | r in pg && FromPg(key, r, x.roomID) ensures r.lastMessageAt <= x.lastMessageAt {
      PgIn(key, pg, mongo, x.roomID, g, r);
    }
    forall m | m in mongo && FromMongo(key, m, x.roomID) ensures m.lastMessageAt <= x.lastMessageAt {
      MongoIn(key, pg, mongo, x.roomID, g, m);
    }
    var y := g[i];
    assert y in g;
    if PgMember(key, pg, x.roomID, y) {
      var r :| r in pg && FromPg(key, r, x.roomID) && y == r.(roomID := x.roomID);
    } else {
      var m :| m in mongo && FromMongo(key, m, x.roomID) && y == SummaryRow(key, m, x.roomID);
    }
  }

  /** The first non-empty value of a field is that of some row, and there is none only if no row has one. */
  lemma FirstIsSome<T>(v: seq<T>, g: seq<UserRoom>, values: seq<seq<T>>)
    requires FirstNonEmpty(v, values) && |values| == |g|
    ensures if v == [] then forall k :: 0 <= k < |g| ==> values[k] == [] else exists k :: 0 <= k < |g| && values[k] == v
  {
  }

  lemma NamesShown(key: Str -> Str, pg: seq<UserRoom>, mongo: seq<Summary>, x: UserRoom, g: seq<UserRoom>)
    requires Grouped(key, pg, mongo, x.roomID, g) && Summarises(x, g)
    ensures x.name != [] ==> exists r :: r in pg && FromPg(key, r, x.roomID) && r.name == x.name
    ensures x.name == [] ==> forall r :: r in pg && FromPg(key, r, x.roomID) ==> r.name == []
  {
    FirstIsSome(x.name, g, Names(g));
    if x.name != [] {
      var k :| 0 <= k < |g| && Names(g)[k] == x.name;
      assert g[k] in g && g[k].name != [];
    } else {
      forall r | r in pg && FromPg(key, r, x.roomID) ensures r.name == [] {
        PgIn(key, pg, mongo, x.roomID, g, r);
        var k :| 0 <= k < |g| && g[k] == r.(roomID := x.roomID);
        assert Names(g)[k] == [];
      }
    }
  }

  lemma MembersShown(key: Str -> Str, pg: seq<UserRoom>, mongo: seq<Summary>, x: UserRoom, g: seq<UserRoom>)
    requires Grouped(key, pg, mongo, x.roomID, g) && Summarises(x, g)
    ensures x.members != [] ==>
              || (exists r :: r in pg && FromPg(key, r, x.roomID) && r.members == x.members)
              || (exists m :: m in mongo && FromMongo(key, m, x.roomID) && m.members == x.members)
    ensures x.members == [] ==> forall r :: r in pg && FromPg(key, r, x.roomID) ==> r.members == []
    ensures x.members == [] ==> forall m :: m in mongo && FromMongo(key, m, x.roomID) ==> m.members == []
  {
    FirstIsSome(x.members, g, MemberLists(g));
    if x.members != [] {
      var k :| 0 <= k < |g| && MemberLists(g)[k] == x.members;
      assert g[k] in g && g[k].members == x.members;
      if PgMember(key, pg, x.roomID, g[k]) {
        var r :| r in pg && FromPg(key, r, x.roomID) && g[k] == r.(roomID := x.roomID);
      } else {
        var m :| m in mongo && FromMongo(key, m, x.roomID) && g[k] == SummaryRow(key, m, x.roomID);
      }
    } else {
      forall r | r in pg && FromPg(key, r, x.roomID) ensures r.members == [] {
        PgIn(key, pg, mongo, x.roomID, g, r);
        var k :| 0 <= k < |g| && g[k] == r.(roomID := x.roomID);
        assert MemberLists(g)[k] == [];
      }
      forall m | m in mongo && FromMongo(key, m, x.roomID) ensures m.members == [] {
        MongoIn(key, pg, mongo, x.roomID, g, m);
        var k :| 0 <= k < |g| && g[k] == SummaryRow(key, m, x.roomID);
        assert MemberLists(g)[k] == [];
      }
    }
  }

  lemma UnreadShown(key: Str -> Str, pg: seq<UserRoom>, mongo: seq<Summary>, x: UserRoom, g: seq<UserRoom>)
    requires Grouped(key, pg, mongo, x.roomID, g) && Summarises(x, g)
    ensures x.hasUnread <==> exists r :: r in pg && FromPg(key, r, x.roomID) && r.hasUnread
  {
    if x.hasUnread {
      var k :| 0 <= k < |g| && g[k].hasUnread;
      assert g[k] in g;
    }
    if r :| r in pg && FromPg(key, r, x.roomID) && r.hasUnread {
      PgIn(key, pg, mongo, x.roomID, g, r);
      var k :| 0 <= k < |g| && g[k] == r.(roomID := x.roomID);
      assert g[k].hasUnread;
    }
  }

  /** A summary of rows that are all the same is that row. */
  lemma SameRows(x: UserRoom, g: seq<UserRoom>, y: UserRoom)
    requires Summarises(x, g) && forall z :: z in g ==> z == y
    ensures x == y
  {
    assert forall k :: 0 <= k < |g| ==> g[k] in g;
    assert forall k :: 0 <= k < |g| ==> Names(g)[k] == y.name && MemberLists(g)[k] == y.members;
    assert Names(g)[0] == y.name && MemberLists(g)[0] == y.members;
    assert g[0].hasUnread == y.hasUnread;
  }

  /** A listing that is an inbox has, for every id that occurs, the summary of its rows. */
  lemma ListedAt(out: seq<UserRoom>, rows: seq<UserRoom>, y: UserRoom)
    requires IsInbox(out, rows) && y in rows
    ensures exists x :: ListedUnder(out, y.roomID, x) && Summarises(x, GroupOf(rows, y.roomID))
  {
    FirstSeenSpec(rows);
    var i :| 0 <= i < |rows| && rows[i] == y;
    assert FirstRow(rows, y.roomID) <= i;
    var k :| 0 <= k < |FirstSeen(rows)| && FirstSeen(rows)[k] == y.roomID;
    assert out[k] in out;
  }

  /** All that the listing says of the sources' rows. */
  ghost predicate ShowsSources(key: Str -> Str, pg: seq<UserRoom>, mongo: seq<Summary>, out: seq<UserRoom>) {
    && (forall x :: x in out ==> ShowsLatest(key, pg, mongo, x) && ShowsRest(key, pg, mongo, x))
    && (forall m :: m in mongo ==> SummaryListed(key, pg, mongo, out, m))
    && (forall r :: r in pg ==> RowListed(key, pg, mongo, out, r))
    && (forall i, j :: 0 <= i < j < |out| ==> out[i].roomID != out[j].roomID)
  }

  lemma AllGrouped(key: Str -> Str, pg: seq<UserRoom>, mongo: seq<Summary>, id: Str)
    requires key(GROUP_PREFIX) == GROUP_PREFIX
    ensures Grouped(key, pg, mongo, id, GroupOf(Keyed(key, AllRows(key, pg, mongo)), id))
  {
    forall y ensures y in GroupOf(Keyed(key, AllRows(key, pg, mongo)), id) <==> PgMember(key, pg, id, y) || MongoMember(key, mongo, id, y) {
      GroupMembers(key, pg, mongo, id, y);
    }
  }

  /** Alone under its id, a summary is shown as it is. */
  lemma SummaryShown(key: Str -> Str, pg: seq<UserRoom>, mongo: seq<Summary>, m: Summary, x: UserRoom, g: seq<UserRoom>)
    requires Grouped(key, pg, mongo, x.roomID, g) && Summarises(x, g) && m in mongo && FromMongo(key, m, x.roomID)
    ensures x.lastMessageAt >= m.lastMessageAt
    ensures (forall r :: r in pg ==> !FromPg(key, r, x.roomID)) && (forall n :: n in mongo && FromMongo(key, n, x.roomID) ==> n == m)
            ==> x == SummaryRow(key, m, x.roomID)
  {
    LatestShown(key, pg, mongo, x, g);
    if (forall r :: r in pg ==> !FromPg(key, r, x.roomID)) && (forall n :: n in mongo && FromMongo(key, n, x.roomID) ==> n == m) {
      SameRows(x, g, SummaryRow(key, m, x.roomID));
    }
  }

  lemma PgRowShown(key: Str -> Str, pg: seq<UserRoom>, mongo: seq<Summary>, r: UserRoom, x: UserRoom, g: seq<UserRoom>)
    requires Grouped(key, pg, mongo, x.roomID, g) && Summarises(x, g) && r in pg && FromPg(key, r, x.roomID)
    ensures x.lastMessageAt >= r.lastMessageAt && (r.hasUnread ==> x.hasUnread)
    ensures (forall q :: q in pg && FromPg(key, q, x.roomID) ==> q == r) && (forall n :: n in mongo ==> !FromMongo(key, n, x.roomID))
            ==> x == r.(roomID := x.roomID)
  {
    LatestShown(key, pg, mongo, x, g);
    UnreadShown(key, pg, mongo, x, g);
    if (forall q :: q in pg && FromPg(key, q, x.roomID) ==> q == r) && (forall n :: n in mongo ==> !FromMongo(key, n, x.roomID)) {
      SameRows(x, g, r.(roomID := x.roomID));
    }
  }

  /** An id that occurs is listed, with the summary of its rows. */
  lemma IdListed(out: seq<UserRoom>, rows: seq<UserRoom>, y: UserRoom)
    requires IsInbox(out, rows) && y in GroupOf(rows, y.roomID)
    ensures exists x :: ListedUnder(out, y.roomID, x) && Summarises(x, GroupOf(rows, y.roomID))
  {
    GroupIds(rows, y.roomID);
    ListedAt(out, rows, y);
  }

  lemma SummaryIsListed(key: Str -> Str, pg: seq<UserRoom>, mongo: seq<Summary>, out: seq<UserRoom>, m: Summary)
    requires key(GROUP_PREFIX) == GROUP_PREFIX && IsInbox(out, Keyed(key, AllRows(key, pg, mongo))) && m in mongo
    ensures SummaryListed(key, pg, mongo, out, m)
  {
    var rows, id := Keyed(key, AllRows(key, pg, mongo)), key(key(m.roomID));
    if key(m.roomID) != [] {
      AllGrouped(key, pg, mongo, id);
      MongoIn(key, pg, mongo, id, GroupOf(rows, id), m);
      IdListed(out, rows, SummaryRow(key, m, id));
      var x :| ListedUnder(out, id, x) && Summarises(x, GroupOf(rows, id));
      SummaryShown(key, pg, mongo, m, x, GroupOf(rows, id));
    }
  }

  lemma RowIsShown(key: Str -> Str, pg: seq<UserRoom>, mongo: seq<Summary>, out: seq<UserRoom>, r: UserRoom)
    requires key(GROUP_PREFIX) == GROUP_PREFIX && IsInbox(out, Keyed(key, AllRows(key, pg, mongo))) && r in pg
    ensures RowListed(key, pg, mongo, out, r)
  {
    var rows, id := Keyed(key, AllRows(key, pg, mongo)), key(r.roomID);
    if r.roomID != [] {
      AllGrouped(key, pg, mongo, id);
      PgIn(key, pg, mongo, id, GroupOf(rows, id), r);
      IdListed(out, rows, r.(roomID := id));
      var x :| ListedUnder(out, id, x) && Summarises(x, GroupOf(rows, id));
      PgRowShown(key, pg, mongo, r, x, GroupOf(rows, id));
    }
  }

  lemma InboxRow(out: seq<UserRoom>, rows: seq<UserRoom>, x: UserRoom)
    requires IsInbox(out, rows) && x in out
    ensures Summarises(x, GroupOf(rows, x.roomID))
  {
  }

  lemma InboxDistinct(out: seq<UserRoom>, rows: seq<UserRoom>)
    requires IsInbox(out, rows)
    ensures forall i, j :: 0 <= i < j < |out| ==> out[i].roomID != out[j].roomID
  {
    FirstSeenSpec(rows);
    var ids := FirstSeen(rows);
    forall i, j | 0 <= i < j < |out| ensures out[i].roomID != out[j].roomID {
      assert out[i].roomID == ids[i] && out[j].roomID == ids[j];
      assert FirstRow(rows, ids[i]) < FirstRow(rows, ids[j]);
    }
  }

  lemma RowShows(key: Str -> Str, pg: seq<UserRoom>, mongo: seq<Summary>, x: UserRoom)
    requires key(GROUP_PREFIX) == GROUP_PREFIX
    requires Summarises(x, GroupOf(Keyed(key, AllRows(key, pg, mongo)), x.roomID))
    ensures ShowsLatest(key, pg, mongo, x) && ShowsRest(key, pg, mongo, x)
  {
    var g := GroupOf(Keyed(key, AllRows(key, pg, mongo)), x.roomID);
    AllGrouped(key, pg, mongo, x.roomID);
    LatestShown(key, pg, mongo, x, g);
    NamesShown(key, pg, mongo, x, g);
    MembersShown(key, pg, mongo, x, g);
    UnreadShown(key, pg, mongo, x, g);
  }

  lemma InboxShowsSources(key: Str -> Str, pg: seq<UserRoom>, mongo: seq<Summary>, out: seq<UserRoom>)
    requires key(GROUP_PREFIX) == GROUP_PREFIX && IsInbox(out, Keyed(key, AllRows(key, pg, mongo)))
    ensures ShowsSources(key, pg, mongo, out)
  {
    var rows := Keyed(key, AllRows(key, pg, mongo));
    forall x | x in out ensures ShowsLatest(key, pg, mongo, x) && ShowsRest(key, pg, mongo, x) {
      InboxRow(out, rows, x);
      RowShows(key, pg, mongo, x);
    }
    forall m | m in mongo ensures SummaryListed(key, pg, mongo, out, m) {
      SummaryIsListed(key, pg, mongo, out, m);
    }
    forall r | r in pg ensures RowListed(key, pg, mongo, out, r) {
      RowIsShown(key, pg, mongo, out, r);
    }
    InboxDistinct(out, rows);
  }

  /** An empty user id is refused; a source that is absent or fails is an empty list of rows. */
  method GetUserRooms(user: Str, pg: seq<UserRoom>, mongo: seq<Summary>) returns (ok: bool, out: seq<UserRoom>)
    ensures ok <==> user != []
    ensures ok ==> IsInbox(out, Keyed(Normalize, AllRows(Normalize, pg, mongo)))
    ensures ok ==> ShowsSources(Normalize, pg, mongo, out)
  {
    if user == [] {
      return false, [];
    }
    out := Merge(Normalize, pg, mongo);
    ok := true;
    PlainKept(GROUP_PREFIX);
    InboxShowsSources(Normalize, pg, mongo, out);
  }

  /** The two passes over the sources. */
  method Merge(key: Str -> Str, pg: seq<UserRoom>, mongo: seq<Summary>) returns (out: seq<UserRoom>)
    ensures IsInbox(out, Keyed(key, AllRows(key, pg, mongo)))
  {
    var acc := new Accumulator(key);
    AddPostgres(acc, pg);
    AddMongo(acc, mongo);
    out := acc.Rooms();
    MergedIsInbox(acc.rows, out);
    assert acc.rows == Keyed(key, AllRows(key, pg, mongo)) by {
      KeyedAllRows(key, pg, mongo);
      assert [] + Keyed(key, pg) == Keyed(key, pg);
    }
  }

  function FromSummaries(key: Str -> Str, mongo: seq<Summary>): seq<UserRoom> {
    if mongo == [] then [] else FromSummaries(key, mongo[..|mongo| - 1]) + [FromSummary(key, mongo[|mongo| - 1])]
  }

  lemma KeyedTake(key: Str -> Str, base: seq<UserRoom>, rows: seq<UserRoom>, k: nat)
    requires k < |rows|
    ensures base + Keyed(key, rows[..k + 1]) == base + Keyed(key, rows[..k]) + KeyedRow(key, rows[k])
  {
    KeyedSnoc(key, rows[..k], rows[k]);
    assert rows[..k + 1] == rows[..k] + [rows[k]];
    Reassociate(base, Keyed(key, rows[..k]), KeyedRow(key, rows[k]));
  }

  lemma SummariesTake(key: Str -> Str, mongo: seq<Summary>, k: nat)
    requires k < |mongo|
    ensures FromSummaries(key, mongo[..k + 1]) == FromSummaries(key, mongo[..k]) + [FromSummary(key, mongo[k])]
  {
    assert mongo[..k + 1] == mongo[..k] + [mongo[k]] && mongo[..k + 1][..k] == mongo[..k];
  }

  method AddPostgres(acc: Accumulator, pg: seq<UserRoom>)
    requires acc.Valid()
    modifies acc
    ensures acc.Valid() && acc.rows == old(acc.rows) + Keyed(acc.key, pg)
  {
    assert pg[..0] == [] && acc.rows + [] == acc.rows;
    for k := 0 to |pg|
      invariant acc.Valid() && acc.rows == old(acc.rows) + Keyed(acc.key, pg[..k])
    {
      KeyedTake(acc.key, old(acc.rows), pg, k);
      acc.AddRoom(pg[k]);
    }
    assert pg[..|pg|] == pg;
  }

  method AddMongo(acc: Accumulator, mongo: seq<Summary>)
    requires acc.Valid()
    modifies acc
    ensures acc.Valid() && acc.rows == old(acc.rows) + Keyed(acc.key, FromSummaries(acc.key, mongo))
  {
    assert mongo[..0] == [] && acc.rows + [] == acc.rows;
    for k := 0 to |mongo|
      invariant acc.Valid() && acc.rows == old(acc.rows) + Keyed(acc.key, FromSummaries(acc.key, mongo[..k]))
    {
      var row := FromSummary(acc.key, mongo[k]);
      SummariesTake(acc.key, mongo, k);
      KeyedSnoc(acc.key, FromSummaries(acc.key, mongo[..k]), row);
      Reassociate(old(acc.rows), Keyed(acc.key, FromSummaries(acc.key, mongo[..k])), KeyedRow(acc.key, row));
      acc.AddRoom(row);
    }
    assert mongo[..|mongo|] == mongo;
  }

  // -------------------------------------------------------------- what the listing amounts to

  lemma {:induction false} GroupIds(rows: seq<UserRoom>, id: Str)
    ensures forall x :: x in GroupOf(rows, id) <==> x in rows && x.roomID == id
  {
    if rows != [] {
      var front, r := rows[..|rows| - 1], rows[|rows| - 1];
      GroupIds(front, id);
      assert rows == front + [r];
    }
  }

  /** Position of the first row with an id, or |rows|. */
  function FirstRow(rows: seq<UserRoom>, id: Str): (i: nat)
    ensures i <= |rows| && (i < |rows| ==> rows[i].roomID == id)
    ensures forall j :: 0 <= j < i ==> rows[j].roomID != id
  {
    if rows == [] || rows[0].roomID == id then 0 else 1 + FirstRow(rows[1..], id)
  }

  /** The listing has no duplicate ids, covers exactly the ids of the rows, in first-appearance order. */
  lemma {:induction false} FirstSeenSpec(rows: seq<UserRoom>)
    ensures var ids := FirstSeen(rows);
            && (forall i, j :: 0 <= i < j < |ids| ==> ids[i] != ids[j])
            && (forall id :: id in ids <==> FirstRow(rows, id) < |rows|)
            && (forall i, j :: 0 <= i < j < |ids| ==> FirstRow(rows, ids[i]) < FirstRow(rows, ids[j]))
  {
    if rows != [] {
      var front, r := rows[..|rows| - 1], rows[|rows| - 1];
      FirstSeenSpec(front);
      forall id ensures FirstRow(rows, id) == FirstRowSnoc(front, r, id) {
        FirstRowIs(rows, id, FirstRowSnoc(front, r, id));
      }
    }
  }

  function FirstRowSnoc(front: seq<UserRoom>, r: UserRoom, id: Str): nat {
    var i := FirstRow(front, id);
    if i == |front| && r.roomID != id then i + 1 else i
  }

  lemma FirstRowIs(rows: seq<UserRoom>, id: Str, i: nat)
    requires i <= |rows| && (i < |rows| ==> rows[i].roomID == id)
    requires forall j :: 0 <= j < i ==> rows[j].roomID != id
    ensures FirstRow(rows, id) == i
  {
  }

  lemma {:induction false} KeyedMembers(key: Str -> Str, rows: seq<UserRoom>)
    ensures forall x :: x in Keyed(key, rows) <==> exists r :: r in rows && r.roomID != [] && x == r.(roomID := key(r.roomID))
  {
    if rows != [] {
      var front, r := rows[..|rows| - 1], rows[|rows| - 1];
      KeyedMembers(key, front);
      assert rows == front + [r];
      forall x ensures x in Keyed(key, rows) <==> exists q :: q in rows && q.roomID != [] && x == q.(roomID := key(q.roomID)) {
        assert x in Keyed(key, rows) <==> x in Keyed(key, front) || x in KeyedRow(key, r);
      }
    }
  }

  lemma {:induction false} SummariesMembers(key: Str -> Str, mongo: seq<Summary>, m: Summary)
    requires m in mongo
    ensures FromSummary(key, m) in FromSummaries(key, mongo)
  {
    var n := |mongo| - 1;
    assert mongo == mongo[..n] + [mongo[n]];
    if m != mongo[n] {
      SummariesMembers(key, mongo[..n], m);
    }
  }

  /** The id under which the inbox of both sources lists a row. */
  lemma RowIsListed(key: Str -> Str, rows: seq<UserRoom>, r: UserRoom)
    requires r in rows && r.roomID != []
    ensures key(r.roomID) in Ids(key, rows)
  {
    var x := r.(roomID := key(r.roomID));
    KeyedMembers(key, rows);
    FirstSeenSpec(Keyed(key, rows));
    assert x in Keyed(key, rows);
    var i :| 0 <= i < |Keyed(key, rows)| && Keyed(key, rows)[i] == x;
    assert FirstRow(Keyed(key, rows), x.roomID) <= i;
  }

  function Ids(key: Str -> Str, rows: seq<UserRoom>): seq<Str> {
    FirstSeen(Keyed(key, rows))
  }

  /** A raw id that both sources list: a Postgres row is keyed once, a Mongo row twice. */
  lemma BothListed(key: Str -> Str, pg: seq<UserRoom>, mongo: seq<Summary>, row: UserRoom, m: Summary)
    requires row in pg && m in mongo && row.roomID == m.roomID && m.roomID != [] && key([]) == []
    ensures key(m.roomID) in Ids(key, AllRows(key, pg, mongo))
    ensures key(key(m.roomID)) in Ids(key, AllRows(key, pg, mongo))
  {
    SummariesMembers(key, mongo, m);
    RowIsListed(key, AllRows(key, pg, mongo), row);
    if key(m.roomID) != [] {
      RowIsListed(key, AllRows(key, pg, mongo), FromSummary(key, m));
    }
  }

  /**
   Whatever else the sources hold: a raw id that both list is listed under one id by both iff normalising
   it once is enough, and the inbox has it under either.
   */
  lemma SourcesMeetIff(pg: seq<UserRoom>, mongo: seq<Summary>, row: UserRoom, m: Summary)
    requires row in pg && m in mongo && row.roomID == m.roomID && m.roomID != []
    ensures var ids := Ids(Normalize, AllRows(Normalize, pg, mongo));
            var fromPostgres, fromMongo := Normalize(m.roomID), Normalize(Normalize(m.roomID));
            && fromPostgres in ids && fromMongo in ids
            && (fromPostgres == fromMongo <==> Settled(m.roomID))
  {
    assert Normalize([]) == [] by { TrimSpaceSpec([]); }
    BothListed(Normalize, pg, mongo, row, m);
    NormalizeIdempotentIff(m.roomID);
  }

  /** A room that both sources list as dm:c:b:a is in the inbox twice. */
  lemma ListedTwice(pg: seq<UserRoom>, mongo: seq<Summary>, row: UserRoom, m: Summary)
    requires row in pg && m in mongo && row.roomID == m.roomID == DM_CBA
    ensures var ids := Ids(Normalize, AllRows(Normalize, pg, mongo));
            Normalize(DM_CBA) in ids && Normalize(Normalize(DM_CBA)) in ids && Normalize(DM_CBA) != Normalize(Normalize(DM_CBA))
  {
    assert DM_CBA != [];
    SourcesMeetIff(pg, mongo, row, m);
    OnePassIsNotEnough();
  }
}
