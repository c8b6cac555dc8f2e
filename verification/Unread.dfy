/**
 The unread flag of a room. Postgres keeps one last-activity row per room and one read cursor per room
 and user, both overwritten by whatever is applied last. The flag computed from them is compared with
 the full log of messages and receipts.
 */
module Unread {
  import opened Bytes

  datatype Activity = Activity(at: int, id: Str, sender: Str, preview: Str)
  datatype Receipt = Receipt(at: int, id: Str)

  /** Go's zero time in milliseconds since 1970; a message so stamped is read "now" by its sender. */
  const ZERO_TIME: int := -62135596800000

  /** The Postgres half of persisting one message, or one receipt. */
  datatype Event =
    | Send(room: Str, id: Str, sender: Str, preview: Str, at: int, now: nat)
    | Read(room: Str, user: Str, id: Str, at: int)

  datatype Tables = Tables(lastActivity: map<Str, Activity>, receipts: map<(Str, Str), Receipt>)

  const EMPTY: Tables := Tables(map[], map[])

  function SendCursor(at: int, now: nat): int {
    if at == ZERO_TIME then now else at
  }

  function Applied(t: Tables, e: Event): Tables {
    match e
    case Send(room, id, sender, preview, at, now) =>
      Tables(t.lastActivity[room := Activity(at, id, sender, preview)],
             if sender == [] then t.receipts else t.receipts[(room, sender) := Receipt(SendCursor(at, now), id)])
    case Read(room, user, id, at) => t.(receipts := t.receipts[(room, user) := Receipt(at, id)])
  }

  function After(run: seq<Event>): Tables {
    if run == [] then EMPTY else Applied(After(run[..|run| - 1]), run[|run| - 1])
  }

  /** The CASE expression over the two rows; no last-activity row leaves the flag at its zero value. */
  predicate Flag(t: Tables, room: Str, me: Str) {
    if room !in t.lastActivity then false
    else if t.lastActivity[room].sender == me then false
    else if (room, me) !in t.receipts then true
    else t.lastActivity[room].at > t.receipts[(room, me)].at
  }

  class RoomRepository {
    var lastActivity: map<Str, Activity>
    var receipts: map<(Str, Str), Receipt>

    ghost function State(): Tables
      reads this
    {
      Tables(lastActivity, receipts)
    }

    constructor ()
      ensures State() == EMPTY
    {
      lastActivity, receipts := map[], map[];
    }

    method UpdateLastActivity(room: Str, id: Str, sender: Str, preview: Str, at: int)
      modifies this`lastActivity
      ensures lastActivity == old(lastActivity)[room := Activity(at, id, sender, preview)]
    {
      lastActivity := lastActivity[room := Activity(at, id, sender, preview)];
    }

    method UpdateReadReceipt(room: Str, user: Str, id: Str, at: int)
      modifies this`receipts
      ensures receipts == old(receipts)[(room, user) := Receipt(at, id)]
    {
      receipts := receipts[(room, user) := Receipt(at, id)];
    }

    /** A send moves the activity row, then the sender's own cursor. */
    method Apply(e: Event)
      modifies this
      ensures State() == Applied(old(State()), e)
      ensures e.Send? ==>
                && lastActivity == old(lastActivity)[e.room := Activity(e.at, e.id, e.sender, e.preview)]
                && receipts == if e.sender == [] then old(receipts)
                               else old(receipts)[(e.room, e.sender) := Receipt(if e.at == -62135596800000 then e.now else e.at, e.id)]
      ensures e.Read? ==>
                lastActivity == old(lastActivity) && receipts == old(receipts)[(e.room, e.user) := Receipt(e.at, e.id)]
    {
      match e
      case Send(room, id, sender, preview, at, now) =>
        UpdateLastActivity(room, id, sender, preview, at);
        if sender != [] {
          UpdateReadReceipt(room, sender, id, SendCursor(at, now));
        }
      case Read(room, user, id, at) =>
        UpdateReadReceipt(room, user, id, at);
    }

    method HasUnread(room: Str, me: Str) returns (unread: bool)
      ensures unread <==> Flag(State(), room, me)
      ensures unread <==>
                && room in lastActivity && lastActivity[room].sender != me
                && ((room, me) in receipts ==> lastActivity[room].at > receipts[(room, me)].at)
    {
      unread := false;
      if room in lastActivity && lastActivity[room].sender != me {
        unread := (room, me) in receipts ==> lastActivity[room].at > receipts[(room, me)].at;
      }
    }
  }

  // ------------------------------------------------------------------ the full log

  predicate IsMessage(e: Event, room: Str) {
    e.Send? && e.room == room
  }

  /** An event that says how far a user has read: a receipt, or a message of their own. */
  predicate IsOwn(e: Event, room: Str, me: Str) {
    e.room == room && match e case Send(_, _, sender, _, _, _) => sender == me && me != [] case Read(_, user, _, _) => user == me
  }

  function CursorTime(e: Event): int {
    match e
    case Send(_, _, _, _, at, now) => SendCursor(at, now)
    case Read(_, _, _, at) => at
  }

  /** Somebody else's message is newer than everything I have read or sent. */
  ghost predicate SomethingUnread(run: seq<Event>, room: Str, me: Str) {
    exists i :: 0 <= i < |run| && IsMessage(run[i], room) && run[i].sender != me && NewerThanOwn(run, room, me, run[i].at)
  }

  ghost predicate NewerThanOwn(run: seq<Event>, room: Str, me: Str, at: int) {
    forall j :: 0 <= j < |run| && IsOwn(run[j], room, me) ==> CursorTime(run[j]) < at
  }

  ghost predicate Right(run: seq<Event>, room: Str, me: Str) {
    Flag(After(run), room, me) <==> SomethingUnread(run, room, me)
  }

  /** The room's messages are applied in the order of their times. */
  ghost predicate MessagesInOrder(run: seq<Event>, room: Str) {
    forall i, j :: 0 <= i < j < |run| && IsMessage(run[i], room) && IsMessage(run[j], room) ==> run[i].at <= run[j].at
  }

  /** So are a user's own cursors in the room. */
  ghost predicate CursorsInOrder(run: seq<Event>, room: Str, me: Str) {
    forall i, j :: 0 <= i < j < |run| && IsOwn(run[i], room, me) && IsOwn(run[j], room, me)
                   ==> CursorTime(run[i]) <= CursorTime(run[j])
  }

  // ------------------------------------------------------------------ what the rows hold

  function Last(run: seq<Event>, p: Event -> bool): (i: int)
    ensures -1 <= i < |run| && (i >= 0 ==> p(run[i]))
    ensures forall j :: i < j < |run| ==> !p(run[j])
  {
    if run == [] then -1
    else if p(run[|run| - 1]) then |run| - 1
    else
      var front := run[..|run| - 1];
      var i := Last(front, p);
      assert forall j :: i < j < |front| ==> !p(front[j]);
      i
  }

  function MessageIn(room: Str): Event -> bool {
    e => IsMessage(e, room)
  }

  function OwnIn(room: Str, me: Str): Event -> bool {
    e => IsOwn(e, room, me)
  }

  /** The activity row is the last message applied, the receipt row the last own cursor applied. */
  ghost predicate Reflects(t: Tables, run: seq<Event>, room: Str, me: Str) {
    var m, c := Last(run, MessageIn(room)), Last(run, OwnIn(room, me));
    && (room in t.lastActivity <==> m >= 0)
    && (m >= 0 ==> t.lastActivity[room].at == run[m].at && t.lastActivity[room].sender == run[m].sender)
    && ((room, me) in t.receipts <==> c >= 0)
    && (c >= 0 ==> t.receipts[(room, me)].at == CursorTime(run[c]))
  }

  lemma {:induction false} RowsReflectRun(run: seq<Event>, room: Str, me: Str)
    requires me != []
    ensures Reflects(After(run), run, room, me)
  {
    if run != [] {
      RowsReflectRun(run[..|run| - 1], room, me);
    }
  }

  // ------------------------------------------------------------------ the theorem

  /**
   For every run in which the room's messages are applied in time order and the user's own cursors are
   applied in time order, whatever happens in other rooms, to other users' cursors, and between the two,
   the flag from one row and one cursor says what the whole log says.
   */
  lemma FlagRefinesLog(run: seq<Event>, room: Str, me: Str)
    requires me != []
    requires MessagesInOrder(run, room) && CursorsInOrder(run, room, me)
    ensures Right(run, room, me)
  {
    RowsReflectRun(run, room, me);
    var m, c := Last(run, MessageIn(room)), Last(run, OwnIn(room, me));
    if Flag(After(run), room, me) {
      assert IsMessage(run[m], room);
      forall j | 0 <= j < |run| && IsOwn(run[j], room, me) ensures CursorTime(run[j]) < run[m].at {
        assert IsOwn(run[c], room, me) && j <= c;
      }
      assert NewerThanOwn(run, room, me, run[m].at);
    }
    if SomethingUnread(run, room, me) {
      var i :| 0 <= i < |run| && IsMessage(run[i], room) && run[i].sender != me && NewerThanOwn(run, room, me, run[i].at);
      assert MessageIn(room)(run[i]);
      assert i <= m && run[i].at <= run[m].at;
      assert IsOwn(run[m], room, me) <==> run[m].sender == me;
      assert c >= 0 ==> IsOwn(run[c], room, me);
    }
  }

  /** With no hypothesis at all: a raised flag means a message by another, newer than the cursor last applied. */
  lemma FlagIsSound(run: seq<Event>, room: Str, me: Str)
    requires me != [] && Flag(After(run), room, me)
    ensures exists m :: 0 <= m < |run| && IsMessage(run[m], room) && run[m].sender != me
                        && (forall k :: m < k < |run| ==> !IsMessage(run[k], room))
                        && var c := Last(run, OwnIn(room, me)); c >= 0 ==> CursorTime(run[c]) < run[m].at
  {
    RowsReflectRun(run, room, me);
    var m := Last(run, MessageIn(room));
    forall k | m < k < |run| ensures !IsMessage(run[k], room) {
      assert !MessageIn(room)(run[k]);
    }
    assert IsMessage(run[m], room);
  }

  // ------------------------------------------------------------------ the hypotheses are needed

  ghost predicate AllMessages(run: seq<Event>, room: Str, me: Str) {
    forall i :: 0 <= i < |run| ==> IsMessage(run[i], room) && run[i].sender != me
  }

  /**
   Message order is exactly what readers need: the flag is right after every prefix for every time at
   which a reader may send one receipt, iff the messages are applied in time order.
   */
  lemma MessageOrderIff(run: seq<Event>, room: Str, me: Str, id: Str)
    requires me != [] && AllMessages(run, room, me)
    ensures (forall k, at :: 0 <= k <= |run| ==> Right(run[..k] + [Read(room, me, id, at)], room, me))
            <==> MessagesInOrder(run, room)
  {
    if MessagesInOrder(run, room) {
      forall k, at | 0 <= k <= |run| ensures Right(run[..k] + [Read(room, me, id, at)], room, me) {
        FlagRefinesLog(run[..k] + [Read(room, me, id, at)], room, me);
      }
    } else {
      var i, j :| 0 <= i < j < |run| && run[i].at > run[j].at;
      LateMessageHidesUnread(run[..j], room, me, id, i, run[j]);
      assert run[..j] + [run[j]] == run[..j + 1];
      assert !Right(run[..j + 1] + [Read(room, me, id, run[j].at)], room, me);
    }
  }

  /** An older message applied last hides a newer one that was never read. */
  lemma LateMessageHidesUnread(front: seq<Event>, room: Str, me: Str, id: Str, i: nat, late: Event)
    requires me != [] && AllMessages(front, room, me) && i < |front|
    requires IsMessage(late, room) && late.sender != me && front[i].at > late.at
    ensures var run := front + [late] + [Read(room, me, id, late.at)];
            !Flag(After(run), room, me) && SomethingUnread(run, room, me)
  {
    var run := front + [late] + [Read(room, me, id, late.at)];
    assert run[..|run| - 1] == front + [late] && run[|run| - 1] == Read(room, me, id, late.at);
    assert (front + [late])[..|front|] == front && (front + [late])[|front|] == late;
    assert run[i] == front[i];
    assert forall j :: 0 <= j < |front| + 1 ==> run[j] == (front + [late])[j];
    assert NewerThanOwn(run, room, me, run[i].at);
  }

  ghost predicate AllReads(run: seq<Event>, room: Str, me: Str) {
    forall i :: 0 <= i < |run| ==> run[i].Read? && run[i].room == room && run[i].user == me
  }

  /**
   So is cursor order: the flag is right after every prefix of a reader's receipts and every message that
   may then arrive, iff the receipts are applied in time order.
   */
  lemma CursorOrderIff(run: seq<Event>, room: Str, me: Str, other: Str, id: Str)
    requires me != [] && other != me && AllReads(run, room, me)
    ensures (forall k, at :: 0 <= k <= |run| ==> Right(run[..k] + [Send(room, id, other, [], at, 0)], room, me))
            <==> CursorsInOrder(run, room, me)
  {
    if CursorsInOrder(run, room, me) {
      forall k, at | 0 <= k <= |run| ensures Right(run[..k] + [Send(room, id, other, [], at, 0)], room, me) {
        FlagRefinesLog(run[..k] + [Send(room, id, other, [], at, 0)], room, me);
      }
    } else {
      var i, j :| 0 <= i < j < |run| && CursorTime(run[i]) > CursorTime(run[j]);
      LateReceiptRevivesRead(run[..j], room, me, other, id, i, run[j]);
      assert run[..j] + [run[j]] == run[..j + 1];
      assert !Right(run[..j + 1] + [Send(room, id, other, [], run[i].at, 0)], room, me);
    }
  }

  /** An older receipt applied last makes a message unread that a newer receipt covers. */
  lemma LateReceiptRevivesRead(front: seq<Event>, room: Str, me: Str, other: Str, id: Str, i: nat, late: Event)
    requires me != [] && other != me && AllReads(front, room, me) && i < |front|
    requires late.Read? && late.room == room && late.user == me && front[i].at > late.at
    ensures var run := front + [late] + [Send(room, id, other, [], front[i].at, 0)];
            Flag(After(run), room, me) && !SomethingUnread(run, room, me)
  {
    var run := front + [late] + [Send(room, id, other, [], front[i].at, 0)];
    assert run[..|run| - 1] == front + [late] && run[|run| - 1] == Send(room, id, other, [], front[i].at, 0);
    assert (front + [late])[..|front|] == front && (front + [late])[|front|] == late;
    assert run[i] == front[i] && IsOwn(run[i], room, me);
    assert forall k :: 0 <= k < |front| + 1 ==> run[k] == (front + [late])[k];
  }

  // ------------------------------------------------------------------ the log in two numbers

  datatype Time = Never | At(t: int)

  predicate Later(x: Time, y: Time) {
    x.At? && (y.Never? || x.t > y.t)
  }

  function Latest(x: Time, y: Time): Time {
    if Later(x, y) then x else y
  }

  /** The newest message by others, and how far I have read or sent. */
  function NewestOther(run: seq<Event>, room: Str, me: Str): Time {
    if run == [] then Never
    else
      var before, e := NewestOther(run[..|run| - 1], room, me), run[|run| - 1];
      if IsMessage(e, room) && e.sender != me then Latest(At(e.at), before) else before
  }

  function NewestOwn(run: seq<Event>, room: Str, me: Str): Time {
    if run == [] then Never
    else
      var before, e := NewestOwn(run[..|run| - 1], room, me), run[|run| - 1];
      if IsOwn(e, room, me) then Latest(At(CursorTime(e)), before) else before
  }

  lemma {:induction false} NewestOwnIs(run: seq<Event>, room: Str, me: Str, at: int)
    ensures NewerThanOwn(run, room, me, at) <==> Later(At(at), NewestOwn(run, room, me))
  {
    if run != [] {
      var front, e := run[..|run| - 1], run[|run| - 1];
      NewestOwnIs(front, room, me, at);
      NewerSnoc(front, e, room, me, at);
      assert run == front + [e];
    }
  }

  /** Some message by another, at the given time. */
  ghost predicate SentAt(run: seq<Event>, room: Str, me: Str, at: int) {
    exists i :: 0 <= i < |run| && IsMessage(run[i], room) && run[i].sender != me && run[i].at == at
  }

  lemma SentAtSnoc(front: seq<Event>, e: Event, room: Str, me: Str, at: int)
    ensures SentAt(front + [e], room, me, at) <==>
            SentAt(front, room, me, at) || (IsMessage(e, room) && e.sender != me && e.at == at)
  {
    var run := front + [e];
    assert run[|front|] == e && forall j :: 0 <= j < |front| ==> run[j] == front[j];
  }

  lemma {:induction false} NewestOtherIs(run: seq<Event>, room: Str, me: Str)
    ensures var newest := NewestOther(run, room, me);
            && (newest.At? ==> SentAt(run, room, me, newest.t))
            && forall at :: SentAt(run, room, me, at) ==> newest.At? && at <= newest.t
  {
    if run != [] {
      var front, e := run[..|run| - 1], run[|run| - 1];
      NewestOtherIs(front, room, me);
      assert run == front + [e];
      forall at ensures SentAt(run, room, me, at) <==>
                        SentAt(front, room, me, at) || (IsMessage(e, room) && e.sender != me && e.at == at) {
        SentAtSnoc(front, e, room, me, at);
      }
    }
  }

  /** Something is unread iff the newest message by another is newer than all I have read or sent. */
  lemma UnreadIffNewest(run: seq<Event>, room: Str, me: Str)
    ensures SomethingUnread(run, room, me) <==> Later(NewestOther(run, room, me), NewestOwn(run, room, me))
  {
    var newest := NewestOther(run, room, me);
    NewestOtherIs(run, room, me);
    if i :| 0 <= i < |run| && IsMessage(run[i], room) && run[i].sender != me && NewerThanOwn(run, room, me, run[i].at) {
      NewestOwnIs(run, room, me, run[i].at);
      assert SentAt(run, room, me, run[i].at);
    }
    if Later(newest, NewestOwn(run, room, me)) {
      NewestOwnIs(run, room, me, newest.t);
      var i :| 0 <= i < |run| && IsMessage(run[i], room) && run[i].sender != me && run[i].at == newest.t;
    }
  }

  // ------------------------------------------------------------------ the exact condition, event by event

  /** The room's row is another's message, newer than x. */
  predicate RowNewer(t: Tables, room: Str, me: Str, x: int) {
    room in t.lastActivity && t.lastActivity[room].sender != me && t.lastActivity[room].at > x
  }

  /** My row in the room is older than x, or there is none. */
  predicate RowBehind(t: Tables, room: Str, me: Str, x: int) {
    (room, me) in t.receipts ==> t.receipts[(room, me)].at < x
  }

  /**
   What may be applied next, on the two rows and the two newest times. A message by another is newer than
   all I have read or sent, or newer than my row iff something was unread anyhow. A message of mine is as
   new as the newest by others, if that was unread. A receipt of mine that covers the room's row covers the
   newest by others, if that was unread, and otherwise does not fall behind the room's row.
   */
  predicate InStep(t: Tables, newest: Time, mine: Time, room: Str, me: Str, e: Event) {
    var unread := Later(newest, mine);
    if IsOwn(e, room, me) && e.Send? then unread ==> !Later(newest, At(CursorTime(e)))
    else if IsOwn(e, room, me) then
      if unread then RowNewer(t, room, me, e.at) || !Later(newest, At(e.at)) else !RowNewer(t, room, me, e.at)
    else IsMessage(e, room) ==> Later(At(e.at), mine) || (RowBehind(t, room, me, e.at) <==> unread)
  }

  ghost predicate InStepWith(run: seq<Event>, room: Str, me: Str, e: Event) {
    InStep(After(run), NewestOther(run, room, me), NewestOwn(run, room, me), room, me, e)
  }

  lemma AfterSnoc(run: seq<Event>, e: Event)
    ensures After(run + [e]) == Applied(After(run), e)
  {
    assert (run + [e])[..|run|] == run;
  }

  lemma NewerSnoc(run: seq<Event>, e: Event, room: Str, me: Str, at: int)
    ensures NewerThanOwn(run + [e], room, me, at) <==> NewerThanOwn(run, room, me, at) && (IsOwn(e, room, me) ==> CursorTime(e) < at)
  {
    var all := run + [e];
    assert all[|run|] == e && forall j :: 0 <= j < |run| ==> all[j] == run[j];
  }

  lemma NewestSnoc(run: seq<Event>, e: Event, room: Str, me: Str)
    ensures NewestOther(run + [e], room, me) ==
            if IsMessage(e, room) && e.sender != me then Latest(At(e.at), NewestOther(run, room, me)) else NewestOther(run, room, me)
    ensures NewestOwn(run + [e], room, me) ==
            if IsOwn(e, room, me) then Latest(At(CursorTime(e)), NewestOwn(run, room, me)) else NewestOwn(run, room, me)
  {
    assert (run + [e])[..|run|] == run;
  }

  /** The flag after one more event, on the rows before it. */
  lemma FlagSnoc(run: seq<Event>, e: Event, room: Str, me: Str)
    requires me != []
    ensures Flag(After(run + [e]), room, me) <==>
            if IsOwn(e, room, me) then e.Read? && RowNewer(After(run), room, me, e.at)
            else if IsMessage(e, room) then RowBehind(After(run), room, me, e.at)
            else Flag(After(run), room, me)
  {
    AfterSnoc(run, e);
  }

  /** The two rows lie within the newest times. */
  lemma RowsWithin(run: seq<Event>, room: Str, me: Str, x: int)
    requires me != []
    ensures RowNewer(After(run), room, me, x) ==> Later(NewestOther(run, room, me), At(x))
    ensures Later(At(x), NewestOwn(run, room, me)) ==> RowBehind(After(run), room, me, x)
  {
    RowsReflectRun(run, room, me);
    NewestOtherIs(run, room, me);
    NewestOwnIs(run, room, me, x);
    var m, c := Last(run, MessageIn(room)), Last(run, OwnIn(room, me));
    if RowNewer(After(run), room, me, x) {
      assert IsMessage(run[m], room);
      assert SentAt(run, room, me, run[m].at);
    }
    assert c >= 0 ==> IsOwn(run[c], room, me);
  }

  /** Where the flag is right, one more event leaves it right iff it is in step. */
  lemma RightStepIff(run: seq<Event>, room: Str, me: Str, e: Event)
    requires me != [] && Right(run, room, me)
    ensures Right(run + [e], room, me) <==> InStepWith(run, room, me, e)
  {
    FlagSnoc(run, e, room, me);
    UnreadIffNewest(run, room, me);
    UnreadIffNewest(run + [e], room, me);
    NewestSnoc(run, e, room, me);
    if IsOwn(e, room, me) || IsMessage(e, room) {
      RowsWithin(run, room, me, e.at);
    }
  }

  ghost predicate AlwaysRight(run: seq<Event>, room: Str, me: Str) {
    forall k :: 0 <= k <= |run| ==> Right(run[..k], room, me)
  }

  ghost predicate AllInStep(run: seq<Event>, room: Str, me: Str) {
    forall k :: 0 <= k < |run| ==> InStepWith(run[..k], room, me, run[k])
  }

  lemma AlwaysRightSnoc(front: seq<Event>, e: Event, room: Str, me: Str)
    ensures AlwaysRight(front + [e], room, me) <==> AlwaysRight(front, room, me) && Right(front + [e], room, me)
  {
    var run := front + [e];
    assert forall k :: 0 <= k <= |front| ==> run[..k] == front[..k];
    assert run[..|run|] == run;
  }

  lemma AllInStepSnoc(front: seq<Event>, e: Event, room: Str, me: Str)
    ensures AllInStep(front + [e], room, me) <==> AllInStep(front, room, me) && InStepWith(front, room, me, e)
  {
    var run := front + [e];
    assert forall k :: 0 <= k <= |front| ==> run[..k] == front[..k];
    assert run[..|front|] == front;
  }

  /**
   For every run that mixes messages, sends of one's own and receipts, in any order and any rooms: the
   flag is right at every point iff every event is in step.
   */
  lemma {:induction false} FlagRightThroughoutIff(run: seq<Event>, room: Str, me: Str)
    requires me != []
    ensures AlwaysRight(run, room, me) <==> AllInStep(run, room, me)
  {
    if run == [] {
      assert Right(run, room, me) && run[..0] == run;
    } else {
      var front, e := run[..|run| - 1], run[|run| - 1];
      FlagRightThroughoutIff(front, room, me);
      assert run == front + [e] && front[..|front|] == front;
      AlwaysRightSnoc(front, e, room, me);
      AllInStepSnoc(front, e, room, me);
      if Right(front, room, me) {
        RightStepIff(front, room, me, e);
      }
    }
  }
}
