/**
 Messages from sending to deletion: what a client that replays a room's broadcasts sees, against what
 the store holds. Sending broadcasts at once and saves in the background; edits and deletes update the
 store and then broadcast.
 */
module Lifecycle {
  import opened Bytes
  import opened RoomIdentity

  datatype Doc = Doc(room: Str, sender: Str, text: Str, deleted: bool)
  datatype Save = Save(id: Str, doc: Doc)
  datatype Frame =
    | Message(id: Str, sender: Str, text: Str)
    | Edited(id: Str, text: Str)
    | Deleted(id: Str)
  datatype Sent = Sent(room: Str, frame: Frame)

  /** The store, the saves still running in the background, and every broadcast made. */
  datatype State = State(messages: map<Str, Doc>, inFlight: seq<Save>, log: seq<Sent>)

  const START: State := State(map[], [], [])

  /** A request arrives as a frame of the chat stream or as a call of its own. */
  datatype Via = Stream | Call

  datatype Op =
    | Send(via: Via, room: Str, user: Str, id: Str, text: Str, media: Str, uuid: Str)
    | Edit(via: Via, room: Str, user: Str, id: Str, text: Str)
    | Delete(via: Via, room: Str, user: Str, id: Str)
    | Land(which: nat)   // one background save completes

  /** How room ids are normalised and texts trimmed. */
  datatype Text = Text(key: Str -> Str, trim: Str -> Str)

  // ------------------------------------------------------------------ one operation

  predicate SendAccepted(env: Text, op: Op)
    requires op.Send?
  {
    match op.via
    case Stream => op.text != [] || op.media != []
    case Call => env.key(op.room) != [] && op.user != []
  }

  /** The id a message is broadcast under; a client may leave it empty. */
  function FrameID(op: Op): Str
    requires op.Send?
  {
    match op.via case Stream => op.id case Call => op.uuid
  }

  function SentDoc(env: Text, op: Op): Doc
    requires op.Send?
  {
    Doc(env.key(op.room), op.user, op.text, false)
  }

  function NewText(env: Text, op: Op): Str
    requires op.Edit?
  {
    match op.via case Stream => env.trim(op.text) case Call => op.text
  }

  predicate EditAccepted(env: Text, s: State, op: Op)
    requires op.Edit?
  {
    && op.id != [] && NewText(env, op) != [] && (op.via.Call? ==> op.user != [])
    && op.id in s.messages && !s.messages[op.id].deleted && s.messages[op.id].sender == op.user
  }

  predicate DeleteAccepted(s: State, op: Op)
    requires op.Delete?
  {
    && op.id != [] && (op.via.Call? ==> op.user != [])
    && op.id in s.messages && s.messages[op.id].sender == op.user
  }

  /** A call that names no conversation updates the store and broadcasts nothing. */
  predicate Announced(env: Text, op: Op)
    requires op.Edit? || op.Delete?
  {
    op.via.Call? ==> env.key(op.room) != []
  }

  function Inserted(messages: map<Str, Doc>, save: Save): map<Str, Doc> {
    if save.id in messages then messages else messages[save.id := save.doc]
  }

  function Step(env: Text, s: State, op: Op): State {
    match op
    case Send(_, room, user, _, text, _, uuid) =>
      if !SendAccepted(env, op) then s
      else
        var id := FrameID(op);
        s.(inFlight := s.inFlight + [Save(if id == [] then uuid else id, SentDoc(env, op))],
           log := s.log + [Sent(env.key(room), Message(id, user, text))])
    case Edit(_, room, _, id, _) =>
      if !EditAccepted(env, s, op) then s
      else
        s.(messages := s.messages[id := s.messages[id].(text := NewText(env, op))],
           log := if Announced(env, op) then s.log + [Sent(env.key(room), Edited(id, NewText(env, op)))] else s.log)
    case Delete(_, room, _, id) =>
      if !DeleteAccepted(s, op) then s
      else
        s.(messages := s.messages[id := s.messages[id].(deleted := true)],
           log := if Announced(env, op) then s.log + [Sent(env.key(room), Deleted(id))] else s.log)
    case Land(i) =>
      if i >= |s.inFlight| then s
      else s.(messages := Inserted(s.messages, s.inFlight[i]), inFlight := s.inFlight[..i] + s.inFlight[i + 1..])
  }

  function Run(env: Text, s: State, ops: seq<Op>): State
    decreases |ops|
  {
    if ops == [] then s else Run(env, Step(env, s, ops[0]), ops[1..])
  }

  class Server {
    const env: Text
    var messages: map<Str, Doc>
    var inFlight: seq<Save>
    var log: seq<Sent>

    ghost function Now(): State
      reads this
    {
      State(messages, inFlight, log)
    }

    constructor (env: Text)
      ensures this.env == env && Now() == START
    {
      this.env := env;
      messages, inFlight, log := map[], [], [];
    }

    method Broadcast(room: Str, frame: Frame)
      modifies this`log
      ensures log == old(log) + [Sent(room, frame)]
    {
      log := log + [Sent(room, frame)];
    }

    /** False stands for the error: no such message, not its author's call, or already deleted. */
    method EditMessage(id: Str, user: Str, text: Str) returns (ok: bool)
      modifies this`messages
      ensures ok <==> id in old(messages) && !old(messages)[id].deleted && old(messages)[id].sender == user
      ensures messages == if ok then old(messages)[id := old(messages)[id].(text := text)] else old(messages)
    {
      ok := id in messages && !messages[id].deleted && messages[id].sender == user;
      if ok {
        messages := messages[id := messages[id].(text := text)];
      }
    }

    method SoftDeleteMessageByOwner(id: Str, user: Str) returns (deleted: bool)
      modifies this`messages
      ensures deleted <==> id in old(messages) && old(messages)[id].sender == user
      ensures messages == if deleted then old(messages)[id := old(messages)[id].(deleted := true)] else old(messages)
    {
      deleted := id in messages && messages[id].sender == user;
      if deleted {
        messages := messages[id := messages[id].(deleted := true)];
      }
    }

    /** An insert under an id that exists fails and changes nothing. */
    method SaveMessage(save: Save)
      modifies this`messages
      ensures messages == Inserted(old(messages), save)
    {
      if save.id !in messages {
        messages := messages[save.id := save.doc];
      }
    }

    method Process(op: Op)
      modifies this
      ensures Now() == Step(env, old(Now()), op)
      // a frame of the stream with text or media, or a call with a room and a user, is broadcast once and saved once
      ensures op.Send? ==>
                var room := env.key(op.room);
                var id := if op.via.Stream? then op.id else op.uuid;
                if (if op.via.Stream? then op.text != [] || op.media != [] else room != [] && op.user != [])
                then && log == old(log) + [Sent(room, Message(id, op.user, op.text))]
                     && inFlight == old(inFlight) + [Save(if id == [] then op.uuid else id, Doc(room, op.user, op.text, false))]
                     && messages == old(messages)
                else Now() == old(Now())
      // an author's edit of a message that is not deleted, to a text that is not blank
      ensures op.Edit? ==>
                var room, text := env.key(op.room), if op.via.Stream? then env.trim(op.text) else op.text;
                if && op.id != [] && text != [] && (op.via.Call? ==> op.user != [])
                   && op.id in old(messages) && !old(messages)[op.id].deleted && old(messages)[op.id].sender == op.user
                then && messages == old(messages)[op.id := old(messages)[op.id].(text := text)] && inFlight == old(inFlight)
                     && log == if op.via.Stream? || room != [] then old(log) + [Sent(room, Edited(op.id, text))] else old(log)
                else Now() == old(Now())
      // an author's delete
      ensures op.Delete? ==>
                var room := env.key(op.room);
                if && op.id != [] && (op.via.Call? ==> op.user != [])
                   && op.id in old(messages) && old(messages)[op.id].sender == op.user
                then && messages == old(messages)[op.id := old(messages)[op.id].(deleted := true)] && inFlight == old(inFlight)
                     && log == if op.via.Stream? || room != [] then old(log) + [Sent(room, Deleted(op.id))] else old(log)
                else Now() == old(Now())
      // a save lands under an id that is free, or is lost
      ensures op.Land? && op.which < |old(inFlight)| ==>
                var save := old(inFlight)[op.which];
                && messages == (if save.id in old(messages) then old(messages) else old(messages)[save.id := save.doc])
                && inFlight == old(inFlight)[..op.which] + old(inFlight)[op.which + 1..] && log == old(log)
    {
      match op
      case Send(via, room, user, id, text, media, uuid) =>
        var r := env.key(room);
        if (via.Stream? && text == [] && media == []) || (via.Call? && (r == [] || user == [])) {
          return;
        }
        var name := if via.Stream? then id else uuid;
        Broadcast(r, Message(name, user, text));
        inFlight := inFlight + [Save(if name == [] then uuid else name, Doc(r, user, text, false))];
      case Edit(via, room, user, id, text) =>
        var r := env.key(room);
        var t := if via.Stream? then env.trim(text) else text;
        if id == [] || t == [] || (via.Call? && user == []) {
          return;
        }
        var ok := EditMessage(id, user, t);
        if ok && (via.Stream? || r != []) {
          Broadcast(r, Edited(id, t));
        }
      case Delete(via, room, user, id) =>
        var r := env.key(room);
        if id == [] || (via.Call? && user == []) {
          return;
        }
        var deleted := SoftDeleteMessageByOwner(id, user);
        if deleted && (via.Stream? || r != []) {
          Broadcast(r, Deleted(id));
        }
      case Land(i) =>
        if i < |inFlight| {
          SaveMessage(inFlight[i]);
          inFlight := inFlight[..i] + inFlight[i + 1..];
        }
    }
  }

  // ------------------------------------------------------------------ live view and stored history

  datatype View = Absent | Present(sender: Str, text: Str, deleted: bool)

  function Show(before: View, f: Frame): View {
    match f
    case Message(_, sender, text) => Present(sender, text, false)
    case Edited(_, text) => if before.Present? then before.(text := text) else before
    case Deleted(_) => if before.Present? then before.(deleted := true) else before
  }

  /** What replaying a room's broadcasts shows of one message. */
  function Seen(log: seq<Sent>, room: Str, id: Str): View {
    if log == [] then Absent
    else
      var before, e := Seen(log[..|log| - 1], room, id), log[|log| - 1];
      if e.room == room && e.frame.id == id then Show(before, e.frame) else before
  }

  datatype Maybe = None | Some(doc: Doc)

  function Pending(saves: seq<Save>, id: Str): Maybe {
    if saves == [] then None
    else if saves[0].id == id then Some(saves[0].doc)
    else Pending(saves[1..], id)
  }

  /** The document an id has, or will have when its save lands. */
  function Eventual(s: State, id: Str): Maybe {
    if id in s.messages then Some(s.messages[id]) else Pending(s.inFlight, id)
  }

  function Stored(d: Maybe, room: Str): View {
    if d.Some? && d.doc.room == room then Present(d.doc.sender, d.doc.text, d.doc.deleted) else Absent
  }

  /** Every room's replay shows what the room's history holds, once the running saves land. */
  ghost predicate Agrees(s: State) {
    forall room, id :: Seen(s.log, room, id) == Stored(Eventual(s, id), room)
  }

  /** No document lacks an id, and no two running saves compete for one. */
  ghost predicate Coherent(s: State) {
    && [] !in s.messages
    && (forall i :: 0 <= i < |s.inFlight| ==> s.inFlight[i].id != [])
    && (forall i :: 0 <= i < |s.inFlight| && s.inFlight[i].id !in s.messages
                    ==> Pending(s.inFlight, s.inFlight[i].id) == Some(s.inFlight[i].doc))
  }

  ghost predicate Faithful(s: State) {
    Agrees(s) && Coherent(s)
  }

  /** Checked before the operation: a new id, or the message's own room, unless nothing would change. */
  predicate Proper(env: Text, s: State, op: Op) {
    match op
    case Send(_, _, _, _, _, _, _) =>
      SendAccepted(env, op) ==>
        && FrameID(op) != []
        && (Eventual(s, FrameID(op)) == None || Eventual(s, FrameID(op)) == Some(SentDoc(env, op)))
    case Edit(_, room, _, id, _) =>
      EditAccepted(env, s, op) ==>
        (Announced(env, op) && env.key(room) == s.messages[id].room) || NewText(env, op) == s.messages[id].text
    case Delete(_, room, _, id) =>
      DeleteAccepted(s, op) ==> (Announced(env, op) && env.key(room) == s.messages[id].room) || s.messages[id].deleted
    case Land(_) => true
  }

  lemma SeenSnoc(log: seq<Sent>, e: Sent, room: Str, id: Str)
    ensures Seen(log + [e], room, id) ==
            if e.room == room && e.frame.id == id then Show(Seen(log, room, id), e.frame) else Seen(log, room, id)
  {
    assert (log + [e])[..|log|] == log;
  }

  lemma {:induction false} PendingSnoc(saves: seq<Save>, save: Save, id: Str)
    ensures Pending(saves + [save], id) ==
            if Pending(saves, id) == None && save.id == id then Some(save.doc) else Pending(saves, id)
  {
    if saves != [] {
      assert (saves + [save])[1..] == saves[1..] + [save];
      PendingSnoc(saves[1..], save, id);
    } else {
      assert [save][1..] == [];
    }
  }

  lemma {:induction false} PendingWithout(saves: seq<Save>, i: nat, id: Str)
    requires i < |saves| && saves[i].id != id
    ensures Pending(saves[..i] + saves[i + 1..], id) == Pending(saves, id)
  {
    var rest := saves[..i] + saves[i + 1..];
    if i == 0 {
      assert rest == saves[1..];
    } else {
      assert rest[0] == saves[0] && rest[1..] == saves[1..][..i - 1] + saves[1..][i..];
      PendingWithout(saves[1..], i - 1, id);
    }
  }

  // ---- sends

  lemma SendStep(env: Text, s: State, op: Op)
    requires op.Send? && op.uuid != [] && SendAccepted(env, op) && Faithful(s)
    ensures Agrees(Step(env, s, op)) <==> Proper(env, s, op)
    ensures Proper(env, s, op) ==> Coherent(Step(env, s, op))
  {
    var t, id, doc := Step(env, s, op), FrameID(op), SentDoc(env, op);
    var save := Save(if id == [] then op.uuid else id, doc);
    var e := Sent(doc.room, Message(id, op.user, op.text));
    SeenSnoc(s.log, e, doc.room, id);
    PendingSnoc(s.inFlight, save, id);
    if Proper(env, s, op) {
      forall room, x ensures Seen(t.log, room, x) == Stored(Eventual(t, x), room) {
        SeenSnoc(s.log, e, room, x);
        PendingSnoc(s.inFlight, save, x);
      }
      SendCoherent(s, save);
    } else {
      BlankIsNeverStored(s);
      assert Seen(t.log, doc.room, id) == Present(op.user, op.text, false);
      assert Stored(Eventual(t, id), doc.room) != Present(op.user, op.text, false);
    }
  }

  lemma {:induction false} BlankPending(saves: seq<Save>)
    requires forall i :: 0 <= i < |saves| ==> saves[i].id != []
    ensures Pending(saves, []) == None
  {
    if saves != [] {
      BlankPending(saves[1..]);
    }
  }

  lemma BlankIsNeverStored(s: State)
    requires Coherent(s)
    ensures Eventual(s, []) == None
  {
    BlankPending(s.inFlight);
  }

  lemma SendCoherent(s: State, save: Save)
    requires Coherent(s) && save.id != []
    requires Eventual(s, save.id) == None || Eventual(s, save.id) == Some(save.doc)
    ensures Coherent(s.(inFlight := s.inFlight + [save]))
  {
    var saves := s.inFlight + [save];
    forall i | 0 <= i < |saves| && saves[i].id !in s.messages
      ensures Pending(saves, saves[i].id) == Some(saves[i].doc)
    {
      PendingSnoc(s.inFlight, save, saves[i].id);
    }
  }

  // ---- saves landing

  lemma LandStep(env: Text, s: State, i: nat)
    requires i < |s.inFlight| && Faithful(s)
    ensures Faithful(Step(env, s, Land(i)))
  {
    var t := Step(env, s, Land(i));
    forall id ensures Eventual(t, id) == Eventual(s, id) {
      LandKeeps(s, i, id);
    }
    LandCoherent(s, i, t);
  }

  lemma LandKeeps(s: State, i: nat, id: Str)
    requires i < |s.inFlight| && Coherent(s)
    ensures var t := s.(messages := Inserted(s.messages, s.inFlight[i]), inFlight := s.inFlight[..i] + s.inFlight[i + 1..]);
            Eventual(t, id) == Eventual(s, id)
  {
    if s.inFlight[i].id != id {
      PendingWithout(s.inFlight, i, id);
    }
  }

  lemma LandCoherent(s: State, i: nat, t: State)
    requires i < |s.inFlight| && Coherent(s)
    requires t.messages == Inserted(s.messages, s.inFlight[i]) && t.inFlight == s.inFlight[..i] + s.inFlight[i + 1..]
    ensures Coherent(t)
  {
    forall j | 0 <= j < |t.inFlight| && t.inFlight[j].id !in t.messages
      ensures Pending(t.inFlight, t.inFlight[j].id) == Some(t.inFlight[j].doc)
    {
      var k := if j < i then j else j + 1;
      assert t.inFlight[j] == s.inFlight[k];
      PendingWithout(s.inFlight, i, t.inFlight[j].id);
    }
  }

  // ---- edits and deletes

  /** One stored document changes, and at most one frame about it goes out. */
  lemma ChangeStep(s: State, t: State, id: Str, doc: Doc, announced: bool, e: Sent)
    requires Faithful(s) && id in s.messages && doc.room == s.messages[id].room
    requires t.messages == s.messages[id := doc] && t.inFlight == s.inFlight
    requires t.log == if announced then s.log + [e] else s.log
    requires e.frame.id == id
    requires Show(Stored(Some(s.messages[id]), doc.room), e.frame) == Stored(Some(doc), doc.room)
    requires !e.frame.Message?
    ensures Agrees(t) <==> (announced && e.room == doc.room) || doc == s.messages[id]
    ensures Coherent(t)
  {
    assert Coherent(t);
    forall x: Str ensures Eventual(t, x) == if x == id then Some(doc) else Eventual(s, x) {
    }
    forall room, x ensures Seen(t.log, room, x) ==
                           if announced && e.room == room && x == id then Show(Seen(s.log, room, x), e.frame) else Seen(s.log, room, x) {
      SeenSnoc(s.log, e, room, x);
    }
    if !(announced && e.room == doc.room) && doc != s.messages[id] {
      assert Seen(s.log, doc.room, id) == Stored(Some(s.messages[id]), doc.room);
      assert Seen(t.log, doc.room, id) == Seen(s.log, doc.room, id);
      assert Stored(Some(doc), doc.room) != Stored(Some(s.messages[id]), doc.room);
    }
  }

  /** An operation keeps the live views and the history in agreement iff it is proper. */
  lemma AgreesStepIff(env: Text, s: State, op: Op)
    requires Faithful(s) && (op.Send? ==> op.uuid != [])
    ensures Agrees(Step(env, s, op)) <==> Proper(env, s, op)
    ensures Proper(env, s, op) ==> Faithful(Step(env, s, op))
  {
    var t := Step(env, s, op);
    match op
    case Send(_, _, _, _, _, _, _) =>
      if SendAccepted(env, op) {
        SendStep(env, s, op);
      }
    case Edit(_, room, _, id, _) =>
      if EditAccepted(env, s, op) {
        ChangeStep(s, t, id, s.messages[id].(text := NewText(env, op)), Announced(env, op),
                   Sent(env.key(room), Edited(id, NewText(env, op))));
      }
    case Delete(_, room, _, id) =>
      if DeleteAccepted(s, op) {
        ChangeStep(s, t, id, s.messages[id].(deleted := true), Announced(env, op), Sent(env.key(room), Deleted(id)));
      }
    case Land(i) =>
      if i < |s.inFlight| {
        LandStep(env, s, i);
      }
  }

  // ------------------------------------------------------------------ whole runs

  ghost predicate AgreesThroughout(env: Text, s: State, ops: seq<Op>)
    decreases |ops|
  {
    Agrees(s) && (ops == [] || AgreesThroughout(env, Step(env, s, ops[0]), ops[1..]))
  }

  predicate AllProper(env: Text, s: State, ops: seq<Op>)
    decreases |ops|
  {
    ops == [] || (Proper(env, s, ops[0]) && AllProper(env, Step(env, s, ops[0]), ops[1..]))
  }

  predicate UuidsGiven(ops: seq<Op>) {
    forall k :: 0 <= k < |ops| && ops[k].Send? ==> ops[k].uuid != []
  }

  lemma {:induction false} AgreesRunIff(env: Text, s: State, ops: seq<Op>)
    requires Faithful(s) && UuidsGiven(ops)
    ensures AgreesThroughout(env, s, ops) <==> AllProper(env, s, ops)
    decreases |ops|
  {
    if ops != [] {
      AgreesStepIff(env, s, ops[0]);
      if Proper(env, s, ops[0]) {
        AgreesRunIff(env, Step(env, s, ops[0]), ops[1..]);
      }
    }
  }

  /** From an empty store, replay and history agree at every point of a run iff every operation in it is proper. */
  lemma LiveViewAgreesIff(ops: seq<Op>)
    requires UuidsGiven(ops)
    ensures AgreesThroughout(Text(Normalize, TrimSpace), START, ops) <==> AllProper(Text(Normalize, TrimSpace), START, ops)
  {
    assert Faithful(START) by {
      assert forall room, id :: Seen(START.log, room, id) == Absent;
    }
    AgreesRunIff(Text(Normalize, TrimSpace), START, ops);
  }

  /** With no save running, the replay shows exactly the documents of the room. */
  lemma QuietViewIsHistory(s: State, room: Str, id: Str)
    requires Faithful(s) && s.inFlight == []
    ensures Seen(s.log, room, id) ==
            if id in s.messages && s.messages[id].room == room
            then Present(s.messages[id].sender, s.messages[id].text, s.messages[id].deleted) else Absent
  {
    assert Seen(s.log, room, id) == Stored(Eventual(s, id), room);
  }

  // ------------------------------------------------------------------ authorship and deletion, in any run

  predicate ByAuthor(op: Op, id: Str, author: Str) {
    (op.Edit? || op.Delete?) && op.id == id && op.user == author
  }

  lemma StepChangesOwn(env: Text, s: State, op: Op, id: Str)
    requires id in s.messages
    ensures var t := Step(env, s, op);
            && id in t.messages
            && t.messages[id].room == s.messages[id].room && t.messages[id].sender == s.messages[id].sender
            && (!ByAuthor(op, id, s.messages[id].sender) ==> t.messages[id] == s.messages[id])
            && (s.messages[id].deleted ==> t.messages[id] == s.messages[id])
  {
  }

  /**
   In every run, proper or not, a stored message keeps its room and author; it changes only if its author
   edits or deletes it; and a deleted message never changes again.
   */
  lemma {:induction false} OnlyAuthorChanges(env: Text, s: State, ops: seq<Op>, id: Str)
    requires id in s.messages
    ensures var t := Run(env, s, ops);
            && id in t.messages
            && t.messages[id].room == s.messages[id].room && t.messages[id].sender == s.messages[id].sender
            && ((forall k :: 0 <= k < |ops| ==> !ByAuthor(ops[k], id, s.messages[id].sender)) ==> t.messages[id] == s.messages[id])
            && (s.messages[id].deleted ==> t.messages[id] == s.messages[id])
    decreases |ops|
  {
    if ops != [] {
      StepChangesOwn(env, s, ops[0], id);
      OnlyAuthorChanges(env, Step(env, s, ops[0]), ops[1..], id);
      assert forall k :: 1 <= k < |ops| ==> ops[k] == ops[1..][k - 1];
    }
  }
}
