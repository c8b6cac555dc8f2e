/**
 What every run of the step machine keeps about membership and closing: rooms hold exactly the
 streams that are registered, a queue is closed exactly when its stream has left, and so no
 broadcast ever sends to a closed queue and no queue is closed twice.
 */
module StreamSafety {
  import opened Bytes
  import opened Streams
  import Hub

  predicate Present(x: Stream) {
    x.phase == Phase.Registered || x.phase == Serving || x.phase == Waiting
  }

  predicate Left(x: Stream) {
    x.phase == Phase.Unregistered || x.phase == Gone
  }

  function Clients(s: State, room: Str): set<Sid> {
    if room in s.rooms then s.rooms[room].clients else {}
  }

  /** A stream is a client of a room iff it is present and names that room; no room is empty. */
  ghost predicate Membership(s: State) {
    && NoEmptyRoom(s)
    && (forall i, r :: MemberIff(s, i, r))
  }

  predicate ClosedOnce(s: State) {
    forall i :: i in s.streams ==> ClosedIffLeft(s.streams[i])
  }

  /** A broadcast under way has only clients of its room left to visit. */
  predicate ReadersInside(s: State) {
    forall b :: b in s.broadcasters && s.broadcasters[b].doing.Delivering? ==>
      s.broadcasters[b].sent > 0 &&
      s.broadcasters[b].doing.rest <= Clients(s, s.broadcasters[b].doing.room)
  }

  ghost predicate Safe(s: State) {
    Membership(s) && ClosedOnce(s) && ReadersInside(s) && !s.panicked
  }

  // ------------------------------------------------------------- what a step does to the rooms

  function ClientsAfter(s: State, a: Action, r: Str): set<Sid> {
    match a
    case Register(i, room) => if r == room then Clients(s, r) + {i} else Clients(s, r)
    case Unregister(i) => if i in s.streams && r == s.streams[i].room then Clients(s, r) - {i} else Clients(s, r)
    case _ => Clients(s, r)
  }

  predicate NoEmptyRoom(s: State) {
    forall r :: r in s.rooms ==> s.rooms[r].clients != {}
  }

  lemma ClientsStep(s: State, t: State, a: Action, r: Str)
    requires NoEmptyRoom(s) && Enabled(s, a) && t.rooms == RoomsAfter(s, a)
    ensures Clients(t, r) == ClientsAfter(s, a, r)
    ensures NoEmptyRoom(t)
  {
  }

  /** The rooms of the step machine as the flat hub that ShardedHub implements. */
  function Flat(rooms: map<Str, Room>): Hub.Rooms<Sid> {
    map r | r in rooms :: rooms[r].clients
  }

  /** The machine moves the flat hub as ShardedHub's Register and Unregister do, and no other step moves it. */
  lemma StepsMoveFlatHub(s: State, a: Action)
    requires Enabled(s, a)
    ensures Flat(RoomsAfter(s, a)) ==
            match a
            case Register(i, room) => Hub.Registered(Flat(s.rooms), room, i)
            case Unregister(i) => Hub.Unregistered(Flat(s.rooms), s.streams[i].room, i)
            case _ => Flat(s.rooms)
  {
    if a.Register? {
      FlatJoined(s, a.i, a.room);
    } else if a.Unregister? {
      FlatDeparted(s, a.i, s.streams[a.i].room);
    }
  }

  lemma FlatJoined(s: State, i: Sid, room: Str)
    ensures Flat(Joined(s, i, room)) == Hub.Registered(Flat(s.rooms), room, i)
  {
    assert {} + {i} == {i};
  }

  lemma FlatDeparted(s: State, i: Sid, room: Str)
    ensures Flat(Departed(s, i, room)) == Hub.Unregistered(Flat(s.rooms), room, i)
  {
  }

  /** The stream an action moves, if any. */
  function Subject(a: Action): set<Sid> {
    match a
    case Admit(i) => {i}
    case Reject(i) => {i}
    case Register(i, _) => {i}
    case Count(i) => {i}
    case StartSender(i) => {i}
    case Disconnect(i) => {i}
    case EndReceive(i) => {i}
    case SendOk(i) => {i}
    case SendFail(i) => {i}
    case Drain(i) => {i}
    case Unregister(i) => {i}
    case Uncount(i) => {i}
    case Offer(_, i) => {i}
    case BeginBroadcast(_, _) => {}
    case EndBroadcast(_) => {}
    case EndSubscription(_) => {}
  }

  lemma OtherStreams(s: State, t: State, a: Action, j: Sid)
    requires Enabled(s, a) && t.streams == StreamsAfter(s, a) && j !in Subject(a)
    ensures j in t.streams <==> j in s.streams
    ensures j in s.streams ==> t.streams[j] == s.streams[j]
  {
  }

  // ---------------------------------------------------------------------------- the invariant

  predicate MemberIff(s: State, i: Sid, r: Str) {
    i in Clients(s, r) <==> i in s.streams && Present(s.streams[i]) && s.streams[i].room == r
  }

  lemma MemberStep(s: State, t: State, a: Action, i: Sid, r: Str)
    requires Membership(s) && Enabled(s, a) && t.rooms == RoomsAfter(s, a) && t.streams == StreamsAfter(s, a)
    ensures MemberIff(t, i, r)
  {
    ClientsStep(s, t, a, r);
    assert MemberIff(s, i, r);
    if i !in Subject(a) {
      OtherStreams(s, t, a, i);
    }
  }

  lemma MembershipStep(s: State, t: State, a: Action)
    requires Membership(s) && Enabled(s, a) && t.rooms == RoomsAfter(s, a) && t.streams == StreamsAfter(s, a)
    ensures Membership(t)
  {
    ClientsStep(s, t, a, []);
    forall i, r ensures MemberIff(t, i, r) {
      MemberStep(s, t, a, i, r);
    }
  }

  predicate ClosedIffLeft(x: Stream) {
    x.closes == if Left(x) then 1 else 0
  }

  lemma ClosedStep(s: State, t: State, a: Action, j: Sid)
    requires Membership(s) && ClosedOnce(s) && Enabled(s, a) && t.streams == StreamsAfter(s, a)
    requires j in t.streams
    ensures ClosedIffLeft(t.streams[j])
  {
    if j !in Subject(a) {
      OtherStreams(s, t, a, j);
    } else if a.Unregister? {
      assert MemberIff(s, j, s.streams[j].room);
    }
  }

  lemma NoPanicStep(s: State, a: Action)
    requires Safe(s) && Enabled(s, a)
    ensures !Panics(s, a)
  {
    if a.Offer? {
      assert MemberIff(s, a.i, s.broadcasters[a.b].doing.room);
    }
  }

  lemma ReadersInsideStep(s: State, t: State, a: Action)
    requires Safe(s) && Enabled(s, a)
    requires t.rooms == RoomsAfter(s, a) && t.broadcasters == BroadcastersAfter(s, a)
    ensures ReadersInside(t)
  {
    forall b | b in t.broadcasters && t.broadcasters[b].doing.Delivering?
      ensures t.broadcasters[b].sent > 0
      ensures t.broadcasters[b].doing.rest <= Clients(t, t.broadcasters[b].doing.room)
    {
      ClientsStep(s, t, a, t.broadcasters[b].doing.room);
    }
  }

  lemma SafeStep(cfg: Config, s: State, a: Action)
    requires Safe(s) && Can(cfg, s, a)
    ensures Safe(Do(cfg, s, a))
  {
    var t := Do(cfg, s, a);
    MembershipStep(s, t, a);
    forall j | j in t.streams ensures ClosedIffLeft(t.streams[j]) {
      ClosedStep(s, t, a, j);
    }
    NoPanicStep(s, a);
    ReadersInsideStep(s, t, a);
  }

  lemma {:induction false} SafeRun(cfg: Config, s: State, run: seq<Action>)
    requires Safe(s) && Run(cfg, s, run).At?
    ensures Safe(Run(cfg, s, run).state)
    decreases |run|
  {
    if run != [] {
      SafeStep(cfg, s, run[0]);
      SafeRun(cfg, Do(cfg, s, run[0]), run[1..]);
    }
  }

  predicate Open(s: State, i: Sid) {
    i in s.streams && s.streams[i].closes == 0
  }

  /**
   In every interleaving, at every state: nothing has panicked on a closed queue; a registered
   stream's queue is open; no queue has been closed twice; and a broadcast under way has only open
   queues left to send to.
   */
  lemma NoSendOnClosed(cfg: Config, run: seq<Action>)
    requires Run(cfg, Init(), run).At?
    ensures var s := Run(cfg, Init(), run).state;
            && !s.panicked
            && (forall r, i :: i in Clients(s, r) ==> Open(s, i))
            && (forall i :: i in s.streams ==> s.streams[i].closes <= 1)
            && (forall b :: b in s.broadcasters && s.broadcasters[b].doing.Delivering? ==>
                  forall i :: i in s.broadcasters[b].doing.rest ==> Open(s, i))
  {
    SafeRun(cfg, Init(), run);
    var s := Run(cfg, Init(), run).state;
    forall r, i | i in Clients(s, r) ensures Open(s, i) {
      assert MemberIff(s, i, r);
    }
  }
}
