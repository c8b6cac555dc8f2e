/**
 One pod as a step machine: the life of every Chat stream, the hub's lock-protected regions, the
 broadcasts that enqueue one client at a time under the read lock, and the broker's registry of
 room channels. A region that holds a lock is one action; what the handler does outside the lock is
 an action of its own, so actions of different goroutines interleave freely.
 */
module Streams {
  import opened Bytes
  import Hub
  import Slices

  type Sid = nat

  /** The index-th broadcast of one sequential broadcaster. */
  datatype Message = Message(sender: nat, index: nat)

  /** Where the handler of a stream is. */
  datatype Phase =
    | Admitted      // passed AtCapacity, not yet registered
    | Registered    // in its room, not yet counted
    | Serving       // counted, in the receive loop
    | Waiting       // receive loop ended, blocked on the sender goroutine
    | Unregistered  // out of its room and closed, not yet uncounted
    | Gone          // returned
    | Rejected      // first frame missing or invalid

  /** The goroutine that drains the queue into the network stream. */
  datatype Sender = NotStarted | Running | SendFailed | Drained

  datatype Stream = Stream(room: Str, phase: Phase, sender: Sender, alive: bool,
                           queue: seq<Message>, closes: nat,
                           offered: seq<Message>, consumed: seq<Message>, dropped: nat)

  /** `owner` is the stream whose context the subscription was made with. */
  datatype Room = Room(clients: set<Sid>, channel: nat, owner: Sid, open: bool)

  datatype Delivery = Idle | Delivering(room: Str, rest: set<Sid>)

  datatype Broadcaster = Broadcaster(sent: nat, doing: Delivery)

  datatype State = State(rooms: map<Str, Room>, subs: Slices.Registry, nextChannel: nat,
                         streams: map<Sid, Stream>, broadcasters: map<nat, Broadcaster>,
                         connCnt: int, panicked: bool)

  /**
   maxConns <= 0 is unlimited; `endsWithContext` says that a cancelled context ends a broker receive,
   `deadSendsFail` that a send on a stream whose connection is gone fails.
   */
  datatype Config = Config(maxConns: int, endsWithContext: bool, deadSendsFail: bool)

  datatype Action =
    | Admit(i: Sid)
    | Reject(i: Sid)
    | Register(i: Sid, room: Str)
    | Count(i: Sid)
    | StartSender(i: Sid)
    | Disconnect(i: Sid)
    | EndReceive(i: Sid)
    | SendOk(i: Sid)
    | SendFail(i: Sid)
    | Drain(i: Sid)
    | Unregister(i: Sid)
    | Uncount(i: Sid)
    | BeginBroadcast(b: nat, room: Str)
    | Offer(b: nat, i: Sid)
    | EndBroadcast(b: nat)
    | EndSubscription(room: Str)

  function Init(): State {
    State(map[], map[], 0, map[], map[], 0, false)
  }

  function FreshStream(): Stream {
    Stream([], Admitted, NotStarted, true, [], 0, [], [], 0)
  }

  // -------------------------------------------------------------------- steps

  predicate AtPhase(s: State, i: Sid, p: Phase) {
    i in s.streams && s.streams[i].phase == p
  }

  /** No broadcast is under way in the room: the write lock can be had. */
  predicate Quiet(s: State, room: Str) {
    forall b :: b in s.broadcasters && s.broadcasters[b].doing.Delivering? ==> s.broadcasters[b].doing.room != room
  }

  /** Admission is refused to a full pod; the two library facts are the configuration's. */
  predicate Can(cfg: Config, s: State, a: Action) {
    && Enabled(s, a)
    && (a.Admit? ==> !Hub.Full(cfg.maxConns, s.connCnt))
    && (a.EndSubscription? ==> cfg.endsWithContext)
    && (a.SendOk? && cfg.deadSendsFail ==> s.streams[a.i].alive)
  }

  predicate Enabled(s: State, a: Action) {
    match a
    case Admit(i) => i !in s.streams
    case Reject(i) => AtPhase(s, i, Admitted)
    case Register(i, room) => AtPhase(s, i, Admitted) && Quiet(s, room)
    case Count(i) => AtPhase(s, i, Phase.Registered)
    case StartSender(i) => AtPhase(s, i, Serving) && s.streams[i].sender == NotStarted
    case Disconnect(i) => i in s.streams
    case EndReceive(i) => AtPhase(s, i, Serving) && s.streams[i].sender != NotStarted
    case SendOk(i) => i in s.streams && s.streams[i].sender == Running && s.streams[i].queue != []
    case SendFail(i) => i in s.streams && s.streams[i].sender == Running && s.streams[i].queue != []
    case Drain(i) => i in s.streams && s.streams[i].sender == Running && s.streams[i].queue == [] && s.streams[i].closes > 0
    case Unregister(i) =>
      AtPhase(s, i, Waiting) && s.streams[i].sender in {SendFailed, Drained} && Quiet(s, s.streams[i].room)
    case Uncount(i) => AtPhase(s, i, Phase.Unregistered)
    case BeginBroadcast(b, room) => b in s.broadcasters ==> s.broadcasters[b].doing.Idle?
    case Offer(b, i) =>
      b in s.broadcasters && s.broadcasters[b].doing.Delivering? && i in s.broadcasters[b].doing.rest &&
      i in s.streams && s.broadcasters[b].sent > 0
    case EndBroadcast(b) =>
      b in s.broadcasters && s.broadcasters[b].doing.Delivering? && s.broadcasters[b].doing.rest == {}
    case EndSubscription(room) =>
      room in s.rooms && s.rooms[room].open &&
      s.rooms[room].owner in s.streams && !s.streams[s.rooms[room].owner].alive
  }

  function Popped(x: Stream): Stream
    requires x.queue != []
  {
    x.(queue := x.queue[1..], consumed := x.consumed + [x.queue[0]])
  }

  /** The hub's offer: enqueue, or drop when the queue is full. */
  function Took(x: Stream, m: Message): Stream {
    x.(offered := x.offered + [m], queue := Hub.Offered(x.queue, m),
       dropped := x.dropped + if |x.queue| < Hub.QUEUE_CAPACITY then 0 else 1)
  }

  /** The queue is closed only when the stream's room is found. */
  function Closed(s: State, x: Stream): Stream {
    x.(phase := Phase.Unregistered, closes := x.closes + if x.room in s.rooms then 1 else 0)
  }

  function StreamsAfter(s: State, a: Action): map<Sid, Stream>
    requires Enabled(s, a)
  {
    var m := s.streams;
    match a
    case Admit(i) => m[i := FreshStream()]
    case Reject(i) => m[i := m[i].(phase := Rejected)]
    case Register(i, room) => m[i := m[i].(phase := Phase.Registered, room := room)]
    case Count(i) => m[i := m[i].(phase := Serving)]
    case StartSender(i) => m[i := m[i].(sender := Running)]
    case Disconnect(i) => m[i := m[i].(alive := false)]
    case EndReceive(i) => m[i := m[i].(phase := Waiting)]
    case SendOk(i) => m[i := Popped(m[i])]
    case SendFail(i) => m[i := Popped(m[i]).(sender := SendFailed)]
    case Drain(i) => m[i := m[i].(sender := Drained)]
    case Unregister(i) => m[i := Closed(s, m[i])]
    case Uncount(i) => m[i := m[i].(phase := Gone)]
    case Offer(b, i) => m[i := Took(m[i], Message(b, s.broadcasters[b].sent - 1))]
    case BeginBroadcast(_, _) => m
    case EndBroadcast(_) => m
    case EndSubscription(_) => m
  }

  function Joined(s: State, i: Sid, room: Str): map<Str, Room> {
    s.rooms[room := if room in s.rooms then s.rooms[room].(clients := s.rooms[room].clients + {i})
                    else Room({i}, s.nextChannel, i, true)]
  }

  function Departed(s: State, i: Sid, room: Str): map<Str, Room> {
    if room !in s.rooms then s.rooms
    else if s.rooms[room].clients - {i} == {} then s.rooms - {room}
    else s.rooms[room := s.rooms[room].(clients := s.rooms[room].clients - {i})]
  }

  function RoomsAfter(s: State, a: Action): map<Str, Room>
    requires Enabled(s, a)
  {
    match a
    case Register(i, room) => Joined(s, i, room)
    case Unregister(i) => Departed(s, i, s.streams[i].room)
    case EndSubscription(room) => s.rooms[room := s.rooms[room].(open := false)]
    case _ => s.rooms
  }

  /** Register subscribes when it creates the room, Unregister cancels when it deletes it. */
  function SubsAfter(s: State, a: Action): Slices.Registry
    requires Enabled(s, a)
  {
    match a
    case Register(i, room) =>
      if room in s.rooms then s.subs else Slices.Subscribed(s.subs, room, s.nextChannel)
    case Unregister(i) =>
      var room := s.streams[i].room;
      if room in s.rooms && s.rooms[room].clients - {i} == {} then Slices.Cancelled(s.subs, room, s.rooms[room].channel)
      else s.subs
    case _ => s.subs
  }

  function BroadcastersAfter(s: State, a: Action): map<nat, Broadcaster>
    requires Enabled(s, a)
  {
    var m := s.broadcasters;
    match a
    case BeginBroadcast(b, room) =>
      m[b := Broadcaster((if b in m then m[b].sent else 0) + 1,
                         Delivering(room, if room in s.rooms then s.rooms[room].clients else {}))]
    case Offer(b, i) => m[b := m[b].(doing := m[b].doing.(rest := m[b].doing.rest - {i}))]
    case EndBroadcast(b) => m[b := m[b].(doing := Idle)]
    case _ => m
  }

  /** Sending on a closed queue panics, and so does closing one again. */
  predicate Panics(s: State, a: Action)
    requires Enabled(s, a)
  {
    match a
    case Offer(_, i) => s.streams[i].closes > 0
    case Unregister(i) => s.streams[i].room in s.rooms && s.streams[i].closes > 0
    case _ => false
  }

  function Do(cfg: Config, s: State, a: Action): State
    requires Can(cfg, s, a)
  {
    State(RoomsAfter(s, a), SubsAfter(s, a),
          s.nextChannel + if a.Register? && a.room !in s.rooms then 1 else 0,
          StreamsAfter(s, a), BroadcastersAfter(s, a),
          s.connCnt + (if a.Count? then 1 else if a.Uncount? then -1 else 0),
          s.panicked || Panics(s, a))
  }

  datatype Outcome = Stuck | At(state: State)

  /** The state after a run, or Stuck when some action of it was not enabled. */
  function Run(cfg: Config, s: State, run: seq<Action>): Outcome
    decreases |run|
  {
    if run == [] then At(s)
    else if Can(cfg, s, run[0]) then Run(cfg, Do(cfg, s, run[0]), run[1..])
    else Stuck
  }
}
