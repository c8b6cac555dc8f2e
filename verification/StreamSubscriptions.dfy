/**
 The hub's rooms against the broker's registry of channels, and what a context-bound subscription
 does to a room that outlives its first client.
 */
module StreamSubscriptions {
  import opened Bytes
  import opened Streams
  import opened StreamSafety
  import Slices

  /** The broker holds, for each room of the hub and for no other, that room's one channel. */
  predicate Corresponds(s: State) {
    && s.rooms.Keys == s.subs.Keys
    && (forall r :: r in s.rooms ==> s.subs[r] == [s.rooms[r].channel])
  }

  /** Channels are never shared between rooms. */
  predicate ChannelsDistinct(s: State) {
    && (forall r :: r in s.rooms ==> s.rooms[r].channel < s.nextChannel)
    && (forall r, q :: r in s.rooms && q in s.rooms && s.rooms[r].channel == s.rooms[q].channel ==> r == q)
  }

  /** A room's subscription has ended only if its owner's context is gone and the library heeds it. */
  predicate OpenUnlessOrphaned(cfg: Config, s: State) {
    forall r :: r in s.rooms ==>
      s.rooms[r].owner in s.streams &&
      (!s.rooms[r].open ==> cfg.endsWithContext && !s.streams[s.rooms[r].owner].alive)
  }

  predicate Subscribed(cfg: Config, s: State) {
    Corresponds(s) && ChannelsDistinct(s) && OpenUnlessOrphaned(cfg, s)
  }

  predicate OwnerAlive(s: State, room: Str)
    requires room in s.rooms
  {
    s.rooms[room].owner in s.streams && s.streams[s.rooms[room].owner].alive
  }

  lemma CancelOnly(subs: Slices.Registry, room: Str, channel: nat)
    requires room in subs && subs[room] == [channel]
    ensures Slices.Cancelled(subs, room, channel) == subs - {room}
  {
    var i := Slices.Position([channel], channel);
    assert i == 0;
    assert Slices.Without([channel], 0) == [];
  }

  lemma RegisterCorresponds(s: State, t: State, i: Sid, room: Str)
    requires Corresponds(s) && ChannelsDistinct(s)
    requires t.rooms == Joined(s, i, room)
    requires t.subs == if room in s.rooms then s.subs else Slices.Subscribed(s.subs, room, s.nextChannel)
    requires t.nextChannel == s.nextChannel + if room !in s.rooms then 1 else 0
    ensures Corresponds(t) && ChannelsDistinct(t)
  {
    if room in s.rooms {
      assert t.rooms.Keys == s.rooms.Keys;
      assert t.rooms[room].channel == s.rooms[room].channel;
    } else {
      assert Slices.Channels(s.subs, room) + [s.nextChannel] == [s.nextChannel];
      assert t.rooms.Keys == s.rooms.Keys + {room} && t.subs.Keys == s.subs.Keys + {room};
    }
  }

  lemma UnregisterCorresponds(s: State, t: State, i: Sid, room: Str)
    requires Corresponds(s) && ChannelsDistinct(s) && room in s.rooms
    requires t.rooms == Departed(s, i, room) && t.nextChannel == s.nextChannel
    requires t.subs == if s.rooms[room].clients - {i} == {} then s.subs - {room} else s.subs
    ensures Corresponds(t) && ChannelsDistinct(t)
  {
  }

  lemma CorrespondsStep(s: State, t: State, a: Action)
    requires Corresponds(s) && ChannelsDistinct(s) && Enabled(s, a)
    requires t.rooms == RoomsAfter(s, a) && t.subs == SubsAfter(s, a)
    requires t.nextChannel == s.nextChannel + if a.Register? && a.room !in s.rooms then 1 else 0
    ensures Corresponds(t) && ChannelsDistinct(t)
  {
    if a.Register? {
      RegisterCorresponds(s, t, a.i, a.room);
    } else if a.Unregister? {
      var room := s.streams[a.i].room;
      if room in s.rooms {
        CancelOnly(s.subs, room, s.rooms[room].channel);
        UnregisterCorresponds(s, t, a.i, room);
      }
    }
  }

  /** Streams are never forgotten, and a cancelled context stays cancelled. */
  lemma AliveStep(s: State, t: State, a: Action, i: Sid)
    requires Enabled(s, a) && t.streams == StreamsAfter(s, a) && i in s.streams
    ensures i in t.streams && (t.streams[i].alive ==> s.streams[i].alive)
  {
  }

  lemma OrphanStep(cfg: Config, s: State, t: State, a: Action)
    requires OpenUnlessOrphaned(cfg, s) && Can(cfg, s, a)
    requires t.rooms == RoomsAfter(s, a) && t.streams == StreamsAfter(s, a)
    ensures OpenUnlessOrphaned(cfg, t)
  {
    forall r | r in t.rooms
      ensures t.rooms[r].owner in t.streams &&
              (!t.rooms[r].open ==> cfg.endsWithContext && !t.streams[t.rooms[r].owner].alive)
    {
      if r in s.rooms {
        AliveStep(s, t, a, s.rooms[r].owner);
      }
    }
  }

  lemma {:induction false} SubscribedRun(cfg: Config, s: State, run: seq<Action>)
    requires Subscribed(cfg, s) && Run(cfg, s, run).At?
    ensures Subscribed(cfg, Run(cfg, s, run).state)
    decreases |run|
  {
    if run != [] {
      var t := Do(cfg, s, run[0]);
      CorrespondsStep(s, t, run[0]);
      OrphanStep(cfg, s, t, run[0]);
      SubscribedRun(cfg, t, run[1..]);
    }
  }

  /**
   At every state of every run a room exists in the hub iff it has a client iff the broker holds
   exactly one channel for it; and with a broker that ignores contexts that channel is open.
   */
  lemma OneChannelPerRoom(cfg: Config, run: seq<Action>, room: Str)
    requires Run(cfg, Init(), run).At?
    ensures var s := Run(cfg, Init(), run).state;
            && (room in s.rooms <==> Clients(s, room) != {})
            && (room in s.rooms <==> |Slices.Channels(s.subs, room)| == 1)
            && (room !in s.rooms <==> Slices.Channels(s.subs, room) == [])
            && (room in s.rooms && !cfg.endsWithContext ==> s.rooms[room].open)
            && (room in s.rooms && OwnerAlive(s, room) ==> s.rooms[room].open)
  {
    SubscribedRun(cfg, Init(), run);
    SafeRun(cfg, Init(), run);
  }

  predicate Survives(cfg: Config, s: State, run: seq<Action>, room: Str)
    decreases |run|
  {
    room in s.rooms && (run != [] && Can(cfg, s, run[0]) ==> Survives(cfg, Do(cfg, s, run[0]), run[1..], room))
  }

  predicate NotDisconnected(run: seq<Action>, i: Sid) {
    forall k :: 0 <= k < |run| ==> run[k] != Disconnect(i)
  }

  /** The room's subscription is open and nothing but a disconnect of its owner can change that. */
  predicate Lasting(cfg: Config, s: State, room: Str, owner: Sid) {
    && room in s.rooms && s.rooms[room].open && s.rooms[room].owner == owner
    && (cfg.endsWithContext ==> owner in s.streams && s.streams[owner].alive)
  }

  lemma LastingStep(cfg: Config, s: State, t: State, a: Action, room: Str, owner: Sid)
    requires Lasting(cfg, s, room, owner) && Can(cfg, s, a) && a != Disconnect(owner)
    requires t.rooms == RoomsAfter(s, a) && t.streams == StreamsAfter(s, a) && room in t.rooms
    ensures Lasting(cfg, t, room, owner)
  {
  }

  lemma {:induction false} LastingRun(cfg: Config, s: State, run: seq<Action>, room: Str, owner: Sid)
    requires Lasting(cfg, s, room, owner) && Run(cfg, s, run).At?
    requires Survives(cfg, s, run, room) && NotDisconnected(run, owner)
    ensures Lasting(cfg, Run(cfg, s, run).state, room, owner)
    decreases |run|
  {
    if run != [] {
      assert run[0] != Disconnect(owner);
      var t := Do(cfg, s, run[0]);
      LastingStep(cfg, s, t, run[0], room, owner);
      LastingRun(cfg, t, run[1..], room, owner);
    }
  }

  /** In every continuation in which the room keeps a client and its owner is not disconnected, it stays open. */
  ghost predicate KeepsOpen(cfg: Config, s: State, room: Str)
    requires room in s.rooms
  {
    forall run :: Run(cfg, s, run).At? && Survives(cfg, s, run, room) && NotDisconnected(run, s.rooms[room].owner)
                  ==> OpenIn(Run(cfg, s, run).state, room)
  }

  predicate OpenIn(s: State, room: Str) {
    room in s.rooms && s.rooms[room].open
  }

  lemma EndsAtOnce(cfg: Config, s: State, room: Str)
    requires OpenIn(s, room) && cfg.endsWithContext && s.rooms[room].owner in s.streams && !OwnerAlive(s, room)
    ensures !KeepsOpen(cfg, s, room)
  {
    var run := [EndSubscription(room)];
    var t := Do(cfg, s, run[0]);
    assert run[1..] == [] && Run(cfg, t, []) == At(t);
    assert Survives(cfg, t, [], room) && Survives(cfg, s, run, room);
    assert !OpenIn(Run(cfg, s, run).state, room);
  }

  /**
   Exactly when an open subscription is safe, at any state of any run: the broker ignores contexts, or the
   stream that made it is still connected.
   */
  lemma StaysOpenIff(cfg: Config, before: seq<Action>, room: Str)
    requires Run(cfg, Init(), before).At? && OpenIn(Run(cfg, Init(), before).state, room)
    ensures var s := Run(cfg, Init(), before).state;
            KeepsOpen(cfg, s, room) <==> !cfg.endsWithContext || OwnerAlive(s, room)
  {
    var s := Run(cfg, Init(), before).state;
    SubscribedRun(cfg, Init(), before);
    if !cfg.endsWithContext || OwnerAlive(s, room) {
      forall run | Run(cfg, s, run).At? && Survives(cfg, s, run, room) && NotDisconnected(run, s.rooms[room].owner)
        ensures OpenIn(Run(cfg, s, run).state, room)
      {
        LastingRun(cfg, s, run, room, s.rooms[room].owner);
      }
    } else {
      EndsAtOnce(cfg, s, room);
    }
  }

  /** The room exists with the given subscription ended. */
  predicate Deaf(s: State, room: Str, channel: nat) {
    room in s.rooms && s.rooms[room].channel == channel && !s.rooms[room].open
  }

  /** A room that loses its subscription stays without one for as long as it keeps any client. */
  lemma {:induction false} DeafUntilEmpty(cfg: Config, s: State, run: seq<Action>, room: Str, channel: nat)
    requires Deaf(s, room, channel) && Run(cfg, s, run).At? && Survives(cfg, s, run, room)
    ensures Deaf(Run(cfg, s, run).state, room, channel)
    decreases |run|
  {
    if run != [] {
      var t := Do(cfg, s, run[0]);
      assert room in t.rooms;
      DeafStep(s, t, run[0], room, channel);
      DeafUntilEmpty(cfg, t, run[1..], room, channel);
    }
  }

  lemma DeafStep(s: State, t: State, a: Action, room: Str, channel: nat)
    requires Deaf(s, room, channel) && Enabled(s, a) && t.rooms == RoomsAfter(s, a) && room in t.rooms
    ensures Deaf(t, room, channel)
  {
  }

  /** The room has a client whose stream is alive, but its subscription has ended. */
  predicate Cut(s: State, room: Str) {
    room in s.rooms && !s.rooms[room].open && exists i :: i in s.rooms[room].clients && i in s.streams && s.streams[i].alive
  }

  predicate Leads(cfg: Config, s: State, run: seq<Action>, room: Str) {
    Run(cfg, s, run).At? && Cut(Run(cfg, s, run).state, room)
  }

  lemma LeadsFirst(cfg: Config, s: State, a: Action, rest: seq<Action>, room: Str)
    requires Can(cfg, s, a) && Leads(cfg, Do(cfg, s, a), rest, room)
    ensures Leads(cfg, s, [a] + rest, room)
  {
    assert ([a] + rest)[1..] == rest;
  }

  /** Streams 0 and 1 admitted, those before n already in the room. */
  predicate Joining(s: State, room: Str, n: nat) {
    && s.broadcasters == map[]
    && 0 in s.streams && 1 in s.streams && s.streams[0].alive && s.streams[1].alive
    && (n == 0 ==> s.streams[0].phase == Admitted && room !in s.rooms)
    && (n < 2 ==> s.streams[1].phase == Admitted)
    && (n > 0 ==> room in s.rooms && s.rooms[room].owner == 0 && s.rooms[room].open)
    && (n == 2 ==> 1 in s.rooms[room].clients)
  }

  lemma DisconnectLeads(cfg: Config, s: State, room: Str)
    requires cfg.endsWithContext && Joining(s, room, 2)
    ensures Leads(cfg, s, [Disconnect(0), EndSubscription(room)], room)
  {
    var t := Do(cfg, s, Disconnect(0));
    var u := Do(cfg, t, EndSubscription(room));
    assert 1 in u.rooms[room].clients && u.streams[1].alive;
    LeadsFirst(cfg, t, EndSubscription(room), [], room);
    LeadsFirst(cfg, s, Disconnect(0), [EndSubscription(room)], room);
  }

  lemma JoinsLead(cfg: Config, s: State, room: Str)
    requires cfg.endsWithContext && Joining(s, room, 0)
    ensures exists run :: Leads(cfg, s, run, room)
  {
    var t := Do(cfg, s, Register(0, room));
    assert Joining(t, room, 1);
    var u := Do(cfg, t, Register(1, room));
    DisconnectLeads(cfg, u, room);
    var last := [Disconnect(0), EndSubscription(room)];
    LeadsFirst(cfg, t, Register(1, room), last, room);
    LeadsFirst(cfg, s, Register(0, room), [Register(1, room)] + last, room);
  }

  /**
   With a context-bound broker the correspondence does break: two clients join, the first disconnects,
   and the room is left with a live client and no open subscription. Any room will do.
   */
  lemma FirstContextEndsSubscription(cfg: Config, room: Str)
    requires cfg.endsWithContext
    ensures exists run :: Run(cfg, Init(), run).At? && Cut(Run(cfg, Init(), run).state, room)
  {
    var s := Do(cfg, Init(), Admit(0));
    var t := Do(cfg, s, Admit(1));
    JoinsLead(cfg, t, room);
    var run :| Leads(cfg, t, run, room);
    LeadsFirst(cfg, s, Admit(1), run, room);
    LeadsFirst(cfg, Init(), Admit(0), [Admit(1)] + run, room);
  }
}
