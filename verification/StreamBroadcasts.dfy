/**
 Whom a broadcast of the step machine reaches. It visits its room's clients one at a time while other
 broadcasts, senders and handlers run; by its end it has offered its message once to every stream that was
 a client when it began, and to nobody else.
 */
module StreamBroadcasts {
  import opened Bytes
  import opened Streams
  import opened StreamSafety

  function SentBy(s: State, b: nat): nat {
    if b in s.broadcasters then s.broadcasters[b].sent else 0
  }

  /** How often a message has been offered to a stream. */
  function Offers(s: State, i: Sid, m: Message): nat {
    if i in s.streams then multiset(s.streams[i].offered)[m] else 0
  }

  // ------------------------------------------------------------------ nothing is offered early

  /** A broadcaster's later messages have not been offered yet. */
  predicate NotYet(s: State, b: nat, n: nat, i: Sid) {
    SentBy(s, b) <= n ==> Offers(s, i, Message(b, n)) == 0
  }

  /** What a step does to the offers of one message. */
  lemma OffersStep(s: State, t: State, a: Action, i: Sid, m: Message)
    requires Enabled(s, a) && t.streams == StreamsAfter(s, a)
    ensures Offers(t, i, m) ==
            Offers(s, i, m) + if a.Offer? && a.i == i && m == Message(a.b, SentBy(s, a.b) - 1) then 1 else 0
  {
    if i !in Subject(a) {
      OtherStreams(s, t, a, i);
    }
  }

  lemma SentStep(s: State, t: State, a: Action, b: nat)
    requires Enabled(s, a) && t.broadcasters == BroadcastersAfter(s, a)
    ensures SentBy(t, b) == SentBy(s, b) + if a.BeginBroadcast? && a.b == b then 1 else 0
  {
  }

  lemma {:induction false} NotYetRun(cfg: Config, s: State, run: seq<Action>, b: nat, n: nat, i: Sid)
    requires NotYet(s, b, n, i) && Run(cfg, s, run).At?
    ensures NotYet(Run(cfg, s, run).state, b, n, i)
    decreases |run|
  {
    if run != [] {
      var t := Do(cfg, s, run[0]);
      OffersStep(s, t, run[0], i, Message(b, n));
      SentStep(s, t, run[0], b);
      NotYetRun(cfg, t, run[1..], b, n, i);
    }
  }

  // ------------------------------------------------------------------ one broadcast under way

  /** The n-th broadcast of b is still visiting. */
  predicate Visiting(s: State, b: nat, n: nat) {
    b in s.broadcasters && s.broadcasters[b].sent == n + 1 && s.broadcasters[b].doing.Delivering?
  }

  predicate Unvisited(s: State, b: nat, n: nat, i: Sid) {
    Visiting(s, b, n) && i in s.broadcasters[b].doing.rest
  }

  /** Each stream of the audience has been offered the message once if it was visited, and no other ever. */
  predicate Served(s: State, b: nat, n: nat, audience: set<Sid>, i: Sid) {
    && SentBy(s, b) > n
    && (Unvisited(s, b, n, i) ==> i in audience)
    && Offers(s, i, Message(b, n)) == if i in audience && !Unvisited(s, b, n, i) then 1 else 0
  }

  lemma UnvisitedStep(s: State, t: State, a: Action, b: nat, n: nat, i: Sid)
    requires Enabled(s, a) && t.broadcasters == BroadcastersAfter(s, a) && SentBy(s, b) > n
    ensures Unvisited(t, b, n, i) <==> Unvisited(s, b, n, i) && !(a.Offer? && a.b == b && a.i == i)
  {
  }

  lemma ServedStep(s: State, t: State, a: Action, b: nat, n: nat, audience: set<Sid>, i: Sid)
    requires Served(s, b, n, audience, i) && Enabled(s, a)
    requires t.streams == StreamsAfter(s, a) && t.broadcasters == BroadcastersAfter(s, a)
    ensures Served(t, b, n, audience, i)
  {
    OffersStep(s, t, a, i, Message(b, n));
    SentStep(s, t, a, b);
    UnvisitedStep(s, t, a, b, n, i);
  }

  lemma {:induction false} ServedRun(cfg: Config, s: State, run: seq<Action>, b: nat, n: nat, audience: set<Sid>, i: Sid)
    requires Served(s, b, n, audience, i) && Run(cfg, s, run).At?
    ensures Served(Run(cfg, s, run).state, b, n, audience, i)
    decreases |run|
  {
    if run != [] {
      ServedStep(s, Do(cfg, s, run[0]), run[0], b, n, audience, i);
      ServedRun(cfg, Do(cfg, s, run[0]), run[1..], b, n, audience, i);
    }
  }

  lemma BeginServes(cfg: Config, s: State, b: nat, room: Str, i: Sid)
    requires Enabled(s, BeginBroadcast(b, room)) && NotYet(s, b, SentBy(s, b), i)
    ensures Served(Do(cfg, s, BeginBroadcast(b, room)), b, SentBy(s, b), Clients(s, room), i)
  {
    var t := Do(cfg, s, BeginBroadcast(b, room));
    OffersStep(s, t, BeginBroadcast(b, room), i, Message(b, SentBy(s, b)));
  }

  /**
   Every run before a broadcast, every run after its begin: at any state after its end, its message has been
   offered exactly once to every stream that was a client of the room when it began, and never to another.
   */
  lemma BroadcastReachesRoom(cfg: Config, before: seq<Action>, b: nat, room: Str, after: seq<Action>, i: Sid)
    requires Run(cfg, Init(), before).At?
    requires var s := Run(cfg, Init(), before).state;
             && Can(cfg, s, BeginBroadcast(b, room))
             && Run(cfg, Do(cfg, s, BeginBroadcast(b, room)), after).At?
             && !Visiting(Run(cfg, Do(cfg, s, BeginBroadcast(b, room)), after).state, b, SentBy(s, b))
    ensures var s := Run(cfg, Init(), before).state;
            var t := Run(cfg, Do(cfg, s, BeginBroadcast(b, room)), after).state;
            Offers(t, i, Message(b, SentBy(s, b))) == if i in Clients(s, room) then 1 else 0
  {
    var s := Run(cfg, Init(), before).state;
    NotYetRun(cfg, Init(), before, b, SentBy(s, b), i);
    BeginServes(cfg, s, b, room, i);
    ServedRun(cfg, Do(cfg, s, BeginBroadcast(b, room)), after, b, SentBy(s, b), Clients(s, room), i);
  }

  // ------------------------------------------------------------------ and it can always end

  predicate Finishes(cfg: Config, s: State, run: seq<Action>, b: nat) {
    && Run(cfg, s, run).At? && b in Run(cfg, s, run).state.broadcasters
    && Run(cfg, s, run).state.broadcasters[b].doing.Idle?
    && SentBy(Run(cfg, s, run).state, b) == SentBy(s, b)
  }

  lemma FinishesFirst(cfg: Config, s: State, a: Action, rest: seq<Action>, b: nat)
    requires Can(cfg, s, a) && !a.BeginBroadcast? && Finishes(cfg, Do(cfg, s, a), rest, b)
    ensures Finishes(cfg, s, [a] + rest, b)
  {
    assert ([a] + rest)[1..] == rest;
    SentStep(s, Do(cfg, s, a), a, b);
  }

  /** Nobody has to wait for another goroutine to finish a broadcast: its own offers and its end are enabled. */
  lemma {:induction false} CanFinish(cfg: Config, s: State, b: nat)
    requires Safe(s) && b in s.broadcasters && s.broadcasters[b].doing.Delivering?
    ensures exists run :: Finishes(cfg, s, run, b)
    decreases |s.broadcasters[b].doing.rest|
  {
    var rest := s.broadcasters[b].doing.rest;
    if rest == {} {
      assert Finishes(cfg, Do(cfg, s, EndBroadcast(b)), [], b);
      FinishesFirst(cfg, s, EndBroadcast(b), [], b);
    } else {
      var i :| i in rest;
      assert MemberIff(s, i, s.broadcasters[b].doing.room);
      OfferShrinks(cfg, s, b, i);
      CanFinish(cfg, Do(cfg, s, Offer(b, i)), b);
      var run :| Finishes(cfg, Do(cfg, s, Offer(b, i)), run, b);
      FinishesFirst(cfg, s, Offer(b, i), run, b);
    }
  }

  lemma OfferShrinks(cfg: Config, s: State, b: nat, i: Sid)
    requires Safe(s) && Can(cfg, s, Offer(b, i))
    ensures var t := Do(cfg, s, Offer(b, i));
            && Safe(t) && b in t.broadcasters && t.broadcasters[b].doing.Delivering?
            && |t.broadcasters[b].doing.rest| < |s.broadcasters[b].doing.rest|
  {
    SafeStep(cfg, s, Offer(b, i));
    var rest := s.broadcasters[b].doing.rest;
    assert rest == (rest - {i}) + {i};
  }

  /** So from any reachable state an idle broadcaster can bring a message to every client of a room. */
  lemma BroadcastCanReachRoom(cfg: Config, before: seq<Action>, b: nat, room: Str)
    requires Run(cfg, Init(), before).At?
    requires var s := Run(cfg, Init(), before).state; b in s.broadcasters ==> s.broadcasters[b].doing.Idle?
    ensures var s := Run(cfg, Init(), before).state;
            && Can(cfg, s, BeginBroadcast(b, room))
            && exists run :: Finishes(cfg, Do(cfg, s, BeginBroadcast(b, room)), run, b)
  {
    var s := Run(cfg, Init(), before).state;
    SafeRun(cfg, Init(), before);
    SafeStep(cfg, s, BeginBroadcast(b, room));
    CanFinish(cfg, Do(cfg, s, BeginBroadcast(b, room)), b);
  }

  // ------------------------------------------------------------------ and its clients can take it

  predicate Takes(cfg: Config, s: State, run: seq<Action>, i: Sid, taken: seq<Message>) {
    && Run(cfg, s, run).At? && i in Run(cfg, s, run).state.streams
    && Run(cfg, s, run).state.streams[i].queue == []
    && Run(cfg, s, run).state.streams[i].consumed == taken
  }

  lemma TakesFirst(cfg: Config, s: State, a: Action, rest: seq<Action>, i: Sid, taken: seq<Message>)
    requires Can(cfg, s, a) && Takes(cfg, Do(cfg, s, a), rest, i, taken)
    ensures Takes(cfg, s, [a] + rest, i, taken)
  {
    assert ([a] + rest)[1..] == rest;
  }

  /** The sender of a connected stream can send all that is queued, in the order of the queue. */
  lemma {:induction false} CanTakeAll(cfg: Config, s: State, i: Sid)
    requires i in s.streams && s.streams[i].alive && s.streams[i].sender == Running
    ensures exists run :: Takes(cfg, s, run, i, s.streams[i].consumed + s.streams[i].queue)
    decreases |s.streams[i].queue|
  {
    var x := s.streams[i];
    if x.queue == [] {
      assert x.consumed + x.queue == x.consumed;
      assert Takes(cfg, s, [], i, x.consumed);
    } else {
      var t := Do(cfg, s, SendOk(i));
      var y := t.streams[i];
      assert y.consumed + y.queue == x.consumed + x.queue;
      CanTakeAll(cfg, t, i);
      var run :| Takes(cfg, t, run, i, y.consumed + y.queue);
      TakesFirst(cfg, s, SendOk(i), run, i, x.consumed + x.queue);
    }
  }
}
