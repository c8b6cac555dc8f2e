/**
 What happens to the messages offered to one client: nothing is lost but by an overflow, and what
 gets through keeps each broadcaster's order however many broadcasters run at once.
 */
module StreamQueues {
  import opened Streams
  import opened StreamSafety
  import Hub

  /** a is b with some elements left out. */
  predicate Subsequence<T(==)>(a: seq<T>, b: seq<T>)
    decreases |b|
  {
    a == [] ||
    (b != [] && ((a[|a| - 1] == b[|b| - 1] && Subsequence(a[..|a| - 1], b[..|b| - 1])) || Subsequence(a, b[..|b| - 1])))
  }

  lemma SubsequenceGrows<T>(a: seq<T>, b: seq<T>, m: T)
    requires Subsequence(a, b)
    ensures Subsequence(a + [m], b + [m]) && Subsequence(a, b + [m])
  {
    assert (a + [m])[..|a|] == a && (b + [m])[..|b|] == b;
  }

  /** The messages of one broadcaster, in the order of the list. */
  function From(list: seq<Message>, b: nat): seq<Message> {
    if list == [] then []
    else From(list[..|list| - 1], b) + if list[|list| - 1].sender == b then [list[|list| - 1]] else []
  }

  /** The first n broadcasts of a broadcaster, in its own order. */
  function Order(b: nat, n: nat): seq<Message> {
    if n == 0 then [] else Order(b, n - 1) + [Message(b, n - 1)]
  }

  /** All that has come through to a client: what its sender took, then what is queued. */
  function View(x: Stream): seq<Message> {
    x.consumed + x.queue
  }

  predicate Conserved(x: Stream) {
    && |x.consumed| + |x.queue| + x.dropped == |x.offered|
    && |x.queue| <= Hub.QUEUE_CAPACITY
    && Subsequence(View(x), x.offered)
  }

  /** How many of b's broadcasts are past client i. */
  function Past(s: State, b: nat, i: Sid): nat {
    if b !in s.broadcasters then 0
    else
      var x := s.broadcasters[b];
      if x.doing.Delivering? && i in x.doing.rest && x.sent > 0 then x.sent - 1 else x.sent
  }

  predicate InOrder(s: State, b: nat, i: Sid) {
    i in s.streams ==> Subsequence(From(View(s.streams[i]), b), Order(b, Past(s, b, i)))
  }

  ghost predicate QueuesOk(s: State) {
    && (forall i :: i in s.streams ==> Conserved(s.streams[i]))
    && (forall b, i :: InOrder(s, b, i))
  }

  lemma PoppedView(x: Stream)
    requires x.queue != []
    ensures View(Popped(x)) == View(x)
    ensures Conserved(x) ==> Conserved(Popped(x))
  {
    assert View(Popped(x)) == View(x);
  }

  lemma TookConserved(x: Stream, m: Message)
    requires Conserved(x)
    ensures Conserved(Took(x, m))
    ensures View(Took(x, m)) == if |x.queue| < Hub.QUEUE_CAPACITY then View(x) + [m] else View(x)
  {
    SubsequenceGrows(View(x), x.offered, m);
    assert View(x) + [m] == x.consumed + (x.queue + [m]);
  }

  /** An action other than an offer leaves a client's view as it was. */
  lemma SameView(s: State, t: State, a: Action, i: Sid)
    requires Enabled(s, a) && t.streams == StreamsAfter(s, a)
    requires i in s.streams && !(a.Offer? && a.i == i)
    ensures i in t.streams && View(t.streams[i]) == View(s.streams[i])
    ensures Conserved(s.streams[i]) ==> Conserved(t.streams[i])
  {
    match a
    case SendOk(j) => PoppedView(s.streams[j]);
    case SendFail(j) => PoppedView(s.streams[j]);
    case _ =>
  }

  /** The one action that changes what has come through to a client. */
  predicate OfferedTo(s: State, a: Action, i: Sid, x: Stream)
    requires Enabled(s, a) && i in s.streams
  {
    a.Offer? && a.i == i && x == Took(s.streams[i], Message(a.b, s.broadcasters[a.b].sent - 1))
  }

  predicate Unmoved(x: Stream, y: Stream) {
    View(y) == View(x) && (Conserved(x) ==> Conserved(y))
  }

  lemma ViewStep(s: State, t: State, a: Action, i: Sid)
    requires Enabled(s, a) && t.streams == StreamsAfter(s, a) && i in t.streams
    ensures i !in s.streams ==> t.streams[i] == FreshStream()
    ensures i in s.streams ==> OfferedTo(s, a, i, t.streams[i]) || (!(a.Offer? && a.i == i) && Unmoved(s.streams[i], t.streams[i]))
  {
    if i in s.streams && !(a.Offer? && a.i == i) {
      SameView(s, t, a, i);
    }
  }

  lemma FromGrows(list: seq<Message>, m: Message, b: nat)
    ensures From(list + [m], b) == From(list, b) + if m.sender == b then [m] else []
  {
    assert (list + [m])[..|list|] == list;
  }

  lemma OrderGrows(x: seq<Message>, b: nat, n: nat)
    requires Subsequence(x, Order(b, n))
    ensures Subsequence(x, Order(b, n + 1)) && Subsequence(x + [Message(b, n)], Order(b, n + 1))
  {
    SubsequenceGrows(x, Order(b, n), Message(b, n));
  }

  lemma PastStep(s: State, t: State, a: Action, b: nat, i: Sid)
    requires ReadersInside(s) && Enabled(s, a) && t.broadcasters == BroadcastersAfter(s, a)
    ensures var now := Past(t, b, i);
            if a.Offer? && a.b == b && a.i == i then now == Past(s, b, i) + 1 == s.broadcasters[b].sent
            else now == Past(s, b, i) || (a.BeginBroadcast? && now == Past(s, b, i) + 1)
  {
  }

  lemma FreshConserved()
    ensures Conserved(FreshStream()) && View(FreshStream()) == []
  {
  }

  lemma OfferInOrder(x: Stream, m: Message, b: nat, past: nat)
    requires Conserved(x) && Subsequence(From(View(x), b), Order(b, past))
    requires m.sender == b ==> m.index == past
    ensures Subsequence(From(View(Took(x, m)), b), Order(b, past + if m.sender == b then 1 else 0))
  {
    var seen, now := From(View(x), b), From(View(Took(x, m)), b);
    TookConserved(x, m);
    FromGrows(View(x), m, b);
    OrderGrows(seen, b, past);
    if m.sender == b && |x.queue| < Hub.QUEUE_CAPACITY {
      assert now == seen + [Message(b, past)];
    } else {
      assert now == seen;
    }
  }

  lemma InOrderStep(s: State, t: State, a: Action, b: nat, i: Sid)
    requires ReadersInside(s) && Enabled(s, a) && t.broadcasters == BroadcastersAfter(s, a)
    requires i in s.streams && Conserved(s.streams[i]) && InOrder(s, b, i) && i in t.streams
    requires OfferedTo(s, a, i, t.streams[i]) || (!(a.Offer? && a.i == i) && Unmoved(s.streams[i], t.streams[i]))
    ensures InOrder(t, b, i)
  {
    PastStep(s, t, a, b, i);
    var x, y, past, now := s.streams[i], t.streams[i], Past(s, b, i), Past(t, b, i);
    if OfferedTo(s, a, i, y) {
      OfferInOrder(x, Message(a.b, s.broadcasters[a.b].sent - 1), b, past);
    } else {
      StillInOrder(x, y, b, past, now);
    }
  }

  lemma StillInOrder(x: Stream, y: Stream, b: nat, past: nat, now: nat)
    requires View(y) == View(x) && Subsequence(From(View(x), b), Order(b, past))
    requires now == past || now == past + 1
    ensures Subsequence(From(View(y), b), Order(b, now))
  {
    OrderGrows(From(View(x), b), b, past);
  }

  lemma QueuesStep(s: State, t: State, a: Action)
    requires ReadersInside(s) && QueuesOk(s) && Enabled(s, a)
    requires t.streams == StreamsAfter(s, a) && t.broadcasters == BroadcastersAfter(s, a)
    ensures QueuesOk(t)
  {
    forall i | i in t.streams ensures Conserved(t.streams[i]) {
      ViewStep(s, t, a, i);
      FreshConserved();
      if a.Offer? && a.i == i {
        TookConserved(s.streams[i], Message(a.b, s.broadcasters[a.b].sent - 1));
      }
    }
    forall b, i ensures InOrder(t, b, i) {
      if i in t.streams {
        ViewStep(s, t, a, i);
        FreshConserved();
        assert InOrder(s, b, i);
        if i in s.streams {
          InOrderStep(s, t, a, b, i);
        }
      }
    }
  }

  lemma {:induction false} QueuesRun(cfg: Config, s: State, run: seq<Action>)
    requires Safe(s) && QueuesOk(s) && Run(cfg, s, run).At?
    ensures QueuesOk(Run(cfg, s, run).state)
    decreases |run|
  {
    if run != [] {
      SafeStep(cfg, s, run[0]);
      QueuesStep(s, Do(cfg, s, run[0]), run[0]);
      QueuesRun(cfg, Do(cfg, s, run[0]), run[1..]);
    }
  }

  /**
   At every state of every run, for every client: taken + queued + dropped = offered since it was
   admitted, what came through is what was offered with drops left out, and of any one broadcaster
   the client has seen a subsequence of that broadcaster's own order.
   */
  lemma ConservationAndOrder(cfg: Config, run: seq<Action>, i: Sid)
    requires Run(cfg, Init(), run).At? && i in Run(cfg, Init(), run).state.streams
    ensures var s := Run(cfg, Init(), run).state;
            var x := s.streams[i];
            && |x.consumed| + |x.queue| + x.dropped == |x.offered|
            && |x.queue| <= Hub.QUEUE_CAPACITY
            && Subsequence(View(x), x.offered)
            && forall b :: b in s.broadcasters ==> Subsequence(From(View(x), b), Order(b, s.broadcasters[b].sent))
  {
    QueuesRun(cfg, Init(), run);
    SafeRun(cfg, Init(), run);
    var s := Run(cfg, Init(), run).state;
    forall b | b in s.broadcasters
      ensures Subsequence(From(View(s.streams[i]), b), Order(b, s.broadcasters[b].sent))
    {
      assert InOrder(s, b, i);
      OrderGrows(From(View(s.streams[i]), b), b, Past(s, b, i));
    }
  }

  predicate FullOffer(s: State, a: Action, i: Sid) {
    a.Offer? && a.i == i && i in s.streams && |s.streams[i].queue| == Hub.QUEUE_CAPACITY
  }

  /** How many of a run's offers find a client's queue full. */
  function FullOffers(cfg: Config, s: State, run: seq<Action>, i: Sid): nat
    decreases |run|
  {
    if run == [] || !Can(cfg, s, run[0]) then 0
    else (if FullOffer(s, run[0], i) then 1 else 0) + FullOffers(cfg, Do(cfg, s, run[0]), run[1..], i)
  }

  function Dropped(s: State, i: Sid): nat {
    if i in s.streams then s.streams[i].dropped else 0
  }

  lemma DroppedStep(s: State, t: State, a: Action, i: Sid)
    requires Enabled(s, a) && t.streams == StreamsAfter(s, a)
    requires i in s.streams ==> Conserved(s.streams[i])
    ensures Dropped(t, i) == Dropped(s, i) + if FullOffer(s, a, i) then 1 else 0
  {
  }

  lemma {:induction false} DroppedRun(cfg: Config, s: State, run: seq<Action>, i: Sid)
    requires Safe(s) && QueuesOk(s) && Run(cfg, s, run).At?
    ensures Dropped(Run(cfg, s, run).state, i) == Dropped(s, i) + FullOffers(cfg, s, run, i)
    decreases |run|
  {
    if run != [] {
      var t := Do(cfg, s, run[0]);
      SafeStep(cfg, s, run[0]);
      QueuesStep(s, t, run[0]);
      DroppedStep(s, t, run[0], i);
      DroppedRun(cfg, t, run[1..], i);
    }
  }

  /** Over every run a client has lost exactly as many messages as were offered to it with 256 in its queue. */
  lemma DropsAreFullOffers(cfg: Config, run: seq<Action>, i: Sid)
    requires Run(cfg, Init(), run).At? && i in Run(cfg, Init(), run).state.streams
    ensures Run(cfg, Init(), run).state.streams[i].dropped == FullOffers(cfg, Init(), run, i)
  {
    DroppedRun(cfg, Init(), run, i);
  }
}
