/**
 One room across pods. A broadcast is offered to the clients of its own pod and then published; the
 broker hands published messages to live subscriptions of the room; each forwarder offers what it takes
 from its channel to the clients of its pod, and publishes nothing.

 When a published message is handed to which channel, and how often, is left open: never for the Noop
 broker, once to every channel live at the publish for a fan-out broker, later, again or only to some pods
 for a log that is consumed by groups. What a broker must promise is a hypothesis of each theorem.
 */
module Delivery {
  type Pod = nat
  type Cid = nat
  type MsgId = nat
  type Chan = nat

  datatype Channel = Channel(pod: Pod, live: bool)

  /** An item handed to a channel and not yet forwarded. */
  datatype Item = Item(chan: Chan, pod: Pod, m: MsgId)

  /**
   `missed` are the messages broadcast before a client joined; `offers` counts what a client has been
   offered. `reach` holds the channels live at each publish; `handed` counts hand-offs by channel, `hands`
   by pod, and `forwards` what a pod's forwarders have taken.
   */
  datatype State = State(clients: set<Cid>, home: map<Cid, Pod>, missed: map<Cid, set<MsgId>>,
                         offers: map<Cid, multiset<MsgId>>, chans: map<Chan, Channel>,
                         origin: map<MsgId, Pod>, pending: set<MsgId>, reach: map<MsgId, set<Chan>>,
                         inFlight: seq<Item>, handed: multiset<(Chan, MsgId)>,
                         hands: multiset<(Pod, MsgId)>, forwards: multiset<(Pod, MsgId)>)

  datatype Action =
    | Join(c: Cid, p: Pod, chan: Chan)
    | Leave(c: Cid)
    | Broadcast(m: MsgId, p: Pod)
    | Publish(m: MsgId)
    | HandOff(m: MsgId, ch: Chan)
    | Forward(i: nat)
    | EndSubscription(ch: Chan)   // a receive bound to a context that is gone

  function Init(): State {
    State({}, map[], map[], map[], map[], map[], {}, map[], [], multiset{}, multiset{}, multiset{})
  }

  predicate Live(s: State, ch: Chan, p: Pod) {
    ch in s.chans && s.chans[ch] == Channel(p, true)
  }

  predicate Occupied(s: State, p: Pod, but: set<Cid>) {
    exists c :: c in s.clients && c !in but && c in s.home && s.home[c] == p
  }

  function LiveChans(s: State): set<Chan> {
    set ch | ch in s.chans && s.chans[ch].live
  }

  predicate Can(s: State, a: Action) {
    match a
    case Join(c, p, ch) => c !in s.home && c !in s.clients && ch !in s.chans
    case Leave(c) => c in s.clients && c in s.home
    case Broadcast(m, p) => m !in s.origin
    case Publish(m) => m in s.pending
    case HandOff(m, ch) => m in s.reach && ch in LiveChans(s)
    case Forward(i) => i < |s.inFlight|
    case EndSubscription(ch) => ch in LiveChans(s)
  }

  function Offered(s: State, p: Pod, m: MsgId): map<Cid, multiset<MsgId>> {
    map c | c in s.offers ::
      if c in s.clients && c in s.home && s.home[c] == p then s.offers[c] + multiset{m} else s.offers[c]
  }

  function Do(s: State, a: Action): State
    requires Can(s, a)
  {
    match a
    case Join(c, p, ch) =>
      s.(clients := s.clients + {c}, home := s.home[c := p], missed := s.missed[c := s.origin.Keys],
         offers := s.offers[c := multiset{}],
         chans := if Occupied(s, p, {}) then s.chans else s.chans[ch := Channel(p, true)])
    case Leave(c) =>
      var p := s.home[c];
      s.(clients := s.clients - {c},
         chans := if Occupied(s, p, {c}) then s.chans
                  else map ch | ch in s.chans :: if s.chans[ch].pod == p then Channel(p, false) else s.chans[ch])
    case Broadcast(m, p) =>
      s.(origin := s.origin[m := p], pending := s.pending + {m}, offers := Offered(s, p, m))
    case Publish(m) =>
      s.(pending := s.pending - {m}, reach := s.reach[m := LiveChans(s)])
    case HandOff(m, ch) =>
      var p := s.chans[ch].pod;
      s.(inFlight := s.inFlight + [Item(ch, p, m)], handed := s.handed + multiset{(ch, m)},
         hands := s.hands + multiset{(p, m)})
    case Forward(i) =>
      var x := s.inFlight[i];
      s.(inFlight := s.inFlight[..i] + s.inFlight[i + 1..], forwards := s.forwards + multiset{(x.pod, x.m)},
         offers := Offered(s, x.pod, x.m))
    case EndSubscription(ch) => s.(chans := s.chans[ch := s.chans[ch].(live := false)])
  }

  datatype Outcome = Stuck | At(state: State)

  function Run(s: State, run: seq<Action>): Outcome
    decreases |run|
  {
    if run == [] then At(s) else if Can(s, run[0]) then Run(Do(s, run[0]), run[1..]) else Stuck
  }

  // ------------------------------------------------------------------------ the invariant

  /** A pod with clients has at most one live channel, and a pod without has none. */
  ghost predicate ChannelPerPod(s: State) {
    && (forall c :: c in s.clients ==> c in s.home)
    && (forall ch, p :: Live(s, ch, p) ==> Occupied(s, p, {}))
    && (forall ch, ch2, p :: Live(s, ch, p) && Live(s, ch2, p) ==> ch == ch2)
  }

  /** And every client's pod has one: so it is while no subscription ends before its room. */
  ghost predicate Served(s: State) {
    forall c :: c in s.clients && c in s.home ==> exists ch :: Live(s, ch, s.home[c])
  }

  /** Items of message m in flight to pod p. */
  function Waiting(items: seq<Item>, p: Pod, m: MsgId): nat {
    if items == [] then 0
    else Waiting(items[..|items| - 1], p, m) + if items[|items| - 1].pod == p && items[|items| - 1].m == m then 1 else 0
  }

  /** What was handed to a pod has been forwarded or is in flight; nothing unpublished was handed out. */
  ghost predicate Accounted(s: State) {
    && (forall p, m :: Balanced(s, p, m))
    && s.pending + s.reach.Keys == s.origin.Keys && s.pending !! s.reach.Keys
    && (forall x :: x in s.inFlight ==> x.m in s.reach)
    && (forall p, m :: s.hands[(p, m)] > 0 ==> m in s.reach)
  }

  predicate Balanced(s: State, p: Pod, m: MsgId) {
    s.forwards[(p, m)] + Waiting(s.inFlight, p, m) == s.hands[(p, m)]
  }

  function Local(s: State, m: MsgId, p: Pod): nat {
    if m in s.origin && s.origin[m] == p then 1 else 0
  }

  predicate Known(s: State, c: Cid) {
    c in s.home && c in s.missed && c in s.offers && s.missed[c] <= s.origin.Keys
  }

  /** Of every message a client has had at most its pod's copies, and all of them if it was there throughout. */
  predicate Tallied(s: State, c: Cid, m: MsgId) {
    c in s.home ==>
      && Known(s, c)
      && s.offers[c][m] <= Local(s, m, s.home[c]) + s.forwards[(s.home[c], m)]
      && (c in s.clients && m !in s.missed[c] ==>
            s.offers[c][m] == Local(s, m, s.home[c]) + s.forwards[(s.home[c], m)])
  }

  ghost predicate Inv(s: State) {
    ChannelPerPod(s) && Accounted(s) && (forall c, m :: Tallied(s, c, m))
  }

  lemma OccupiedAfter(s: State, a: Action, p: Pod)
    requires Can(s, a) && !a.Leave? && Occupied(s, p, {})
    ensures Occupied(Do(s, a), p, {})
  {
    var c :| c in s.clients && c in s.home && s.home[c] == p;
    assert c in Do(s, a).clients && Do(s, a).home[c] == p;
  }

  lemma JoinChannels(s: State, c: Cid, p: Pod, chan: Chan)
    requires ChannelPerPod(s) && Can(s, Join(c, p, chan))
    ensures ChannelPerPod(Do(s, Join(c, p, chan)))
  {
    var t := Do(s, Join(c, p, chan));
    assert c in t.clients && t.home[c] == p;
    forall ch, q | Live(t, ch, q) ensures Occupied(t, q, {}) {
      if Live(s, ch, q) {
        OccupiedAfter(s, Join(c, p, chan), q);
      }
    }
    forall ch, ch2, q | Live(t, ch, q) && Live(t, ch2, q) ensures ch == ch2 {
      assert Live(s, ch, q) || ch == chan;
      assert Live(s, ch2, q) || ch2 == chan;
    }
  }

  lemma JoinServes(s: State, c: Cid, p: Pod, chan: Chan)
    requires Served(s) && Can(s, Join(c, p, chan))
    ensures Served(Do(s, Join(c, p, chan)))
  {
    var t := Do(s, Join(c, p, chan));
    forall d | d in t.clients && d in t.home ensures exists ch :: Live(t, ch, t.home[d]) {
      if d in s.clients {
        var ch :| Live(s, ch, s.home[d]);
        assert Live(t, ch, t.home[d]);
      } else if Occupied(s, p, {}) {
        var e :| e in s.clients && e in s.home && s.home[e] == p;
        var ch :| Live(s, ch, s.home[e]);
        assert Live(t, ch, p);
      } else {
        assert Live(t, chan, p);
      }
    }
  }

  lemma LeaveChannels(s: State, c: Cid)
    requires ChannelPerPod(s) && Can(s, Leave(c))
    ensures ChannelPerPod(Do(s, Leave(c)))
  {
    var t, p := Do(s, Leave(c)), s.home[c];
    assert forall ch, q :: Live(t, ch, q) ==> Live(s, ch, q);
    forall ch, q | Live(t, ch, q) ensures Occupied(t, q, {}) {
      assert Occupied(s, q, {});
      if q == p {
        var d :| d in s.clients && d !in {c} && d in s.home && s.home[d] == p;
        assert d in t.clients && t.home[d] == q;
      } else {
        var d :| d in s.clients && d in s.home && s.home[d] == q;
        assert d in t.clients && t.home[d] == q;
      }
    }
  }

  lemma LeaveServes(s: State, c: Cid)
    requires Served(s) && Can(s, Leave(c))
    ensures Served(Do(s, Leave(c)))
  {
    var t, p := Do(s, Leave(c)), s.home[c];
    forall d | d in t.clients && d in t.home ensures exists ch :: Live(t, ch, t.home[d]) {
      var ch :| Live(s, ch, s.home[d]);
      assert s.home[d] == p ==> Occupied(s, p, {c});
      assert Live(t, ch, t.home[d]);
    }
  }

  lemma ChannelPerPodStep(s: State, a: Action)
    requires ChannelPerPod(s) && Can(s, a)
    ensures ChannelPerPod(Do(s, a))
  {
    match a
    case Join(c, p, chan) => JoinChannels(s, c, p, chan);
    case Leave(c) => LeaveChannels(s, c);
    case _ =>
      var t := Do(s, a);
      assert forall ch, p :: Live(t, ch, p) ==> Live(s, ch, p);
      assert forall p :: Occupied(t, p, {}) <==> Occupied(s, p, {});
  }

  lemma ServedStep(s: State, a: Action)
    requires Served(s) && Can(s, a) && !a.EndSubscription?
    ensures Served(Do(s, a))
  {
    if a.Join? {
      JoinServes(s, a.c, a.p, a.chan);
    } else if a.Leave? {
      LeaveServes(s, a.c);
    } else {
      assert forall ch, p :: Live(s, ch, p) ==> Live(Do(s, a), ch, p);
    }
  }

  lemma {:induction false} WaitingSplit(x: seq<Item>, y: seq<Item>, p: Pod, m: MsgId)
    ensures Waiting(x + y, p, m) == Waiting(x, p, m) + Waiting(y, p, m)
  {
    if y == [] {
      assert x + y == x;
    } else {
      var n := |y| - 1;
      WaitingSplit(x, y[..n], p, m);
      assert (x + y)[..|x| + n] == x + y[..n] && (x + y)[|x| + n] == y[n];
    }
  }

  lemma WaitingWithout(items: seq<Item>, i: nat, p: Pod, m: MsgId)
    requires i < |items|
    ensures Waiting(items, p, m) ==
            Waiting(items[..i] + items[i + 1..], p, m) + if items[i].pod == p && items[i].m == m then 1 else 0
  {
    assert items == items[..i] + ([items[i]] + items[i + 1..]);
    WaitingSplit(items[..i], [items[i]] + items[i + 1..], p, m);
    WaitingSplit([items[i]], items[i + 1..], p, m);
    WaitingSplit(items[..i], items[i + 1..], p, m);
    assert [items[i]][..0] == [];
  }

  lemma WaitingSnoc(items: seq<Item>, x: Item, p: Pod, m: MsgId)
    ensures Waiting(items + [x], p, m) == Waiting(items, p, m) + if x.pod == p && x.m == m then 1 else 0
  {
    assert (items + [x])[..|items|] == items;
  }

  lemma BalancedStep(s: State, a: Action, p: Pod, m: MsgId)
    requires Balanced(s, p, m) && Can(s, a)
    ensures Balanced(Do(s, a), p, m)
  {
    if a.HandOff? {
      WaitingSnoc(s.inFlight, Item(a.ch, s.chans[a.ch].pod, a.m), p, m);
    } else if a.Forward? {
      WaitingWithout(s.inFlight, a.i, p, m);
    }
  }

  lemma AccountedStep(s: State, a: Action)
    requires Accounted(s) && Can(s, a)
    ensures Accounted(Do(s, a))
  {
    forall p, m ensures Balanced(Do(s, a), p, m) {
      BalancedStep(s, a, p, m);
    }
    if a.Forward? {
      assert forall x :: x in Do(s, a).inFlight ==> x in s.inFlight;
    }
  }

  lemma Unborn(s: State, m: MsgId, p: Pod)
    requires Accounted(s) && m !in s.origin
    ensures Local(s, m, p) == 0 && s.forwards[(p, m)] == 0
  {
    assert Balanced(s, p, m);
    assert m !in s.reach.Keys;
  }

  /** The pod whose clients an action offers m to, if any. */
  predicate OffersOn(s: State, a: Action, p: Pod, m: MsgId)
    requires Can(s, a)
  {
    match a
    case Broadcast(m2, p2) => m2 == m && p2 == p
    case Forward(i) => s.inFlight[i].m == m && s.inFlight[i].pod == p
    case _ => false
  }

  lemma OffersStep(s: State, t: State, a: Action, c: Cid, m: MsgId)
    requires Can(s, a) && t == Do(s, a) && Known(s, c)
    ensures Known(t, c) && t.home[c] == s.home[c] && t.missed[c] == s.missed[c] && (c in t.clients ==> c in s.clients)
    ensures t.offers[c][m] == s.offers[c][m] + if OffersOn(s, a, s.home[c], m) && c in s.clients then 1 else 0
  {
    if a.Broadcast? {
      OfferedCount(s, a.p, a.m, c, m);
    } else if a.Forward? {
      OfferedCount(s, s.inFlight[a.i].pod, s.inFlight[a.i].m, c, m);
    }
  }

  lemma OfferedCount(s: State, p: Pod, m2: MsgId, c: Cid, m: MsgId)
    requires c in s.offers && c in s.home
    ensures c in Offered(s, p, m2)
    ensures Offered(s, p, m2)[c][m] == s.offers[c][m] + if m2 == m && s.home[c] == p && c in s.clients then 1 else 0
  {
  }

  lemma CopiesStep(s: State, t: State, a: Action, p: Pod, m: MsgId)
    requires Can(s, a) && t == Do(s, a)
    ensures Local(t, m, p) + t.forwards[(p, m)] == Local(s, m, p) + s.forwards[(p, m)] + if OffersOn(s, a, p, m) then 1 else 0
  {
  }

  lemma TalliedStep(s: State, a: Action, c: Cid, m: MsgId)
    requires Accounted(s) && Tallied(s, c, m) && Can(s, a)
    ensures Tallied(Do(s, a), c, m)
  {
    var t := Do(s, a);
    if c in s.home {
      OffersStep(s, t, a, c, m);
      CopiesStep(s, t, a, s.home[c], m);
    } else if a.Join? && a.c == c {
      JoinedTally(s, a, m);
    }
  }

  /** A client that joins has had nothing, and has missed whatever was broadcast. */
  lemma JoinedTally(s: State, a: Action, m: MsgId)
    requires Accounted(s) && a.Join? && Can(s, a)
    ensures Tallied(Do(s, a), a.c, m)
  {
    if m !in s.origin {
      Unborn(s, m, a.p);
    }
  }

  lemma InvStep(s: State, a: Action)
    requires Inv(s) && Can(s, a)
    ensures Inv(Do(s, a))
  {
    ChannelPerPodStep(s, a);
    AccountedStep(s, a);
    forall c, m ensures Tallied(Do(s, a), c, m) {
      TalliedStep(s, a, c, m);
    }
  }

  lemma {:induction false} InvRun(s: State, run: seq<Action>)
    requires Inv(s) && Run(s, run).At?
    ensures Inv(Run(s, run).state)
    decreases |run|
  {
    if run != [] {
      InvStep(s, run[0]);
      InvRun(Do(s, run[0]), run[1..]);
    }
  }

  // --------------------------------------------------------------------------- theorems

  /**
   The exact count, over any broker and at any state of any run: a client that joined before the broadcast
   and is still there has been offered the local copy if it is on the message's pod, and one more for
   every time a forwarder of its pod took the message, which is every hand-off not still in flight.
   */
  lemma ExactCopies(run: seq<Action>, c: Cid, m: MsgId)
    requires Run(Init(), run).At?
    requires var s := Run(Init(), run).state;
             c in s.clients && c in s.home && c in s.missed && m in s.origin && m !in s.missed[c]
    ensures var s := Run(Init(), run).state;
            && c in s.offers
            && s.offers[c][m] == (if s.origin[m] == s.home[c] then 1 else 0) + s.forwards[(s.home[c], m)]
            && s.forwards[(s.home[c], m)] == s.hands[(s.home[c], m)] - Waiting(s.inFlight, s.home[c], m)
  {
    InvRun(Init(), run);
    var s := Run(Init(), run).state;
    assert Tallied(s, c, m) && Balanced(s, s.home[c], m);
  }

  /** No client is offered more than the local copy and what its pod was handed, whenever it came. */
  lemma CopiesBound(run: seq<Action>, c: Cid, m: MsgId)
    requires Run(Init(), run).At? && c in Run(Init(), run).state.home
    ensures var s := Run(Init(), run).state;
            c in s.offers && s.offers[c][m] <= Local(s, m, s.home[c]) + s.hands[(s.home[c], m)]
  {
    InvRun(Init(), run);
    var s := Run(Init(), run).state;
    assert Tallied(s, c, m) && Balanced(s, s.home[c], m);
  }

  /** So over a broker that hands a message to a pod once at most: twice on the message's pod, once on another. */
  lemma AtMostTwice(run: seq<Action>, c: Cid, m: MsgId)
    requires Run(Init(), run).At? && c in Run(Init(), run).state.home
    requires var s := Run(Init(), run).state; s.hands[(s.home[c], m)] <= 1
    ensures var s := Run(Init(), run).state;
            c in s.offers && s.offers[c][m] <= if m in s.origin && s.origin[m] == s.home[c] then 2 else 1
  {
    CopiesBound(run, c, m);
  }

  /** Noop hands nothing out. */
  predicate NoopRun(run: seq<Action>) {
    forall k :: 0 <= k < |run| ==> !run[k].HandOff?
  }

  lemma {:induction false} NoopHandsNothing(s: State, run: seq<Action>)
    requires s.hands == multiset{} && Run(s, run).At? && NoopRun(run)
    ensures Run(s, run).state.hands == multiset{}
    decreases |run|
  {
    if run != [] {
      assert !run[0].HandOff?;
      NoopHandsNothing(Do(s, run[0]), run[1..]);
    }
  }

  /** Under Noop a message is offered at most once, and only on its own pod. */
  lemma NoopAtMostOnce(run: seq<Action>, c: Cid, m: MsgId)
    requires Run(Init(), run).At? && c in Run(Init(), run).state.home && NoopRun(run)
    ensures var s := Run(Init(), run).state;
            c in s.offers && s.offers[c][m] <= if m in s.origin && s.origin[m] == s.home[c] then 1 else 0
  {
    CopiesBound(run, c, m);
    NoopHandsNothing(Init(), run);
  }

  // ---- fan-out

  /** Every channel live at the publish of m was handed m once, and no other channel was. */
  ghost predicate FannedOut(s: State, m: MsgId) {
    m in s.reach && forall ch :: s.handed[(ch, m)] == if ch in s.reach[m] then 1 else 0
  }

  predicate OnPod(s: State, ch: Chan, p: Pod) {
    ch in s.chans && s.chans[ch].pod == p
  }

  /** Where only one channel of a pod was handed a message, the pod was handed it as often. */
  ghost predicate OneCarries(s: State, ch: Chan, p: Pod, m: MsgId) {
    OnPod(s, ch, p) && (forall ch2 :: ch2 != ch && OnPod(s, ch2, p) ==> s.handed[(ch2, m)] == 0)
    ==> s.hands[(p, m)] == s.handed[(ch, m)]
  }

  ghost predicate HandsMatch(s: State) {
    && (forall ch, p, m :: OneCarries(s, ch, p, m))
    && (forall ch, m :: s.handed[(ch, m)] > 0 ==> ch in s.chans)
    && (forall p, m :: s.hands[(p, m)] > 0 ==> CarriedTo(s, p, m))
  }

  /** Some channel of the pod carried the message. */
  predicate CarriedTo(s: State, p: Pod, m: MsgId) {
    exists ch :: ch in s.chans && s.chans[ch].pod == p && s.handed[(ch, m)] > 0
  }

  lemma ChannelsStay(s: State, a: Action, ch: Chan, p: Pod)
    requires Can(s, a)
    ensures OnPod(s, ch, p) ==> OnPod(Do(s, a), ch, p)
    ensures OnPod(Do(s, a), ch, p) ==> OnPod(s, ch, p) || (a.Join? && ch == a.chan && ch !in s.chans)
  {
  }

  lemma CarriedStep(s: State, a: Action, p: Pod, m: MsgId)
    requires HandsMatch(s) && Can(s, a) && Do(s, a).hands[(p, m)] > 0
    ensures CarriedTo(Do(s, a), p, m)
  {
    var t := Do(s, a);
    if s.hands[(p, m)] > 0 {
      var ch :| ch in s.chans && s.chans[ch].pod == p && s.handed[(ch, m)] > 0;
      ChannelsStay(s, a, ch, p);
      assert t.handed[(ch, m)] > 0;
    } else {
      assert a.HandOff? && OnPod(t, a.ch, p) && t.handed[(a.ch, m)] > 0;
    }
  }

  lemma HandedStep(s: State, a: Action, ch: Chan, m: MsgId)
    requires Can(s, a)
    ensures Do(s, a).handed[(ch, m)] == s.handed[(ch, m)] + if a == HandOff(m, ch) then 1 else 0
  {
  }

  lemma HandsStep(s: State, a: Action, p: Pod, m: MsgId)
    requires Can(s, a)
    ensures Do(s, a).hands[(p, m)] == s.hands[(p, m)] + if a.HandOff? && a.m == m && OnPod(s, a.ch, p) then 1 else 0
  {
  }

  lemma OneCarriesStep(s: State, t: State, a: Action, ch: Chan, p: Pod, m: MsgId)
    requires HandsMatch(s) && Can(s, a) && t == Do(s, a)
    ensures OneCarries(t, ch, p, m)
  {
    HandedStep(s, a, ch, m);
    HandsStep(s, a, p, m);
    ChannelsStay(s, a, ch, p);
    assert OneCarries(s, ch, p, m);
    forall ch2 ensures OnPod(s, ch2, p) && s.handed[(ch2, m)] > 0 ==> OnPod(t, ch2, p) && t.handed[(ch2, m)] > 0 {
      ChannelsStay(s, a, ch2, p);
      HandedStep(s, a, ch2, m);
    }
    if a.HandOff? && a.m == m && OnPod(s, a.ch, p) && a.ch != ch {
      HandedStep(s, a, a.ch, m);
      ChannelsStay(s, a, a.ch, p);
      assert OnPod(t, a.ch, p) && t.handed[(a.ch, m)] > 0;
    }
    if !OnPod(s, ch, p) && OnPod(t, ch, p) {
      NewCarriesNothing(s, t, a, ch, p, m);
    }
  }

  /** A channel just made has carried nothing, and nothing was ever handed to the pod but through older ones. */
  lemma NewCarriesNothing(s: State, t: State, a: Action, ch: Chan, p: Pod, m: MsgId)
    requires HandsMatch(s) && Can(s, a) && t == Do(s, a) && !OnPod(s, ch, p) && OnPod(t, ch, p)
    ensures OneCarries(t, ch, p, m)
  {
    ChannelsStay(s, a, ch, p);
    if s.hands[(p, m)] > 0 {
      var older :| older in s.chans && s.chans[older].pod == p && s.handed[(older, m)] > 0;
      ChannelsStay(s, a, older, p);
      assert OnPod(t, older, p) && t.handed[(older, m)] > 0;
    }
  }

  lemma HandsMatchStep(s: State, a: Action)
    requires HandsMatch(s) && Can(s, a)
    ensures HandsMatch(Do(s, a))
  {
    var t := Do(s, a);
    forall ch, p, m ensures OneCarries(t, ch, p, m) {
      OneCarriesStep(s, t, a, ch, p, m);
    }
    forall p, m | t.hands[(p, m)] > 0 ensures CarriedTo(t, p, m) {
      CarriedStep(s, a, p, m);
    }
  }

  predicate ReachedBy(s: State, m: MsgId, p: Pod, ch: Chan) {
    m in s.reach && ch in s.reach[m] && OnPod(s, ch, p)
  }

  ghost predicate OneReach(s: State) {
    forall m, p, ch, ch2 :: ReachedBy(s, m, p, ch) && ReachedBy(s, m, p, ch2) ==> ch == ch2
  }

  /** Some channel of the pod was live when the message was published. */
  predicate Covered(s: State, m: MsgId, p: Pod) {
    m in s.reach && exists ch :: ch in s.reach[m] && OnPod(s, ch, p)
  }

  ghost predicate ReachKnown(s: State) {
    forall m, ch :: m in s.reach && ch in s.reach[m] ==> ch in s.chans
  }

  lemma OneReachStep(s: State, a: Action)
    requires ChannelPerPod(s) && OneReach(s) && ReachKnown(s) && Can(s, a)
    ensures OneReach(Do(s, a)) && ReachKnown(Do(s, a))
  {
    var t := Do(s, a);
    forall m, p, ch, ch2 | ReachedBy(t, m, p, ch) && ReachedBy(t, m, p, ch2) ensures ch == ch2 {
      ChannelsStay(s, a, ch, p);
      ChannelsStay(s, a, ch2, p);
      if a.Publish? && a.m == m {
        assert Live(s, ch, p) && Live(s, ch2, p);
      } else {
        assert ReachedBy(s, m, p, ch) && ReachedBy(s, m, p, ch2);
      }
    }
  }

  ghost predicate FanInv(s: State) {
    Inv(s) && HandsMatch(s) && OneReach(s) && ReachKnown(s)
  }

  lemma FanStep(s: State, a: Action)
    requires FanInv(s) && Can(s, a)
    ensures FanInv(Do(s, a))
  {
    InvStep(s, a);
    HandsMatchStep(s, a);
    OneReachStep(s, a);
  }

  lemma {:induction false} FanRun(s: State, run: seq<Action>)
    requires FanInv(s) && Run(s, run).At?
    ensures FanInv(Run(s, run).state)
    decreases |run|
  {
    if run != [] {
      FanStep(s, run[0]);
      FanRun(Do(s, run[0]), run[1..]);
    }
  }

  lemma FannedCount(s: State, m: MsgId, p: Pod)
    requires FanInv(s) && FannedOut(s, m)
    ensures s.hands[(p, m)] == if Covered(s, m, p) then 1 else 0
  {
    if Covered(s, m, p) {
      var ch :| ch in s.reach[m] && OnPod(s, ch, p);
      forall ch2 | ch2 != ch && OnPod(s, ch2, p) ensures s.handed[(ch2, m)] == 0 {
        assert ReachedBy(s, m, p, ch);
        assert ch2 in s.reach[m] ==> ReachedBy(s, m, p, ch2);
      }
      assert OneCarries(s, ch, p, m);
    } else if s.hands[(p, m)] > 0 {
      var ch :| ch in s.chans && s.chans[ch].pod == p && s.handed[(ch, m)] > 0;
      assert ch in s.reach[m] && OnPod(s, ch, p);
    }
  }

  /**
   A fan-out broker, once nothing of the message is in flight, has given a client that was there throughout
   exactly the local copy, if it is on the message's own pod, and one more iff some channel of its pod was
   live at the publish. On the message's own pod that one is the pod's echo.
   */
  lemma FanOutExact(run: seq<Action>, c: Cid, m: MsgId)
    requires Run(Init(), run).At?
    requires var s := Run(Init(), run).state;
             && FannedOut(s, m) && c in s.clients && c in s.home && c in s.missed && m !in s.missed[c]
             && m in s.origin && Waiting(s.inFlight, s.home[c], m) == 0
    ensures var s := Run(Init(), run).state;
            && c in s.offers
            && s.offers[c][m] == (if s.origin[m] == s.home[c] then 1 else 0) + (if Covered(s, m, s.home[c]) then 1 else 0)
  {
    FanRun(Init(), run);
    FannedCount(Run(Init(), run).state, m, Run(Init(), run).state.home[c]);
    ExactCopies(run, c, m);
  }

  // ---- where no subscription ends before its room

  predicate NoneEnds(run: seq<Action>) {
    forall k :: 0 <= k < |run| ==> !run[k].EndSubscription?
  }

  /** A client that was there at the publish, and still is, is on a covered pod. */
  predicate Reaches(s: State, c: Cid, m: MsgId) {
    c in s.clients && c in s.home && c in s.missed && m in s.reach && m !in s.missed[c] ==> Covered(s, m, s.home[c])
  }

  lemma ReachesStep(s: State, a: Action, c: Cid, m: MsgId)
    requires Inv(s) && Served(s) && Can(s, a) && Reaches(s, c, m)
    ensures Reaches(Do(s, a), c, m)
  {
    var t := Do(s, a);
    assert Tallied(s, c, m);
    if c in s.clients && m !in s.missed[c] && m in t.reach {
      if a.Publish? && a.m == m {
        var ch :| Live(s, ch, s.home[c]);
        assert ch in t.reach[m] && OnPod(t, ch, t.home[c]);
      } else {
        var ch :| ch in s.reach[m] && OnPod(s, ch, s.home[c]);
        ChannelsStay(s, a, ch, s.home[c]);
        assert ch in t.reach[m] && OnPod(t, ch, t.home[c]);
      }
    }
  }

  lemma {:induction false} ReachesRun(s: State, run: seq<Action>, c: Cid, m: MsgId)
    requires Inv(s) && Served(s) && Reaches(s, c, m) && Run(s, run).At? && NoneEnds(run)
    ensures Reaches(Run(s, run).state, c, m)
    decreases |run|
  {
    if run != [] {
      assert !run[0].EndSubscription?;
      InvStep(s, run[0]);
      ServedStep(s, run[0]);
      ReachesStep(s, run[0], c, m);
      ReachesRun(Do(s, run[0]), run[1..], c, m);
    }
  }

  /** There every such client has had exactly one copy on another pod and exactly two on the message's own pod. */
  lemma FanOutToAll(run: seq<Action>, c: Cid, m: MsgId)
    requires Run(Init(), run).At? && NoneEnds(run)
    requires var s := Run(Init(), run).state;
             && FannedOut(s, m) && c in s.clients && c in s.home && c in s.missed && m !in s.missed[c]
             && m in s.origin && Waiting(s.inFlight, s.home[c], m) == 0
    ensures var s := Run(Init(), run).state;
            c in s.offers && s.offers[c][m] == if s.origin[m] == s.home[c] then 2 else 1
  {
    FanOutExact(run, c, m);
    ReachesRun(Init(), run, c, m);
  }

  function Echo(c: Cid, p: Pod, ch: Chan, m: MsgId): seq<Action> {
    [Join(c, p, ch)] + ([Broadcast(m, p)] + ([Publish(m)] + ([HandOff(m, ch)] + ([Forward(0)] + []))))
  }

  lemma RunFirst(s: State, a: Action, rest: seq<Action>)
    requires Can(s, a)
    ensures Run(s, [a] + rest) == Run(Do(s, a), rest)
  {
    assert ([a] + rest)[1..] == rest;
  }

  function EchoJoined(c: Cid, p: Pod, ch: Chan): State {
    State({c}, map[c := p], map[c := {}], map[c := multiset{}], map[ch := Channel(p, true)], map[], {}, map[], [],
          multiset{}, multiset{}, multiset{})
  }

  function EchoPublished(c: Cid, p: Pod, ch: Chan, m: MsgId): State {
    EchoJoined(c, p, ch).(offers := map[c := multiset{m}], origin := map[m := p], reach := map[m := {ch}])
  }

  function EchoHanded(c: Cid, p: Pod, ch: Chan, m: MsgId): State {
    EchoPublished(c, p, ch, m).(inFlight := [Item(ch, p, m)], handed := multiset{(ch, m)}, hands := multiset{(p, m)})
  }

  lemma EchoJoins(c: Cid, p: Pod, ch: Chan)
    ensures Do(Init(), Join(c, p, ch)) == EchoJoined(c, p, ch)
  {
    assert Init().origin.Keys == {};
  }

  lemma EchoPublishes(c: Cid, p: Pod, ch: Chan, m: MsgId)
    ensures var s := Do(EchoJoined(c, p, ch), Broadcast(m, p));
            Can(s, Publish(m)) && Do(s, Publish(m)) == EchoPublished(c, p, ch, m)
  {
    var s := Do(EchoJoined(c, p, ch), Broadcast(m, p));
    assert s.offers[c] == multiset{} + multiset{m} == multiset{m};
    assert s.offers.Keys == {c};
    assert s.offers == map[c := multiset{m}];
    assert LiveChans(s) == {ch};
    assert s.pending - {m} == {};
  }

  lemma EchoHands(c: Cid, p: Pod, ch: Chan, m: MsgId)
    ensures Can(EchoPublished(c, p, ch, m), HandOff(m, ch))
    ensures Do(EchoPublished(c, p, ch, m), HandOff(m, ch)) == EchoHanded(c, p, ch, m)
  {
    assert [] + [Item(ch, p, m)] == [Item(ch, p, m)];
  }

  lemma EchoRuns(c: Cid, p: Pod, ch: Chan, m: MsgId)
    ensures Run(Init(), Echo(c, p, ch, m)) == Run(EchoHanded(c, p, ch, m), [Forward(0)] + [])
  {
    EchoJoins(c, p, ch);
    EchoPublishes(c, p, ch, m);
    EchoHands(c, p, ch, m);
    var rest := [HandOff(m, ch)] + ([Forward(0)] + []);
    RunFirst(EchoPublished(c, p, ch, m), HandOff(m, ch), [Forward(0)] + []);
    RunFirst(Do(EchoJoined(c, p, ch), Broadcast(m, p)), Publish(m), rest);
    RunFirst(EchoJoined(c, p, ch), Broadcast(m, p), [Publish(m)] + rest);
    RunFirst(Init(), Join(c, p, ch), [Broadcast(m, p)] + ([Publish(m)] + rest));
  }

  /** The smallest such run: one client, one pod, one message, and the client is offered it twice. */
  lemma EchoGivesTwo(c: Cid, p: Pod, ch: Chan, m: MsgId)
    ensures var r := Run(Init(), Echo(c, p, ch, m));
            r.At? && FannedOut(r.state, m) && c in r.state.offers && r.state.offers[c][m] == 2
  {
    EchoRuns(c, p, ch, m);
    RunFirst(EchoHanded(c, p, ch, m), Forward(0), []);
  }

  /** A client is on a pod that has no live channel, and has had nothing of a message yet to come. */
  ghost predicate CutOff(s: State, d: Cid, p: Pod, m: MsgId) {
    && d in s.clients && d in s.home && s.home[d] == p && d in s.missed && m !in s.missed[d]
    && d in s.offers && s.offers[d][m] == 0
    && (forall ch :: !Live(s, ch, p)) && m !in s.origin && m !in s.pending
  }

  /** Two clients join, the subscription of the first ends with its context, and the first leaves. */
  lemma OwnerGone(c: Cid, d: Cid, p: Pod, ch: Chan, ch2: Chan, m: MsgId)
    requires c != d && ch != ch2
    ensures var s := EchoJoined(c, p, ch);
            && Can(s, Join(d, p, ch2)) && var s2 := Do(s, Join(d, p, ch2));
            && Can(s2, EndSubscription(ch)) && var s3 := Do(s2, EndSubscription(ch));
            && Can(s3, Leave(c)) && CutOff(Do(s3, Leave(c)), d, p, m)
  {
    var s := EchoJoined(c, p, ch);
    assert c in s.clients && Occupied(s, p, {});
  }

  lemma MissesMessage(s: State, d: Cid, p: Pod, m: MsgId, q: Pod)
    requires CutOff(s, d, p, m) && p != q
    ensures Can(s, Broadcast(m, q)) && Can(Do(s, Broadcast(m, q)), Publish(m))
    ensures var t := Do(Do(s, Broadcast(m, q)), Publish(m));
            && d in t.clients && m !in t.missed[d] && !Covered(t, m, p) && t.offers[d][m] == 0
  {
    var u := Do(s, Broadcast(m, q));
    forall ch: Chan ensures !Live(u, ch, p) {
      assert !Live(s, ch, p);
    }
    var t := Do(u, Publish(m));
    forall ch | ch in t.reach[m] ensures !OnPod(t, ch, p) {
      assert OnPod(t, ch, p) ==> Live(u, ch, p);
    }
  }

  function Orphaning(c: Cid, d: Cid, p: Pod, ch: Chan, ch2: Chan, m: MsgId, q: Pod): seq<Action> {
    [Join(c, p, ch)] + ([Join(d, p, ch2)] + ([EndSubscription(ch)] + ([Leave(c)] + ([Broadcast(m, q)] + ([Publish(m)] + [])))))
  }

  /** So there is a run in which a client that is there throughout is never offered a message of another pod. */
  lemma OrphanedClientMisses(c: Cid, d: Cid, p: Pod, ch: Chan, ch2: Chan, m: MsgId, q: Pod)
    requires c != d && ch != ch2 && p != q
    ensures var r := Run(Init(), Orphaning(c, d, p, ch, ch2, m, q));
            && r.At? && d in r.state.clients && d in r.state.missed && m !in r.state.missed[d] && m in r.state.reach
            && !Covered(r.state, m, p) && d in r.state.offers && r.state.offers[d][m] == 0
  {
    EchoJoins(c, p, ch);
    OwnerGone(c, d, p, ch, ch2, m);
    var s := EchoJoined(c, p, ch);
    var s2 := Do(s, Join(d, p, ch2));
    var s3 := Do(s2, EndSubscription(ch));
    var s4 := Do(s3, Leave(c));
    MissesMessage(s4, d, p, m, q);
    var tail := [Broadcast(m, q)] + ([Publish(m)] + []);
    RunFirst(Do(s4, Broadcast(m, q)), Publish(m), []);
    RunFirst(s4, Broadcast(m, q), [Publish(m)] + []);
    RunFirst(s3, Leave(c), tail);
    RunFirst(s2, EndSubscription(ch), [Leave(c)] + tail);
    RunFirst(s, Join(d, p, ch2), [EndSubscription(ch)] + ([Leave(c)] + tail));
    RunFirst(Init(), Join(c, p, ch), [Join(d, p, ch2)] + ([EndSubscription(ch)] + ([Leave(c)] + tail)));
  }

  // ------------------------------------------------------------------------ quiescence

  predicate Internal(a: Action) {
    a.Publish? || a.HandOff? || a.Forward?
  }

  function Count(run: seq<Action>, p: Action -> bool): nat {
    if run == [] then 0 else (if p(run[0]) then 1 else 0) + Count(run[1..], p)
  }

  const HANDOFFS: Action -> bool := (a: Action) => a.HandOff?

  /**
   Forwarding never republishes: over any broker, with no new broadcasts, however steps interleave, the
   publishes and forwards made and what is left undelivered add up to what there was, plus what the broker
   handed out.
   */
  lemma {:induction false} DeliveryBalance(s: State, run: seq<Action>)
    requires Run(s, run).At? && forall k :: 0 <= k < |run| ==> Internal(run[k])
    ensures var t := Run(s, run).state;
            |run| - Count(run, HANDOFFS) + |t.pending| + |t.inFlight| == |s.pending| + |s.inFlight| + Count(run, HANDOFFS)
    decreases |run|
  {
    if run != [] {
      assert Internal(run[0]);
      DeliveryBalance(Do(s, run[0]), run[1..]);
    }
  }

  /** The hand-offs that a broker handing a message to a channel once at most has left. */
  function Unhanded(s: State): set<(Chan, MsgId)> {
    set ch, m | ch in s.chans && m in s.origin && s.handed[(ch, m)] == 0 :: (ch, m)
  }

  function Undelivered(s: State): nat {
    |s.pending| + |s.inFlight| + 2 * |Unhanded(s)|
  }

  /** No channel is handed a message again. */
  predicate HandsOnce(s: State, run: seq<Action>)
    decreases |run|
  {
    run != [] && Can(s, run[0]) ==>
      (run[0].HandOff? ==> s.handed[(run[0].ch, run[0].m)] == 0) && HandsOnce(Do(s, run[0]), run[1..])
  }

  lemma HandOffUses(s: State, m: MsgId, ch: Chan)
    requires Accounted(s) && Can(s, HandOff(m, ch)) && s.handed[(ch, m)] == 0
    ensures |Unhanded(Do(s, HandOff(m, ch)))| == |Unhanded(s)| - 1
  {
    var before, after := Unhanded(s), Unhanded(Do(s, HandOff(m, ch)));
    assert m in s.origin.Keys;
    assert (ch, m) in before;
    assert after == before - {(ch, m)};
  }

  lemma InternalDecreases(s: State, a: Action)
    requires Accounted(s) && Can(s, a) && Internal(a) && (a.HandOff? ==> s.handed[(a.ch, a.m)] == 0)
    ensures Undelivered(Do(s, a)) < Undelivered(s)
  {
    if a.HandOff? {
      HandOffUses(s, a.m, a.ch);
    } else {
      assert Unhanded(Do(s, a)) == Unhanded(s);
    }
  }

  /**
   So a broker that hands a message to a channel once at most comes to rest: with no new broadcasts, at
   most Undelivered(s) publishes, hand-offs and forwards can follow, in any interleaving.
   */
  lemma {:induction false} Quiesces(s: State, run: seq<Action>)
    requires Accounted(s) && Run(s, run).At? && HandsOnce(s, run) && forall k :: 0 <= k < |run| ==> Internal(run[k])
    ensures |run| + Undelivered(Run(s, run).state) <= Undelivered(s)
    decreases |run|
  {
    if run != [] {
      assert Internal(run[0]);
      AccountedStep(s, run[0]);
      InternalDecreases(s, run[0]);
      Quiesces(Do(s, run[0]), run[1..]);
    }
  }

  /** A step still to be made by a broker that hands a message to a channel once at most. */
  predicate Due(s: State, a: Action) {
    Internal(a) && Can(s, a) && (a.HandOff? ==> s.handed[(a.ch, a.m)] == 0)
  }

  /** Nothing is left to publish or forward, and every live channel has had every message. */
  ghost predicate AtRest(s: State) {
    && s.pending == {} && s.inFlight == []
    && forall m, ch :: m in s.reach && ch in LiveChans(s) ==> s.handed[(ch, m)] > 0
  }

  lemma RestIff(s: State)
    ensures AtRest(s) <==> forall a: Action :: !Due(s, a)
  {
    if forall a: Action :: !Due(s, a) {
      forall m ensures m !in s.pending {
        assert !Due(s, Publish(m));
      }
      assert !Due(s, Forward(0));
      forall m, ch | m in s.reach && ch in LiveChans(s) ensures s.handed[(ch, m)] > 0 {
        assert !Due(s, HandOff(m, ch));
      }
    }
  }

  ghost predicate Settles(s: State, run: seq<Action>) {
    && Run(s, run).At? && HandsOnce(s, run) && (forall k :: 0 <= k < |run| ==> Internal(run[k]))
    && AtRest(Run(s, run).state)
  }

  ghost predicate SettlesWithin(s: State, n: nat) {
    exists run :: Settles(s, run) && |run| <= n
  }

  lemma SettlesFirst(s: State, a: Action, n: nat)
    requires Due(s, a) && SettlesWithin(Do(s, a), n)
    ensures SettlesWithin(s, n + 1)
  {
    var rest :| Settles(Do(s, a), rest) && |rest| <= n;
    RunFirst(s, a, rest);
    assert ([a] + rest)[1..] == rest;
    assert Settles(s, [a] + rest);
  }

  lemma DueStep(s: State, a: Action)
    requires Accounted(s) && Due(s, a)
    ensures Accounted(Do(s, a)) && Undelivered(Do(s, a)) < Undelivered(s)
  {
    AccountedStep(s, a);
    InternalDecreases(s, a);
  }

  /** It always can: from every state, steps of its own lead to rest. */
  lemma {:induction false} ComesToRest(s: State)
    requires Accounted(s)
    ensures SettlesWithin(s, Undelivered(s))
    decreases Undelivered(s)
  {
    RestIff(s);
    if AtRest(s) {
      assert Settles(s, []);
    } else {
      var a: Action :| Due(s, a);
      DueStep(s, a);
      ComesToRest(Do(s, a));
      SettlesFirst(s, a, Undelivered(Do(s, a)));
    }
  }
}
