/**
 Presence in Redis: one key per user that lives for TTL milliseconds, set when a stream opens, refreshed
 by that stream's heartbeat, deleted when any of the user's streams closes.
 */
module Presence {
  import opened Bytes

  const TTL: nat := 60000
  const REFRESH: nat := 30000

  datatype Event =
    | Online(user: Str, at: int)
    | Offline(user: Str, at: int)
    | Beat(user: Str, at: int)

  /** When each presence key expires, and when each user was last seen. */
  datatype Keys = Keys(expiry: map<Str, int>, lastSeen: map<Str, int>)

  const NONE: Keys := Keys(map[], map[])

  predicate Alive(k: Keys, user: Str, at: int) {
    user in k.expiry && at < k.expiry[user]
  }

  /** EXPIRE on a key that is gone does nothing. */
  function Applied(k: Keys, e: Event): Keys {
    match e
    case Online(user, at) => k.(expiry := k.expiry[user := at + TTL])
    case Offline(user, at) => Keys(k.expiry - {user}, k.lastSeen[user := at])
    case Beat(user, at) => if Alive(k, user, at) then k.(expiry := k.expiry[user := at + TTL]) else k
  }

  function After(run: seq<Event>): Keys {
    if run == [] then NONE else Applied(After(run[..|run| - 1]), run[|run| - 1])
  }

  datatype Info = Info(user: Str, online: bool, lastSeen: int)

  /** A user who reads online carries no last-seen time; one never seen has time 0. */
  function InfoOf(k: Keys, user: Str, at: int): Info {
    if Alive(k, user, at) then Info(user, true, 0)
    else Info(user, false, if user in k.lastSeen then k.lastSeen[user] else 0)
  }

  class RedisPresenceStore {
    var expiry: map<Str, int>
    var lastSeen: map<Str, int>

    ghost function State(): Keys
      reads this
    {
      Keys(expiry, lastSeen)
    }

    constructor ()
      ensures State() == NONE
    {
      expiry, lastSeen := map[], map[];
    }

    method SetOnline(user: Str, online: bool, now: int)
      modifies this
      ensures State() == Applied(old(State()), if online then Online(user, now) else Offline(user, now))
      ensures online ==> expiry == old(expiry)[user := now + 60000] && lastSeen == old(lastSeen)
      ensures !online ==> expiry == old(expiry) - {user} && lastSeen == old(lastSeen)[user := now]
    {
      if online {
        expiry := expiry[user := now + TTL];
      } else {
        expiry := expiry - {user};
        lastSeen := lastSeen[user := now];
      }
    }

    method Expire(user: Str, now: int)
      modifies this
      ensures State() == Applied(old(State()), Beat(user, now))
      ensures lastSeen == old(lastSeen)
      ensures expiry == if user in old(expiry) && now < old(expiry)[user] then old(expiry)[user := now + 60000] else old(expiry)
    {
      if user in expiry && now < expiry[user] {
        expiry := expiry[user := now + TTL];
      }
    }

    method Get(users: seq<Str>, now: int) returns (infos: seq<Info>)
      ensures |infos| == |users|
      ensures forall k :: 0 <= k < |users| ==> infos[k] == InfoOf(State(), users[k], now)
      ensures forall k :: 0 <= k < |users| ==>
                && infos[k].user == users[k] && (infos[k].online <==> users[k] in expiry && now < expiry[users[k]])
                && infos[k].lastSeen == if !infos[k].online && users[k] in lastSeen then lastSeen[users[k]] else 0
    {
      infos := [];
      for k := 0 to |users|
        invariant |infos| == k
        invariant forall j :: 0 <= j < k ==> infos[j] == InfoOf(State(), users[j], now)
      {
        var info := Info(users[k], users[k] in expiry && now < expiry[users[k]], 0);
        if !info.online && users[k] in lastSeen {
          info := info.(lastSeen := lastSeen[users[k]]);
        }
        infos := infos + [info];
      }
    }
  }

  // ------------------------------------------------------------------ what online means

  predicate Refreshes(e: Event, user: Str) {
    e.user == user && !e.Offline?
  }

  /** One of the refreshes from i up to n, less than TTL before at. */
  ghost predicate Covered(run: seq<Event>, user: Str, i: nat, n: nat, at: int)
    requires n <= |run|
  {
    exists k :: i <= k < n && Refreshes(run[k], user) && at < run[k].at + TTL
  }

  /** The user came online at i, was not set offline since, and never went TTL without a refresh. */
  ghost predicate Session(run: seq<Event>, user: Str, i: nat, at: int) {
    && i < |run| && run[i].Online? && run[i].user == user
    && (forall j :: i < j < |run| ==> !(run[j].Offline? && run[j].user == user))
    && (forall j :: i < j < |run| && Refreshes(run[j], user) ==> Covered(run, user, i, j, run[j].at))
    && Covered(run, user, i, |run|, at)
  }

  ghost predicate Open(run: seq<Event>, user: Str, at: int) {
    exists i: nat :: Session(run, user, i, at)
  }

  predicate InTime(run: seq<Event>) {
    forall i, j :: 0 <= i < j < |run| ==> run[i].at <= run[j].at
  }

  predicate UpTo(run: seq<Event>, at: int) {
    InTime(run) && forall i :: 0 <= i < |run| ==> run[i].at <= at
  }

  /** Over every timed run, a user reads online iff such a session is open. */
  lemma {:induction false} OnlineIff(run: seq<Event>, user: Str, at: int)
    requires UpTo(run, at)
    ensures Alive(After(run), user, at) <==> Open(run, user, at)
  {
    if run != [] {
      var front, e := run[..|run| - 1], run[|run| - 1];
      var earlier := if e.Beat? && e.user == user then e.at else at;
      OnlineIff(front, user, earlier);
      OpenAfter(front, e, user, at);
      assert run == front + [e];
    }
  }

  lemma OpenAfter(front: seq<Event>, e: Event, user: Str, at: int)
    requires UpTo(front + [e], at)
    ensures Open(front + [e], user, at) <==>
            if e.user != user then Open(front, user, at)
            else match e
                 case Online(_, t) => at < t + TTL
                 case Offline(_, _) => false
                 case Beat(_, t) => at < t + TTL && Open(front, user, t)
  {
    if e.user != user {
      OthersEvent(front, e, user, at);
    } else if e.Online? {
      FreshSession(front, e, at);
    } else if e.Beat? {
      BeatExtends(front, e, at);
    } else {
      assert (front + [e])[|front|] == e;
    }
  }

  lemma CoveredSnoc(front: seq<Event>, e: Event, user: Str, i: nat, n: nat, at: int)
    requires n <= |front|
    ensures Covered(front + [e], user, i, n, at) <==> Covered(front, user, i, n, at)
  {
    assert forall k :: 0 <= k < n ==> (front + [e])[k] == front[k];
  }

  lemma CoveredLast(front: seq<Event>, e: Event, user: Str, i: nat, at: int)
    requires i <= |front|
    ensures Covered(front + [e], user, i, |front| + 1, at) <==>
            Covered(front, user, i, |front|, at) || (Refreshes(e, user) && at < e.at + TTL)
  {
    var run := front + [e];
    assert forall k :: 0 <= k < |front| ==> run[k] == front[k];
    assert run[|front|] == e;
  }

  /** A session of the longer run is one of the shorter that the last event does not break. */
  lemma SessionSnoc(front: seq<Event>, e: Event, user: Str, i: nat, t: int, at: int)
    requires i < |front| && Session(front, user, i, t) && !(e.Offline? && e.user == user)
    requires Refreshes(e, user) ==> Covered(front, user, i, |front|, e.at)
    requires Covered(front + [e], user, i, |front| + 1, at)
    ensures Session(front + [e], user, i, at)
  {
    var run := front + [e];
    forall j | i < j < |run| && Refreshes(run[j], user) ensures Covered(run, user, i, j, run[j].at) {
      CoveredSnoc(front, e, user, i, j, run[j].at);
    }
  }

  lemma SessionFront(front: seq<Event>, e: Event, user: Str, i: nat, t: int, at: int)
    requires i < |front| && Session(front + [e], user, i, at)
    requires Covered(front, user, i, |front|, t)
    ensures Session(front, user, i, t)
  {
    var run := front + [e];
    assert forall k :: 0 <= k < |front| ==> run[k] == front[k];
    forall j | i < j < |front| && Refreshes(front[j], user) ensures Covered(front, user, i, j, front[j].at) {
      CoveredSnoc(front, e, user, i, j, front[j].at);
    }
  }

  lemma OthersEvent(front: seq<Event>, e: Event, user: Str, at: int)
    requires e.user != user
    ensures Open(front + [e], user, at) <==> Open(front, user, at)
  {
    if i: nat :| Session(front, user, i, at) {
      CoveredLast(front, e, user, i, at);
      SessionSnoc(front, e, user, i, at, at);
    }
    if i: nat :| Session(front + [e], user, i, at) {
      CoveredLast(front, e, user, i, at);
      SessionFront(front, e, user, i, at, at);
    }
  }

  lemma FreshSession(front: seq<Event>, e: Event, at: int)
    requires e.Online? && UpTo(front + [e], at)
    ensures Open(front + [e], e.user, at) <==> at < e.at + TTL
  {
    var run := front + [e];
    if at < e.at + TTL {
      assert run[|front|] == e;
      assert Session(run, e.user, |front|, at);
    }
    if i: nat :| Session(run, e.user, i, at) {
      var k :| i <= k < |run| && Refreshes(run[k], e.user) && at < run[k].at + TTL;
      assert run[|front|] == e && run[k].at <= e.at;
    }
  }

  lemma BeatExtends(front: seq<Event>, e: Event, at: int)
    requires e.Beat? && UpTo(front + [e], at)
    ensures Open(front + [e], e.user, at) <==> at < e.at + TTL && Open(front, e.user, e.at)
  {
    var run := front + [e];
    assert run[|front|] == e;
    if at < e.at + TTL {
      if i: nat :| Session(front, e.user, i, e.at) {
        CoveredLast(front, e, e.user, i, at);
        SessionSnoc(front, e, e.user, i, e.at, at);
      }
    }
    if i: nat :| Session(run, e.user, i, at) {
      var k :| i <= k < |run| && Refreshes(run[k], e.user) && at < run[k].at + TTL;
      assert i < |front| && run[k].at <= e.at;
      assert Covered(run, e.user, i, |front|, e.at);
      CoveredSnoc(front, e, e.user, i, |front|, e.at);
      SessionFront(front, e, e.user, i, e.at, at);
    }
  }

  // ------------------------------------------------------------------ what follows

  /** Refreshed at least every period since coming online, and not set offline: online throughout. */
  lemma TickingStaysOnline(run: seq<Event>, user: Str, i: nat, at: int, period: nat)
    requires UpTo(run, at) && period + 1 < TTL
    requires i < |run| && run[i].Online? && run[i].user == user
    requires forall j :: i < j < |run| ==> !(run[j].Offline? && run[j].user == user)
    requires AlwaysRefreshed(run, user, i, at, period)
    ensures Alive(After(run), user, at)
  {
    TicksCover(run, user, i, at, period);
    assert Session(run, user, i, at);
    OnlineIff(run, user, at);
  }

  lemma TicksCover(run: seq<Event>, user: Str, i: nat, at: int, period: nat)
    requires UpTo(run, at) && period + 1 < TTL && i < |run| && Refreshes(run[i], user)
    requires AlwaysRefreshed(run, user, i, at, period)
    ensures Covered(run, user, i, |run|, at)
    ensures forall j :: i < j < |run| && Refreshes(run[j], user) ==> Covered(run, user, i, j, run[j].at)
  {
    forall j | i < j < |run| ensures Covered(run, user, i, j, run[j].at) {
      assert run[i].at <= run[j].at <= at;
      NextTick(run, user, i, j, period);
    }
    assert run[i].at <= at && RefreshedWithin(run, user, i, at, period);
    var k :| Ticks(run, user, i, k, at, period);
  }

  ghost predicate AlwaysRefreshed(run: seq<Event>, user: Str, i: nat, at: int, period: nat)
    requires i < |run|
  {
    forall x :: run[i].at <= x <= at ==> RefreshedWithin(run, user, i, x, period)
  }

  ghost predicate RefreshedWithin(run: seq<Event>, user: Str, i: nat, x: int, period: nat) {
    exists k :: Ticks(run, user, i, k, x, period)
  }

  predicate Ticks(run: seq<Event>, user: Str, i: nat, k: int, x: int, period: nat) {
    i <= k < |run| && Refreshes(run[k], user) && run[k].at <= x <= run[k].at + period
  }

  lemma NextTick(run: seq<Event>, user: Str, i: nat, j: nat, period: nat)
    requires InTime(run) && i < j < |run| && Refreshes(run[i], user) && period + 1 < TTL
    requires run[i].at < run[j].at ==> RefreshedWithin(run, user, i, run[j].at - 1, period)
    ensures Covered(run, user, i, j, run[j].at)
  {
    if run[i].at < run[j].at {
      var k :| Ticks(run, user, i, k, run[j].at - 1, period);
      assert k < j;
    }
  }

  /** A stream that comes online and whose heartbeat has ticked n times. */
  function HeartbeatRun(user: Str, start: int, n: nat): seq<Event> {
    if n == 0 then [Online(user, start)] else HeartbeatRun(user, start, n - 1) + [Beat(user, start + REFRESH * n)]
  }

  /** The ticker's own schedule: if the stream dies after its n-th tick, the user reads online for exactly TTL more. */
  lemma {:induction false} HeartbeatKeepsOnline(user: Str, start: int, n: nat, at: int)
    ensures var k := After(HeartbeatRun(user, start, n));
            Alive(k, user, at) <==> at < start + REFRESH * n + TTL
  {
    var run := HeartbeatRun(user, start, n);
    if n == 0 {
      assert run[..0] == [];
    } else {
      HeartbeatKeepsOnline(user, start, n - 1, start + REFRESH * n);
      HeartbeatKeepsOnline(user, start, n - 1, at);
      assert run[..|run| - 1] == HeartbeatRun(user, start, n - 1);
    }
  }

  /** After a crash: TTL after the last refresh the user reads offline, and keeps the last-seen time of the last close. */
  lemma SilenceGoesOffline(run: seq<Event>, user: Str, at: int)
    requires UpTo(run, at)
    requires forall k :: 0 <= k < |run| && Refreshes(run[k], user) ==> run[k].at + TTL <= at
    ensures !Alive(After(run), user, at)
  {
    OnlineIff(run, user, at);
  }

  /**
   Closing one stream of a user with several: the heartbeats of the others do not bring the key back.
   From there on only a new stream does.
   */
  lemma BeatsDoNotRevive(run: seq<Event>, user: Str, closed: nat, at: int)
    requires UpTo(run, at) && closed < |run| && run[closed] == Offline(user, run[closed].at)
    requires forall j :: closed < j < |run| && run[j].user == user ==> !run[j].Online?
    ensures !Alive(After(run), user, at)
  {
    OnlineIff(run, user, at);
    if i: nat :| Session(run, user, i, at) {
      assert i != closed;
    }
  }

  /** Position of a user's last close, or -1. */
  function LastClose(run: seq<Event>, user: Str): int {
    if run == [] then -1
    else if run[|run| - 1].Offline? && run[|run| - 1].user == user then |run| - 1
    else LastClose(run[..|run| - 1], user)
  }

  /** An offline user's last-seen time is that of the last close of any of their streams; a crash leaves none. */
  lemma {:induction false} LastSeenIsLastClose(run: seq<Event>, user: Str, at: int)
    requires !Alive(After(run), user, at)
    ensures var c := LastClose(run, user);
            -1 <= c < |run| && InfoOf(After(run), user, at) == Info(user, false, if c >= 0 then run[c].at else 0)
  {
    LastSeenRow(run, user);
  }

  lemma {:induction false} LastSeenRow(run: seq<Event>, user: Str)
    ensures var c := LastClose(run, user);
            && -1 <= c < |run| && (user in After(run).lastSeen <==> c >= 0)
            && (c >= 0 ==> After(run).lastSeen[user] == run[c].at)
  {
    if run != [] {
      LastSeenRow(run[..|run| - 1], user);
    }
  }
}
