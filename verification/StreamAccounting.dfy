/**
 The connection counter against the rooms. The counter is moved outside the lock, so it lags the
 rooms by the streams caught in between, exactly; and because admission reads it before anything is
 registered, it can overshoot the limit by the streams in flight, and by no more.
 */
module StreamAccounting {
  import opened Bytes
  import opened Streams
  import opened StreamSafety
  import Hub

  /** The streams whose handler is at one of the given points. */
  function AtPhases(s: State, phases: set<Phase>): set<Sid> {
    set i | i in s.streams && s.streams[i].phase in phases
  }

  const COUNTED: set<Phase> := {Serving, Waiting, Phase.Unregistered}
  const PRESENT: set<Phase> := {Phase.Registered, Serving, Waiting}
  const IN_FLIGHT: set<Phase> := {Admitted, Phase.Registered}

  predicate Accounted(s: State) {
    s.connCnt == |AtPhases(s, COUNTED)|
  }

  function At(s: State, i: Sid, phases: set<Phase>): int {
    if i in s.streams && s.streams[i].phase in phases then 1 else 0
  }

  /** Only the subject of an action can enter or leave a set of streams at given points. */
  lemma PhaseCount(s: State, t: State, a: Action, i: Sid, phases: set<Phase>)
    requires Enabled(s, a) && t.streams == StreamsAfter(s, a) && Subject(a) <= {i}
    ensures |AtPhases(t, phases)| == |AtPhases(s, phases)| + At(t, i, phases) - At(s, i, phases)
  {
    var before, after := AtPhases(s, phases), AtPhases(t, phases);
    forall j | j != i ensures j in after <==> j in before {
      OtherStreams(s, t, a, j);
    }
    assert after - {i} == before - {i};
    SizeSplit(before, i);
    SizeSplit(after, i);
  }

  lemma SizeSplit(x: set<Sid>, i: Sid)
    ensures |x| == |x - {i}| + if i in x then 1 else 0
  {
    if i in x {
      assert x == (x - {i}) + {i};
    }
  }

  lemma CountedMove(s: State, t: State, a: Action, i: Sid)
    requires Enabled(s, a) && t.streams == StreamsAfter(s, a) && Subject(a) <= {i}
    ensures At(t, i, COUNTED) - At(s, i, COUNTED) == if a.Count? then 1 else if a.Uncount? then -1 else 0
  {
    if i !in Subject(a) {
      OtherStreams(s, t, a, i);
    }
  }

  lemma InFlightMove(s: State, t: State, a: Action, i: Sid)
    requires Enabled(s, a) && t.streams == StreamsAfter(s, a) && Subject(a) <= {i}
    ensures At(t, i, IN_FLIGHT) - At(s, i, IN_FLIGHT) == if a.Admit? then 1 else if a.Count? || a.Reject? then -1 else 0
  {
    if i !in Subject(a) {
      OtherStreams(s, t, a, i);
    }
  }

  function Mover(a: Action): (i: Sid)
    ensures Subject(a) <= {i}
  {
    if a.BeginBroadcast? || a.EndBroadcast? || a.EndSubscription? then 0 else a.i
  }

  lemma AccountedStep(s: State, t: State, a: Action)
    requires Accounted(s) && Enabled(s, a) && t.streams == StreamsAfter(s, a)
    requires t.connCnt == s.connCnt + (if a.Count? then 1 else if a.Uncount? then -1 else 0)
    ensures Accounted(t)
  {
    PhaseCount(s, t, a, Mover(a), COUNTED);
    CountedMove(s, t, a, Mover(a));
  }

  // ------------------------------------------------------------------- the sum over rooms

  ghost function Pick(rooms: map<Str, Room>): (r: Str)
    requires rooms != map[]
    ensures r in rooms
  {
    var r :| r in rooms; r
  }

  ghost function TotalClients(rooms: map<Str, Room>): nat
    decreases |rooms|
  {
    if rooms == map[] then 0
    else var r := Pick(rooms); |rooms[r].clients| + TotalClients(rooms - {r})
  }

  predicate Houses(rooms: map<Str, Room>, home: map<Sid, Str>, i: Sid, r: Str) {
    r in rooms && i in rooms[r].clients <==> i in home && home[i] == r
  }

  lemma HousesRest(rooms: map<Str, Room>, home: map<Sid, Str>, r: Str)
    requires r in rooms && forall i, q :: Houses(rooms, home, i, q)
    ensures rooms[r].clients <= home.Keys
    ensures forall i, q :: Houses(rooms - {r}, home - rooms[r].clients, i, q)
  {
    forall i | i in rooms[r].clients ensures i in home {
      assert Houses(rooms, home, i, r);
    }
    forall i, q ensures Houses(rooms - {r}, home - rooms[r].clients, i, q) {
      assert Houses(rooms, home, i, q) && Houses(rooms, home, i, r);
    }
  }

  /** If rooms partition a set of streams, their sizes add up to its size. */
  lemma {:induction false} PartitionTotal(rooms: map<Str, Room>, home: map<Sid, Str>)
    requires forall i, r :: Houses(rooms, home, i, r)
    ensures TotalClients(rooms) == |home|
    decreases |rooms|
  {
    if rooms == map[] {
      forall i ensures i !in home {
        assert i in home ==> Houses(rooms, home, i, home[i]);
      }
      assert home == map[];
    } else {
      var r := Pick(rooms);
      HousesRest(rooms, home, r);
      PartitionTotal(rooms - {r}, home - rooms[r].clients);
      DisjointSize(home, rooms[r].clients);
    }
  }

  lemma DisjointSize(home: map<Sid, Str>, here: set<Sid>)
    requires here <= home.Keys
    ensures |home| == |here| + |home - here|
  {
    assert home.Keys == here + (home - here).Keys;
  }

  lemma TotalIsPresent(s: State)
    requires Membership(s)
    ensures TotalClients(s.rooms) == |AtPhases(s, PRESENT)|
  {
    var present := AtPhases(s, PRESENT);
    var home := map i | i in present :: s.streams[i].room;
    assert home.Keys == present;
    forall i, r ensures Houses(s.rooms, home, i, r) {
      assert MemberIff(s, i, r);
    }
    PartitionTotal(s.rooms, home);
  }

  lemma {:induction false} AccountedRun(cfg: Config, s: State, run: seq<Action>)
    requires Accounted(s) && Run(cfg, s, run).At?
    ensures Accounted(Run(cfg, s, run).state)
    decreases |run|
  {
    if run != [] {
      AccountedStep(s, Do(cfg, s, run[0]), run[0]);
      AccountedRun(cfg, Do(cfg, s, run[0]), run[1..]);
    }
  }

  /**
   At every state of every run: the counter is the number of clients in all rooms, less those
   registered and not yet counted, plus those unregistered and not yet uncounted.
   */
  lemma CounterLaw(cfg: Config, run: seq<Action>)
    requires Run(cfg, Init(), run).At?
    ensures var s := Run(cfg, Init(), run).state;
            s.connCnt == TotalClients(s.rooms) - |AtPhases(s, {Phase.Registered})| + |AtPhases(s, {Phase.Unregistered})|
  {
    var s := Run(cfg, Init(), run).state;
    assert AtPhases(Init(), COUNTED) == {};
    AccountedRun(cfg, Init(), run);
    SafeRun(cfg, Init(), run);
    TotalIsPresent(s);
    PhasesSplit(s, {Serving, Waiting}, Phase.Registered);
    PhasesSplit(s, {Serving, Waiting}, Phase.Unregistered);
    assert PRESENT == {Serving, Waiting} + {Phase.Registered} && COUNTED == {Serving, Waiting} + {Phase.Unregistered};
  }

  lemma PhasesSplit(s: State, phases: set<Phase>, p: Phase)
    requires p !in phases
    ensures |AtPhases(s, phases + {p})| == |AtPhases(s, phases)| + |AtPhases(s, {p})|
  {
    assert AtPhases(s, phases + {p}) == AtPhases(s, phases) + AtPhases(s, {p});
    assert AtPhases(s, phases) !! AtPhases(s, {p});
  }

  // -------------------------------------------------------------------------- capacity

  /** At every state of the run, at most k streams have been admitted and not yet counted. */
  predicate FewInFlight(cfg: Config, s: State, run: seq<Action>, k: nat)
    decreases |run|
  {
    && |AtPhases(s, IN_FLIGHT)| <= k
    && (run != [] && Can(cfg, s, run[0]) ==> FewInFlight(cfg, Do(cfg, s, run[0]), run[1..], k))
  }

  predicate WithinLimit(cfg: Config, s: State, k: nat) {
    s.connCnt + |AtPhases(s, IN_FLIGHT)| <= cfg.maxConns + k - 1
  }

  /** Admission sees a counter below the limit; counting moves a stream from flight to the counter. */
  lemma WithinLimitStep(cfg: Config, s: State, t: State, a: Action, k: nat)
    requires cfg.maxConns > 0 && Can(cfg, s, a) && t.streams == StreamsAfter(s, a)
    requires t.connCnt == s.connCnt + (if a.Count? then 1 else if a.Uncount? then -1 else 0)
    requires WithinLimit(cfg, s, k) && |AtPhases(t, IN_FLIGHT)| <= k
    ensures WithinLimit(cfg, t, k)
  {
    PhaseCount(s, t, a, Mover(a), IN_FLIGHT);
    InFlightMove(s, t, a, Mover(a));
  }

  lemma {:induction false} WithinLimitRun(cfg: Config, s: State, run: seq<Action>, k: nat)
    requires cfg.maxConns > 0 && WithinLimit(cfg, s, k)
    requires Run(cfg, s, run).At? && FewInFlight(cfg, s, run, k)
    ensures WithinLimit(cfg, Run(cfg, s, run).state, k)
    decreases |run|
  {
    if run != [] {
      var t := Do(cfg, s, run[0]);
      assert |AtPhases(t, IN_FLIGHT)| <= k;
      WithinLimitStep(cfg, s, t, run[0], k);
      WithinLimitRun(cfg, t, run[1..], k);
    }
  }

  /** With a limit set and at most k streams in flight, the counter never exceeds the limit by k or more. */
  lemma CapacityBound(cfg: Config, run: seq<Action>, k: nat)
    requires cfg.maxConns > 0
    requires Run(cfg, Init(), run).At? && FewInFlight(cfg, Init(), run, k)
    ensures Run(cfg, Init(), run).state.connCnt <= cfg.maxConns + k - 1
  {
    assert AtPhases(Init(), IN_FLIGHT) == {};
    WithinLimitRun(cfg, Init(), run, k);
  }

  /** A full pod stays full and admits nobody for as long as nobody is uncounted. */
  lemma {:induction false} FullUntilUncount(cfg: Config, s: State, run: seq<Action>)
    requires Hub.Full(cfg.maxConns, s.connCnt) && Run(cfg, s, run).At?
    requires forall k :: 0 <= k < |run| ==> !run[k].Uncount?
    ensures Hub.Full(cfg.maxConns, Run(cfg, s, run).state.connCnt)
    ensures Run(cfg, s, run).state.streams.Keys == s.streams.Keys
    decreases |run|
  {
    if run != [] {
      assert !run[0].Uncount?;
      var t := Do(cfg, s, run[0]);
      KeysStep(s, t, run[0]);
      FullUntilUncount(cfg, t, run[1..]);
    }
  }

  lemma KeysStep(s: State, t: State, a: Action)
    requires Enabled(s, a) && t.streams == StreamsAfter(s, a)
    ensures t.streams.Keys == s.streams.Keys + if a.Admit? then {a.i} else {}
  {
  }

  // The bound is attained: fill all places but one, then admit k streams before any of them is counted.

  function Joins(j: nat, total: nat): seq<Action>
    decreases total - j
  {
    if j >= total then [] else [Register(j, [])] + ([Count(j)] + Joins(j + 1, total))
  }

  function Admits(m: nat, n: nat, total: nat): seq<Action>
    decreases total - n
  {
    if n >= total then Joins(m, total) else [Admit(n)] + Admits(m, n + 1, total)
  }

  function Fills(j: nat, m: nat, total: nat): seq<Action>
    decreases m - j
  {
    if j >= m then Admits(m, m, total)
    else [Admit(j)] + ([Register(j, [])] + ([Count(j)] + Fills(j + 1, m, total)))
  }

  /** Streams 0..n exist, the first j of them serving and the others admitted; no broadcast runs. */
  ghost predicate Line(s: State, j: nat, n: nat) {
    && s.connCnt == j && s.broadcasters == map[]
    && (forall i: Sid :: i in s.streams <==> i < n)
    && (forall i :: i in s.streams ==> s.streams[i].phase == if i < j then Serving else Admitted)
  }

  predicate Overshoots(cfg: Config, s: State, run: seq<Action>, k: nat, total: nat) {
    Run(cfg, s, run).At? && Run(cfg, s, run).state.connCnt == total && FewInFlight(cfg, s, run, k)
  }

  lemma {:induction false} SizeBetween(x: set<Sid>, j: nat, n: nat)
    requires j <= n && forall i :: i in x ==> j <= i < n
    ensures |x| <= n - j
  {
    if n == j {
      assert x == {};
    } else {
      SizeBetween(x - {n - 1}, j, n - 1);
      SizeSplit(x, n - 1);
    }
  }

  /** All in flight are among the k streams from j on. */
  predicate FlyFrom(s: State, j: nat, k: nat) {
    forall i :: i in AtPhases(s, IN_FLIGHT) ==> j <= i < j + k
  }

  lemma OvershootsFirst(cfg: Config, s: State, a: Action, rest: seq<Action>, j: nat, k: nat, total: nat)
    requires Can(cfg, s, a) && FlyFrom(s, j, k)
    requires Overshoots(cfg, Do(cfg, s, a), rest, k, total)
    ensures Overshoots(cfg, s, [a] + rest, k, total)
  {
    assert ([a] + rest)[1..] == rest;
    SizeBetween(AtPhases(s, IN_FLIGHT), j, j + k);
  }

  lemma JoinOne(cfg: Config, s: State, j: nat, n: nat, k: nat)
    requires Line(s, j, n) && j < n <= j + k
    ensures Can(cfg, s, Register(j, [])) && FlyFrom(s, j, k)
    ensures var t := Do(cfg, s, Register(j, []));
            && Can(cfg, t, Count(j)) && FlyFrom(t, j, k)
            && Line(Do(cfg, t, Count(j)), j + 1, n)
  {
  }

  /** From every line of streams like this one the run overshoots. */
  ghost predicate LineOvershoots(cfg: Config, j: nat, n: nat, run: seq<Action>, k: nat, total: nat) {
    forall s :: Line(s, j, n) ==> Overshoots(cfg, s, run, k, total)
  }

  lemma JoinFirst(cfg: Config, j: nat, n: nat, k: nat, total: nat, rest: seq<Action>)
    requires j < n <= j + k && LineOvershoots(cfg, j + 1, n, rest, k, total)
    ensures LineOvershoots(cfg, j, n, [Register(j, [])] + ([Count(j)] + rest), k, total)
  {
    forall s | Line(s, j, n) ensures Overshoots(cfg, s, [Register(j, [])] + ([Count(j)] + rest), k, total) {
      JoinOne(cfg, s, j, n, k);
      var t := Do(cfg, s, Register(j, []));
      OvershootsFirst(cfg, t, Count(j), rest, j, k, total);
      OvershootsFirst(cfg, s, Register(j, []), [Count(j)] + rest, j, k, total);
    }
  }

  lemma AdmitOne(cfg: Config, s: State, j: nat, n: nat)
    requires Line(s, j, n) && j <= n && j < cfg.maxConns
    ensures Can(cfg, s, Admit(n)) && Line(Do(cfg, s, Admit(n)), j, n + 1)
  {
  }

  lemma AdmitFirst(cfg: Config, j: nat, n: nat, k: nat, total: nat, rest: seq<Action>)
    requires j <= n <= j + k && j < cfg.maxConns && LineOvershoots(cfg, j, n + 1, rest, k, total)
    ensures LineOvershoots(cfg, j, n, [Admit(n)] + rest, k, total)
  {
    forall s | Line(s, j, n) ensures Overshoots(cfg, s, [Admit(n)] + rest, k, total) {
      AdmitOne(cfg, s, j, n);
      OvershootsFirst(cfg, s, Admit(n), rest, j, k, total);
    }
  }

  lemma {:induction false} JoinsOvershoot(cfg: Config, j: nat, k: nat, total: nat)
    requires j <= total <= j + k
    ensures LineOvershoots(cfg, j, total, Joins(j, total), k, total)
    decreases total - j
  {
    if j == total {
      forall s | Line(s, j, total) ensures Overshoots(cfg, s, [], k, total) {
        SizeBetween(AtPhases(s, IN_FLIGHT), j, total);
      }
    } else {
      JoinsOvershoot(cfg, j + 1, k, total);
      JoinFirst(cfg, j, total, k, total, Joins(j + 1, total));
    }
  }

  lemma {:induction false} AdmitsOvershoot(cfg: Config, m: nat, n: nat, k: nat, total: nat)
    requires m < cfg.maxConns && m <= n <= total == m + k
    ensures LineOvershoots(cfg, m, n, Admits(m, n, total), k, total)
    decreases total - n
  {
    if n == total {
      JoinsOvershoot(cfg, m, k, total);
    } else {
      AdmitsOvershoot(cfg, m, n + 1, k, total);
      AdmitFirst(cfg, m, n, k, total, Admits(m, n + 1, total));
    }
  }

  lemma {:induction false} FillsOvershoot(cfg: Config, j: nat, m: nat, k: nat, total: nat)
    requires j <= m < cfg.maxConns && total == m + k && k >= 1
    ensures LineOvershoots(cfg, j, j, Fills(j, m, total), k, total)
    decreases m - j
  {
    if j == m {
      AdmitsOvershoot(cfg, m, m, k, total);
    } else {
      FillsOvershoot(cfg, j + 1, m, k, total);
      JoinFirst(cfg, j, j + 1, k, total, Fills(j + 1, m, total));
      AdmitFirst(cfg, j, j, k, total, [Register(j, [])] + ([Count(j)] + Fills(j + 1, m, total)));
    }
  }

  /** For every limit and every k >= 1 there is a run with k in flight at most that ends k - 1 above the limit. */
  lemma CapacityBoundAttained(cfg: Config, k: nat)
    requires cfg.maxConns > 0 && k >= 1
    ensures exists run :: Run(cfg, Init(), run).At? && FewInFlight(cfg, Init(), run, k) &&
                          Run(cfg, Init(), run).state.connCnt == cfg.maxConns + k - 1
  {
    var m: nat := cfg.maxConns - 1;
    FillsOvershoot(cfg, 0, m, k, m + k);
    assert Line(Init(), 0, 0);
    assert Overshoots(cfg, Init(), Fills(0, m, m + k), k, m + k);
  }
}
