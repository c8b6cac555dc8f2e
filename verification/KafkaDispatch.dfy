/**
 One turn of the Kafka dispatcher over one room while the room's list is changed under it. The dispatcher
 copies the slice under the read lock and then sends, cell by cell, with no lock held; subscribes and
 cancels fall between any two of its sends. A send on a closed channel ends the process.

 The turn is a step machine on the cells, which the broker's own methods are shown to play. What the cells
 hold is then read off the registry: the last channel that stood at a position while the room's slice was
 still over the dispatcher's array.
 */
module KafkaDispatch {
  import opened Bytes
  import opened Slices
  import opened KafkaBroker

  /** The room's list now, and the array the dispatcher walks: `attached` while the list is still kept in it. */
  datatype Turn = Turn(list: seq<nat>, cells: seq<nat>, attached: bool, closed: set<nat>, next: nat,
                       length: nat, sent: seq<nat>, panicked: bool)

  datatype Action = Subscribe | Cancel(ch: nat) | Send

  predicate Shaped(t: Turn) {
    t.length <= |t.cells| && (t.attached ==> |t.list| <= |t.cells|)
  }

  predicate Can(t: Turn, a: Action) {
    !t.panicked && Shaped(t) &&
    match a
    case Subscribe => true
    case Cancel(ch) => ch in t.list
    case Send => |t.sent| < t.length
  }

  function CellsAfter(t: Turn, a: Action): seq<nat>
    requires Can(t, a)
  {
    if !t.attached then t.cells
    else
      match a
      case Subscribe => Appended(t.cells, |t.list|, t.next)
      case Cancel(ch) => Shifted(t.cells, |t.list|, Position(t.list, ch))
      case Send => t.cells
  }

  function ListAfter(list: seq<nat>, next: nat, a: Action): seq<nat> {
    match a
    case Subscribe => list + [next]
    case Cancel(ch) => WithoutFirst(list, ch)
    case Send => list
  }

  function Do(t: Turn, a: Action): Turn
    requires Can(t, a)
  {
    var list := ListAfter(t.list, t.next, a);
    var u := t.(list := list, cells := CellsAfter(t, a));
    match a
    case Subscribe => u.(attached := t.attached && |t.list| < |t.cells|, next := t.next + 1)
    case Cancel(ch) => u.(attached := t.attached && list != [], closed := t.closed + {ch})
    case Send => u.(sent := t.sent + [t.cells[|t.sent|]], panicked := t.cells[|t.sent|] in t.closed)
  }

  ghost predicate Inv(t: Turn) {
    && |t.sent| <= t.length <= |t.cells|
    && (t.attached ==> |t.list| <= |t.cells| && t.cells[..|t.list|] == t.list)
    && Distinct(t.list)
    && (forall ch :: ch in t.list ==> ch < t.next && ch !in t.closed)
    && (forall k :: 0 <= k < t.length ==> t.cells[k] < t.next)
    && (forall ch :: ch in t.closed ==> ch < t.next)
  }

  lemma CancelKeeps(t: Turn, ch: nat)
    requires Inv(t) && Can(t, Cancel(ch))
    ensures Inv(Do(t, Cancel(ch)))
  {
    WithoutKeeps(t.list, Position(t.list, ch));
    if t.attached {
      ShiftKeeps(t.cells, t.list, Position(t.list, ch), t.length, t.next);
    }
  }

  lemma ShiftKeeps(cells: seq<nat>, list: seq<nat>, i: nat, length: nat, next: nat)
    requires i < |list| <= |cells| && cells[..|list|] == list && length <= |cells|
    requires (forall k :: 0 <= k < length ==> cells[k] < next) && (forall ch :: ch in list ==> ch < next)
    ensures |Shifted(cells, |list|, i)| == |cells|
    ensures Shifted(cells, |list|, i)[..|list| - 1] == Without(list, i)
    ensures forall k :: 0 <= k < length ==> Shifted(cells, |list|, i)[k] < next
  {
    ShiftedFront(cells, |list|, i);
    ShiftedFrom(cells, |list|, i);
    assert forall k :: 0 <= k < |list| ==> cells[k] == list[k] && list[k] in list;
  }

  lemma InvStep(t: Turn, a: Action)
    requires Inv(t) && Can(t, a)
    ensures Inv(Do(t, a))
  {
    match a
    case Subscribe =>
      assert t.attached && |t.list| < |t.cells| ==>
               Appended(t.cells, |t.list|, t.next)[..|t.list| + 1] == t.cells[..|t.list|] + [t.next];
      assert t.next !in t.list;
    case Cancel(ch) => CancelKeeps(t, ch);
    case Send =>
  }

  /** The turn begins: the dispatcher's slice is the room's list. */
  function Begin(list: seq<nat>, cells: seq<nat>, closed: set<nat>, next: nat): Turn {
    Turn(list, cells, list != [], closed, next, |list|, [], false)
  }

  datatype Outcome = Stuck | At(turn: Turn)

  function Run(t: Turn, run: seq<Action>): Outcome {
    if run == [] then At(t)
    else
      match Run(t, run[..|run| - 1])
      case Stuck => Stuck
      case At(u) => if Can(u, run[|run| - 1]) then At(Do(u, run[|run| - 1])) else Stuck
  }

  // ------------------------------------------------------------------ what the registry says

  /** The room's list after a run, and whether its slice is still over the array of the start. */
  datatype Listing = Listing(list: seq<nat>, next: nat, attached: bool)

  function Listed(t: Turn, run: seq<Action>): Listing {
    if run == [] then Listing(t.list, t.next, t.attached)
    else
      var l, a := Listed(t, run[..|run| - 1]), run[|run| - 1];
      var list := ListAfter(l.list, l.next, a);
      match a
      case Subscribe => Listing(list, l.next + 1, l.attached && |l.list| < |t.cells|)
      case Cancel(_) => Listing(list, l.next, l.attached && list != [])
      case Send => l
  }

  /** The last channel that stood at position k while the room's slice was over the array. */
  function Occupant(t: Turn, run: seq<Action>, k: nat): nat
    requires k < |t.cells|
  {
    var l := Listed(t, run);
    if run == [] then t.cells[k]
    else if l.attached && k < |l.list| then l.list[k]
    else Occupant(t, run[..|run| - 1], k)
  }

  /** The channels sent to: at each send, the occupant of the next position at that time. */
  function SentIn(t: Turn, run: seq<Action>): seq<nat> {
    if run == [] then t.sent
    else
      var front := run[..|run| - 1];
      var sent := SentIn(t, front);
      if run[|run| - 1].Send? && |sent| < |t.cells| then sent + [Occupant(t, front, |sent|)] else sent
  }

  function SendsIn(run: seq<Action>): nat {
    if run == [] then 0 else SendsIn(run[..|run| - 1]) + if run[|run| - 1].Send? then 1 else 0
  }

  function CancelledIn(run: seq<Action>): set<nat> {
    if run == [] then {}
    else CancelledIn(run[..|run| - 1]) + match run[|run| - 1] case Cancel(ch) => {ch} case _ => {}
  }

  /** The machine after a run, read off the registry's history. */
  ghost predicate ReadOff(t: Turn, run: seq<Action>, u: Turn) {
    && Listed(t, run) == Listing(u.list, u.next, u.attached)
    && u.length == t.length && |u.cells| == |t.cells|
    && u.sent == SentIn(t, run) && |u.sent| == |t.sent| + SendsIn(run) && u.closed == t.closed + CancelledIn(run)
    && forall k :: 0 <= k < |t.cells| ==> u.cells[k] == Occupant(t, run, k)
  }

  lemma CellsStep(u: Turn, a: Action, k: nat)
    requires Inv(u) && Can(u, a) && k < |u.cells|
    ensures var v := Do(u, a);
            |v.cells| == |u.cells| && v.cells[k] == if v.attached && k < |v.list| then v.list[k] else u.cells[k]
  {
    InvStep(u, a);
    var v := Do(u, a);
    if v.attached && k < |v.list| {
      assert v.cells[..|v.list|][k] == v.cells[k];
    } else if a.Cancel? && u.attached {
      ShiftedFrom(u.cells, |u.list|, Position(u.list, a.ch));
    }
  }

  lemma ReadOffStep(t: Turn, front: seq<Action>, a: Action, u: Turn)
    requires Inv(u) && Can(u, a) && ReadOff(t, front, u)
    ensures ReadOff(t, front + [a], Do(u, a))
  {
    var run, v := front + [a], Do(u, a);
    assert run[..|run| - 1] == front && run[|run| - 1] == a;
    LengthStep(u, a);
    assert Listed(t, run) == Listing(v.list, v.next, v.attached);
    forall k | 0 <= k < |t.cells| ensures v.cells[k] == Occupant(t, run, k) {
      CellsStep(u, a, k);
    }
  }

  lemma {:induction false} CellsAreOccupants(t: Turn, run: seq<Action>)
    requires Inv(t) && Run(t, run).At?
    ensures Inv(Run(t, run).turn) && ReadOff(t, run, Run(t, run).turn)
  {
    if run != [] {
      var front, a := run[..|run| - 1], run[|run| - 1];
      CellsAreOccupants(t, front);
      InvStep(Run(t, front).turn, a);
      ReadOffStep(t, front, a, Run(t, front).turn);
      assert run == front + [a];
    }
  }

  lemma LengthStep(u: Turn, a: Action)
    requires Inv(u) && Can(u, a)
    ensures |Do(u, a).cells| == |u.cells|
  {
    if a.Cancel? && u.attached {
      ShiftedFrom(u.cells, |u.list|, Position(u.list, a.ch));
    }
  }

  // ------------------------------------------------------------------ when the process dies

  /** The j-th step sends to a channel that was cancelled since the turn began. */
  ghost predicate HitsAt(t: Turn, run: seq<Action>, j: nat) {
    && j < |run| && run[j].Send?
    && SendsIn(run[..j]) < |t.cells|
    && Occupant(t, run[..j], SendsIn(run[..j])) in CancelledIn(run[..j])
  }

  ghost predicate Hits(t: Turn, run: seq<Action>) {
    exists j: nat :: HitsAt(t, run, j)
  }

  /** At the start of a turn every channel of the slice is open. */
  ghost predicate Fresh(t: Turn) {
    Inv(t) && t.sent == [] && !t.panicked && forall k :: 0 <= k < t.length ==> t.cells[k] !in t.closed
  }

  lemma HitsSnoc(t: Turn, front: seq<Action>, a: Action)
    ensures Hits(t, front + [a]) <==> Hits(t, front) || HitsAt(t, front + [a], |front|)
  {
    var run := front + [a];
    assert forall j :: 0 <= j <= |front| ==> run[..j] == front[..j];
    if j: nat :| HitsAt(t, front, j) {
      assert HitsAt(t, run, j);
    }
    if j: nat :| HitsAt(t, run, j) {
      assert j < |front| ==> HitsAt(t, front, j);
    }
  }

  lemma {:induction false} OpenAtStart(t: Turn, run: seq<Action>)
    requires Fresh(t) && Run(t, run).At?
    ensures forall k :: 0 <= k < t.length ==> Occupant(t, run, k) !in t.closed
  {
    if run != [] {
      OpenAtStart(t, run[..|run| - 1]);
      CellsAreOccupants(t, run);
    }
  }

  /**
   Every interleaving of subscribes, cancels and sends: the process has died iff some send went to a
   position whose last occupant, on the registry's account, had been cancelled since the turn began.
   */
  lemma {:induction false} PanicIff(t: Turn, run: seq<Action>)
    requires Fresh(t) && Run(t, run).At?
    ensures Run(t, run).turn.panicked <==> Hits(t, run)
  {
    if run != [] {
      var front, a := run[..|run| - 1], run[|run| - 1];
      var u := Run(t, front).turn;
      assert run == front + [a] && run[..|front|] == front;
      PanicIff(t, front);
      HitsSnoc(t, front, a);
      CellsAreOccupants(t, front);
      OpenAtStart(t, front);
    }
  }

  /** A send at a position that the room's list still has in the array never hits a closed channel. */
  lemma ListedIsSafe(t: Turn)
    requires Inv(t) && Can(t, Send) && t.attached && |t.sent| < |t.list|
    ensures !Do(t, Send).panicked
  {
    assert t.cells[|t.sent|] == t.cells[..|t.list|][|t.sent|];
  }

  // ---- without cancels

  /** A room can be subscribed to at any point of a turn: the new channel joins the end of its list. */
  lemma CanSubscribe(t: Turn)
    requires Inv(t) && !t.panicked
    ensures Can(t, Subscribe)
    ensures var u := Do(t, Subscribe);
            && Inv(u) && u.list == t.list + [t.next] && u.closed == t.closed && u.sent == t.sent && !u.panicked
            && forall k :: 0 <= k < |t.cells| && k != |t.list| ==> u.cells[k] == t.cells[k]
  {
    InvStep(t, Subscribe);
  }

  /** Subscribes alone do no harm: the dispatcher sends to the channels of its slice, in order. */
  /** The cells of the slice are untouched, and a prefix of them has been sent to. */
  ghost predicate Unharmed(t: Turn, u: Turn)
    requires t.length <= |t.cells|
  {
    && !u.panicked && |u.cells| == |t.cells| && u.length == t.length
    && u.sent <= t.cells[..t.length] && u.cells[..t.length] == t.cells[..t.length]
  }

  lemma UnharmedStep(t: Turn, u: Turn, a: Action)
    requires Fresh(t) && Unharmed(t, u) && Inv(u) && Can(u, a) && !a.Cancel?
    requires u.closed == t.closed && t.length <= |u.list|
    ensures Unharmed(t, Do(u, a))
  {
    if a.Send? {
      assert u.cells[|u.sent|] == t.cells[..t.length][|u.sent|];
    }
  }

  /** Subscribes alone do no harm: the dispatcher sends to the channels of its slice, in order. */
  lemma {:induction false} NoCancelNoHarm(t: Turn, run: seq<Action>)
    requires Fresh(t) && t.cells[..t.length] <= t.list && t.attached && Run(t, run).At?
    requires forall j :: 0 <= j < |run| ==> !run[j].Cancel?
    ensures Unharmed(t, Run(t, run).turn)
  {
    if run != [] {
      var front := run[..|run| - 1];
      NoCancelNoHarm(t, front);
      CellsAreOccupants(t, front);
      NoneCancelled(front);
      ListGrows(t, front);
      assert |t.cells[..t.length]| == t.length && !run[|run| - 1].Cancel?;
      UnharmedStep(t, Run(t, front).turn, run[|run| - 1]);
    }
  }

  lemma {:induction false} NoneCancelled(run: seq<Action>)
    requires forall j :: 0 <= j < |run| ==> !run[j].Cancel?
    ensures CancelledIn(run) == {}
  {
    if run != [] {
      NoneCancelled(run[..|run| - 1]);
      assert !run[|run| - 1].Cancel?;
    }
  }

  lemma {:induction false} ListGrows(t: Turn, run: seq<Action>)
    requires forall j :: 0 <= j < |run| ==> !run[j].Cancel?
    ensures t.list <= Listed(t, run).list
  {
    if run != [] {
      ListGrows(t, run[..|run| - 1]);
      assert !run[|run| - 1].Cancel?;
    }
  }

  // ---- as the hub uses the broker: one channel a room

  /** A room is subscribed only when it has no channel, as the hub does. */
  ghost predicate OneAtATime(t: Turn, run: seq<Action>) {
    forall j :: 0 <= j < |run| && run[j].Subscribe? ==> Listed(t, run[..j]).list == []
  }

  lemma {:induction false} OneOccupant(t: Turn, run: seq<Action>)
    requires |t.list| == 1 <= |t.cells| && t.cells[0] == t.list[0] && OneAtATime(t, run)
    ensures Occupant(t, run, 0) == t.list[0]
    ensures Listed(t, run).attached ==> Listed(t, run).list == t.list
  {
    if run != [] {
      var front, a := run[..|run| - 1], run[|run| - 1];
      assert forall j :: 0 <= j < |front| ==> front[..j] == run[..j];
      OneOccupant(t, front);
      var l := Listed(t, front);
      if a.Cancel? && l.attached {
        assert WithoutFirst(t.list, a.ch) == if a.ch == t.list[0] then [] else t.list;
      }
      assert a.Subscribe? ==> l.list == [];
    }
  }

  lemma {:induction false} CancelledMembers(run: seq<Action>, ch: nat)
    ensures ch in CancelledIn(run) <==> Action.Cancel(ch) in run
  {
    if run != [] {
      CancelledMembers(run[..|run| - 1], ch);
      assert run == run[..|run| - 1] + [run[|run| - 1]];
    }
  }

  /**
   With one channel a room, in every interleaving: the process dies iff the dispatcher sends after the
   room's channel was cancelled, whatever is subscribed and cancelled in the meantime.
   */
  lemma SingleChannelRace(t: Turn, run: seq<Action>)
    requires Fresh(t) && t.length == |t.list| == 1 && t.attached && OneAtATime(t, run) && Run(t, run).At?
    ensures Run(t, run).turn.panicked <==>
            exists i, j :: 0 <= i < j < |run| && run[i] == Action.Cancel(t.list[0]) && run[j].Send?
  {
    PanicIff(t, run);
    forall j: nat ensures HitsAt(t, run, j) <==> j < |run| && run[j].Send? && Action.Cancel(t.list[0]) in run[..j] {
      if j < |run| && run[j].Send? {
        OneHit(t, run, j);
      }
    }
    if j: nat :| HitsAt(t, run, j) {
      var i :| 0 <= i < |run[..j]| && run[..j][i] == Action.Cancel(t.list[0]);
      assert run[i] == Action.Cancel(t.list[0]);
    }
    if i, j :| 0 <= i < j < |run| && run[i] == Action.Cancel(t.list[0]) && run[j].Send? {
      assert run[..j][i] == Action.Cancel(t.list[0]);
      assert HitsAt(t, run, j);
    }
  }

  lemma OneHit(t: Turn, run: seq<Action>, j: nat)
    requires Fresh(t) && t.length == |t.list| == 1 && t.attached && OneAtATime(t, run) && Run(t, run).At?
    requires j < |run| && run[j].Send?
    ensures HitsAt(t, run, j) <==> Action.Cancel(t.list[0]) in run[..j]
  {
    assert t.cells[0] == t.cells[..1][0] == t.list[0];
    SentOnceOnly(t, run, j);
    assert OneAtATime(t, run[..j]) by {
      assert forall k :: 0 <= k < j ==> run[..j][..k] == run[..k];
    }
    OneOccupant(t, run[..j]);
    CancelledMembers(run[..j], t.list[0]);
  }

  lemma {:induction false} RunPrefix(t: Turn, run: seq<Action>, j: nat)
    requires Run(t, run).At? && j < |run|
    ensures Run(t, run[..j]).At? && Can(Run(t, run[..j]).turn, run[j])
  {
    var front := run[..|run| - 1];
    if j < |front| {
      RunPrefix(t, front, j);
      assert front[..j] == run[..j];
    }
  }

  lemma SentOnceOnly(t: Turn, run: seq<Action>, j: nat)
    requires Fresh(t) && t.length == 1 && Run(t, run).At? && j < |run| && run[j].Send?
    ensures SendsIn(run[..j]) == 0
  {
    RunPrefix(t, run, j);
    CellsAreOccupants(t, run[..j]);
  }

  /** With two channels that is not so: a cancel of the first, unreached, kills nobody and serves the second twice. */
  lemma CancelledUnreachedYetSafe(a: nat, b: nat, closed: set<nat>, next: nat)
    requires a != b && a < next && b < next && a !in closed && b !in closed
    ensures var r := Run(Begin([a, b], [a, b], closed, next), [Action.Cancel(a), Action.Send, Action.Send]);
            r.At? && !r.turn.panicked && r.turn.sent == [b, b]
  {
    var t := Begin([a, b], [a, b], closed, next);
    var run := [Action.Cancel(a), Action.Send, Action.Send];
    assert run[..2] == [Action.Cancel(a), Action.Send] && run[..2][..1] == [Action.Cancel(a)] && run[..2][..1][..0] == [];
    var u := Do(t, Action.Cancel(a));
    assert u.cells == [b, b];
    assert Run(t, [Action.Cancel(a)]) == At(u);
    assert Run(t, run[..2]) == At(Do(u, Action.Send));
  }

  // ---- one cancel between two sends

  function Sends(n: nat): seq<Action> {
    if n == 0 then [] else Sends(n - 1) + [Action.Send]
  }

  /** p sends, a cancel, then q more sends. */
  function Interrupted(p: nat, ch: nat, q: nat): seq<Action> {
    if q == 0 then Sends(p) + [Action.Cancel(ch)] else Interrupted(p, ch, q - 1) + [Action.Send]
  }

  lemma RunSnoc(t: Turn, front: seq<Action>, a: Action)
    ensures Run(t, front + [a]) ==
            match Run(t, front) case Stuck => Stuck case At(u) => if Can(u, a) then At(Do(u, a)) else Stuck
  {
    assert (front + [a])[..|front|] == front;
  }

  /** The turn after p sends that nothing disturbed. */
  function SentSo(t: Turn, p: nat): Turn
    requires p <= |t.cells|
  {
    t.(sent := t.cells[..p])
  }

  lemma SendsStep(t: Turn, p: nat)
    requires Fresh(t) && p < t.length
    ensures Can(SentSo(t, p), Action.Send) && Do(SentSo(t, p), Action.Send) == SentSo(t, p + 1)
  {
    assert t.cells[..p + 1] == t.cells[..p] + [t.cells[p]];
  }

  lemma {:induction false} SendsRun(t: Turn, p: nat)
    requires Fresh(t) && p <= t.length
    ensures Run(t, Sends(p)) == At(SentSo(t, p))
  {
    if p > 0 {
      SendsRun(t, p - 1);
      SendsStep(t, p - 1);
      RunSnoc(t, Sends(p - 1), Action.Send);
    } else {
      assert t.cells[..0] == t.sent;
    }
  }

  /** The turn after p sends, the cancel of the i-th channel and q more sends. */
  ghost predicate InterruptedAt(t: Turn, list: seq<nat>, p: nat, i: nat, q: nat, u: Turn)
    requires i < |list| && p + q <= |list|
  {
    && Shaped(u) && u.length == |list| && u.closed == t.closed + {list[i]}
    && u.cells[..|list|] == Stale(list, i)
    && u.sent == Walk(list, p, i)[..p + q]
    && (u.panicked <==> i == |list| - 1 && q > 0 && p + q == |list|)
  }

  lemma CancelDo(t: Turn, list: seq<nat>, p: nat, i: nat)
    requires Fresh(t) && t.list == list == t.cells[..t.length] && t.attached && i < |list| && p <= |list|
    ensures Can(SentSo(t, p), Action.Cancel(list[i]))
    ensures InterruptedAt(t, list, p, i, 0, Do(SentSo(t, p), Action.Cancel(list[i])))
  {
    PositionIs(list, list[i], i);
    ShiftedFront(t.cells, |list|, i);
    ShiftedFrom(t.cells, |list|, i);
    WalkStarts(list, p, i);
    assert t.cells[..p] == list[..p];
  }

  lemma WalkStarts(list: seq<nat>, p: nat, i: nat)
    requires i < |list| && p <= |list|
    ensures Walk(list, p, i)[..p] == list[..p]
  {
    StaleCells(list, i);
  }

  lemma CancelFirst(t: Turn, list: seq<nat>, p: nat, i: nat)
    requires Fresh(t) && t.list == list == t.cells[..t.length] && t.attached && i < |list| && p <= |list|
    ensures var r := Run(t, Interrupted(p, list[i], 0));
            r.At? && InterruptedAt(t, list, p, i, 0, r.turn)
  {
    SendsRun(t, p);
    CancelDo(t, list, p, i);
    RunSnoc(t, Sends(p), Action.Cancel(list[i]));
  }

  lemma SendNext(t: Turn, list: seq<nat>, p: nat, i: nat, q: nat, u: Turn)
    requires Fresh(t) && t.list == list && i < |list| && p + q < |list|
    requires InterruptedAt(t, list, p, i, q, u)
    ensures Can(u, Action.Send) && InterruptedAt(t, list, p, i, q + 1, Do(u, Action.Send))
  {
    StaleCells(list, i);
    var k := p + q;
    assert u.cells[k] == u.cells[..|list|][k] == Stale(list, i)[k];
    assert Walk(list, p, i)[k] == Stale(list, i)[k];
    assert Walk(list, p, i)[..k + 1] == Walk(list, p, i)[..k] + [Walk(list, p, i)[k]];
    assert Stale(list, i)[k] in list;
  }

  lemma {:induction false} InterruptedRun(t: Turn, list: seq<nat>, p: nat, i: nat, q: nat)
    requires Fresh(t) && t.list == list == t.cells[..t.length] && t.attached && i < |list| && p + q <= |list|
    ensures var r := Run(t, Interrupted(p, list[i], q));
            r.At? && InterruptedAt(t, list, p, i, q, r.turn)
  {
    if q == 0 {
      CancelFirst(t, list, p, i);
    } else {
      InterruptedRun(t, list, p, i, q - 1);
      var u := Run(t, Interrupted(p, list[i], q - 1)).turn;
      SendNext(t, list, p, i, q - 1, u);
      RunSnoc(t, Interrupted(p, list[i], q - 1), Action.Send);
    }
  }

  lemma InterruptedWhole(t: Turn, list: seq<nat>, p: nat, i: nat, u: Turn)
    requires i < |list| && p <= |list| && InterruptedAt(t, list, p, i, |list| - p, u)
    ensures u.sent == Walk(list, p, i) && (u.panicked <==> i == |list| - 1 && p < |list|)
  {
    StaleCells(list, i);
  }

  /**
   Exactly when one cancel goes wrong, for a list of any length and a cancel of any of its channels after
   any number of sends: the dispatcher kills the process iff the channel was the last and not yet reached,
   and has sent to each of the others once iff it was the last or at most one send was left.
   */
  lemma DispatchAcrossCancel(t: Turn, p: nat, i: nat)
    requires Fresh(t) && t.list == t.cells[..t.length] && t.attached && i < |t.list| && p <= |t.list|
    ensures var r := Run(t, Interrupted(p, t.list[i], |t.list| - p));
            && r.At?
            && (r.turn.panicked <==> i == |t.list| - 1 && p < |t.list|)
            && (OthersOnce(t.list, i, r.turn.sent) <==> i == |t.list| - 1 || p >= |t.list| - 1)
  {
    InterruptedRun(t, t.list, p, i, |t.list| - p);
    InterruptedWhole(t, t.list, p, i, Run(t, Interrupted(p, t.list[i], |t.list| - p)).turn);
    WalkOnceIff(t.list, p, i);
  }

  // ------------------------------------------------------------------ the broker plays it

  /** The broker and the dispatcher's slice are as the turn says. */
  ghost predicate Mirrors(b: Broker, room: Str, s: Slice, t: Turn)
    reads b, b.Arrays(), s.cells
  {
    && b.Valid()
    && Channels(b.lists, room) == t.list && b.closed == t.closed && b.next == t.next
    && s.cells[..] == t.cells && s.len == t.length
    && (t.attached <==> room in b.subs && b.subs[room].cells == s.cells)
  }

  ghost function BeginAt(b: Broker, room: Str): Turn
    requires b.Valid()
    reads b, b.Arrays()
  {
    Begin(Channels(b.lists, room), if room in b.subs then b.subs[room].cells[..] else [], b.closed, b.next)
  }

  /** What a step changes in a turn, but for what is sent. */
  ghost predicate Moves(t: Turn, u: Turn, list: seq<nat>, cells: seq<nat>, attached: bool, closed: set<nat>, next: nat) {
    u == t.(list := list, cells := cells, attached := attached, closed := closed, next := next)
  }

  method PlaySubscribe(b: Broker, room: Str, s: Slice, ghost t: Turn, ghost u: Turn)
    requires Mirrors(b, room, s, t)
    requires t.attached ==> |t.list| <= |t.cells|
    requires Moves(t, u, t.list + [t.next], if t.attached then Appended(t.cells, |t.list|, t.next) else t.cells,
                   t.attached && |t.list| < |t.cells|, t.closed, t.next + 1)
    modifies b, if room in b.subs then {b.subs[room].cells} else {}
    ensures Mirrors(b, room, s, u)
    ensures room in b.subs && (fresh(b.subs[room].cells) || (room in old(b.subs) && b.subs[room].cells == old(b.subs)[room].cells))
  {
    var ch := b.Subscribe(room);
  }

  method PlayCancel(b: Broker, room: Str, s: Slice, ch: nat, ghost t: Turn, ghost u: Turn)
    requires Mirrors(b, room, s, t) && ch in t.list && ch < t.next && ch !in t.closed
    requires t.attached ==> |t.list| <= |t.cells|
    requires Moves(t, u, WithoutFirst(t.list, ch),
                   if t.attached then Shifted(t.cells, |t.list|, Position(t.list, ch)) else t.cells,
                   t.attached && WithoutFirst(t.list, ch) != [], t.closed + {ch}, t.next)
    modifies b, if room in b.subs then {b.subs[room].cells} else {}
    ensures Mirrors(b, room, s, u)
    ensures room in b.subs ==> room in old(b.subs) && b.subs[room].cells == old(b.subs)[room].cells
  {
    ghost var mine := b.subs[room];
    assert mine.len == |t.list| && b.lists[room] == t.list && (t.attached <==> mine.cells == s.cells);
    b.Cancel(room, ch);
    assert mine.cells != s.cells ==> s.cells[..] == t.cells;
    assert s.cells[..] == u.cells;
  }

  method PlaySend(b: Broker, room: Str, s: Slice, k: nat, data: Data, ghost t: Turn) returns (ch: nat, panics: bool)
    requires Can(t, Send) && k == |t.sent| && t.cells[k] < t.next && Mirrors(b, room, s, t)
    modifies b`queues
    ensures Mirrors(b, room, s, Do(t, Send))
    ensures ch == t.cells[|t.sent|] && panics == Do(t, Send).panicked
  {
    assert s.cells[..][k] == s.cells[k];
    ch := s.cells[k];
    panics := b.Send(ch, data);
  }

  method PlayOne(b: Broker, room: Str, s: Slice, sent: seq<nat>, data: Data, a: Action, ghost t: Turn)
    returns (sent': seq<nat>, panicked: bool)
    requires Inv(t) && Can(t, a) && sent == t.sent && Mirrors(b, room, s, t)
    modifies b, if room in b.subs then {b.subs[room].cells} else {}
    ensures Mirrors(b, room, s, Do(t, a)) && sent' == Do(t, a).sent && panicked == Do(t, a).panicked
    ensures room in b.subs ==> fresh(b.subs[room].cells) || (room in old(b.subs) && b.subs[room].cells == old(b.subs)[room].cells)
  {
    sent', panicked := sent, false;
    match a {
      case Subscribe => PlaySubscribe(b, room, s, t, Do(t, a));
      case Cancel(ch) => PlayCancel(b, room, s, ch, t, Do(t, a));
      case Send =>
        var ch;
        ch, panicked := PlaySend(b, room, s, |sent|, data, t);
        sent' := sent + [ch];
    }
  }

  ghost predicate Reached(start: Turn, run: seq<Action>, k: nat, t: Turn) {
    k <= |run| && Run(start, run[..k]) == At(t) && Inv(t)
  }

  lemma ReachedNext(start: Turn, run: seq<Action>, k: nat, t: Turn)
    requires Run(start, run).At? && k < |run| && Reached(start, run, k, t)
    ensures Can(t, run[k]) && Reached(start, run, k + 1, Do(t, run[k]))
  {
    RunPrefix(start, run, k);
    assert run[..k + 1][..k] == run[..k];
    InvStep(t, run[k]);
  }

  lemma BeginFresh(list: seq<nat>, cells: seq<nat>, closed: set<nat>, next: nat)
    requires Distinct(list) && list <= cells
    requires (forall ch :: ch in list ==> ch < next && ch !in closed) && (forall ch :: ch in closed ==> ch < next)
    ensures Fresh(Begin(list, cells, closed, next))
  {
    assert forall k :: 0 <= k < |list| ==> cells[k] == list[k] && list[k] in list;
  }

  method TakeTurn(b: Broker, room: Str) returns (s: Slice)
    requires b.Valid() && WellListed(b.lists, b.queues.Keys - b.closed)
    ensures Mirrors(b, room, s, BeginAt(b, room)) && Fresh(BeginAt(b, room))
  {
    ghost var t := BeginAt(b, room);
    ListedOpen(b.lists, b.queues.Keys - b.closed, room);
    BeginFresh(t.list, t.cells, t.closed, t.next);
    s := b.TakeSlice(room);
    assert s.cells[..] == t.cells;
  }

  /**
   The real broker plays every run of the machine: a slice taken, then subscribes, cancels and sends in
   the given order on the broker's own arrays.
   */
  method Play(b: Broker, room: Str, data: Data, run: seq<Action>) returns (sent: seq<nat>, panicked: bool)
    requires b.Valid() && WellListed(b.lists, b.queues.Keys - b.closed)
    requires Run(BeginAt(b, room), run).At?
    modifies b, if room in b.subs then {b.subs[room].cells} else {}
    ensures var u := Run(old(BeginAt(b, room)), run).turn;
            sent == u.sent && panicked == u.panicked && Channels(b.lists, room) == u.list && b.closed == u.closed
  {
    ghost var start := BeginAt(b, room);
    var s := TakeTurn(b, room);
    sent, panicked := [], false;
    ghost var t := start;
    for k := 0 to |run|
      invariant Reached(start, run, k, t) && Mirrors(b, room, s, t)
      invariant sent == t.sent && panicked == t.panicked
      invariant room in b.subs ==> fresh(b.subs[room].cells) || (room in old(b.subs) && b.subs[room].cells == old(b.subs)[room].cells)
    {
      ReachedNext(start, run, k, t);
      sent, panicked := PlayOne(b, room, s, sent, data, run[k], t);
      t := Do(t, run[k]);
    }
    assert run[..|run|] == run;
  }
}
