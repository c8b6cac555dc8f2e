/**
 When a handler gives its stream back. The receive loop ends by waiting for the sender goroutine,
 the sender goroutine ends on a failed send or on a closed queue, and only the handler's own exit
 closes the queue: so nothing but a failed send ever lets a handler return.
 */
module StreamRelease {
  import opened Streams
  import opened StreamSafety

  /** The sender has run before the handler waits; it has drained a closed queue in no state at all. */
  predicate SenderFirst(x: Stream) {
    && (x.phase == Waiting || Left(x) ==> x.sender != NotStarted)
    && (Left(x) ==> x.sender == SendFailed)
    && x.sender != Drained
  }

  predicate SendersFirst(s: State) {
    forall i :: i in s.streams ==> SenderFirst(s.streams[i])
  }

  lemma SenderStep(s: State, t: State, a: Action, i: Sid)
    requires SendersFirst(s) && ClosedOnce(s) && Enabled(s, a) && t.streams == StreamsAfter(s, a) && i in t.streams
    ensures SenderFirst(t.streams[i])
  {
    if i !in Subject(a) {
      OtherStreams(s, t, a, i);
    } else if i in s.streams {
      assert SenderFirst(s.streams[i]) && ClosedIffLeft(s.streams[i]);
    }
  }

  lemma {:induction false} SendersRun(cfg: Config, s: State, run: seq<Action>)
    requires Safe(s) && SendersFirst(s) && Run(cfg, s, run).At?
    ensures SendersFirst(Run(cfg, s, run).state)
    decreases |run|
  {
    if run != [] {
      var t := Do(cfg, s, run[0]);
      SafeStep(cfg, s, run[0]);
      forall i | i in t.streams ensures SenderFirst(t.streams[i]) {
        SenderStep(s, t, run[0], i);
      }
      SendersRun(cfg, t, run[1..]);
    }
  }

  /** In every run, a handler that has unregistered or returned did so after a failed send. */
  lemma ReturnsOnlyAfterFailedSend(cfg: Config, run: seq<Action>, i: Sid)
    requires Run(cfg, Init(), run).At? && i in Run(cfg, Init(), run).state.streams
    requires Left(Run(cfg, Init(), run).state.streams[i])
    ensures Run(cfg, Init(), run).state.streams[i].sender == SendFailed
  {
    SendersRun(cfg, Init(), run);
  }

  /** Counted, registered, and with nothing queued for its idle sender. */
  predicate Idling(s: State, i: Sid) {
    && i in s.streams
    && (s.streams[i].phase == Serving || s.streams[i].phase == Waiting)
    && s.streams[i].sender == Running
    && s.streams[i].queue == [] && s.streams[i].closes == 0
  }

  predicate NeverOffered(run: seq<Action>, i: Sid) {
    forall k :: 0 <= k < |run| ==> !(run[k].Offer? && run[k].i == i)
  }

  lemma IdlingStep(s: State, t: State, a: Action, i: Sid)
    requires Idling(s, i) && Enabled(s, a) && !(a.Offer? && a.i == i) && t.streams == StreamsAfter(s, a)
    ensures Idling(t, i) && t.streams[i].room == s.streams[i].room
  {
    if i !in Subject(a) {
      OtherStreams(s, t, a, i);
    }
  }

  lemma {:induction false} IdlingRun(cfg: Config, s: State, run: seq<Action>, i: Sid)
    requires Idling(s, i) && Run(cfg, s, run).At? && NeverOffered(run, i)
    ensures Idling(Run(cfg, s, run).state, i)
    ensures Run(cfg, s, run).state.streams[i].room == s.streams[i].room
    decreases |run|
  {
    if run != [] {
      IdlingStep(s, Do(cfg, s, run[0]), run[0], i);
      IdlingRun(cfg, Do(cfg, s, run[0]), run[1..], i);
    }
  }

  /**
   A stream with an empty queue is kept, whatever else happens, even when its connection is gone and
   its receive loop has ended: in every continuation without an offer to it, it is still a client of
   its room and still counted.
   */
  lemma IdleStreamKept(cfg: Config, before: seq<Action>, run: seq<Action>, i: Sid)
    requires Run(cfg, Init(), before).At?
    requires Idling(Run(cfg, Init(), before).state, i)
    requires Run(cfg, Run(cfg, Init(), before).state, run).At? && NeverOffered(run, i)
    ensures var s := Run(cfg, Run(cfg, Init(), before).state, run).state;
            Idling(s, i) && i in Clients(s, s.streams[i].room)
  {
    var s := Run(cfg, Init(), before).state;
    SafeRun(cfg, Init(), before);
    SafeRun(cfg, s, run);
    IdlingRun(cfg, s, run, i);
    var t := Run(cfg, s, run).state;
    assert MemberIff(t, i, t.streams[i].room);
  }

  predicate Releases(cfg: Config, s: State, run: seq<Action>, i: Sid) {
    Run(cfg, s, run).At? && i in Run(cfg, s, run).state.streams && Left(Run(cfg, s, run).state.streams[i])
  }

  lemma ReleaseFirst(cfg: Config, s: State, a: Action, rest: seq<Action>, i: Sid)
    requires Can(cfg, s, a) && Releases(cfg, Do(cfg, s, a), rest, i)
    ensures Releases(cfg, s, [a] + rest, i)
  {
    assert ([a] + rest)[1..] == rest;
  }

  lemma FailedReleases(cfg: Config, s: State, i: Sid)
    requires AtPhase(s, i, Waiting) && s.streams[i].sender == SendFailed && Quiet(s, s.streams[i].room)
    ensures Releases(cfg, s, [Unregister(i)], i)
  {
    ReleaseFirst(cfg, s, Unregister(i), [], i);
    assert [Unregister(i)] + [] == [Unregister(i)];
  }

  lemma QueuedReleases(cfg: Config, s: State, i: Sid)
    requires AtPhase(s, i, Waiting) && s.streams[i].sender == Running && s.streams[i].queue != []
    requires Quiet(s, s.streams[i].room)
    ensures Releases(cfg, s, [SendFail(i)] + [Unregister(i)], i)
  {
    FailedReleases(cfg, Do(cfg, s, SendFail(i)), i);
    ReleaseFirst(cfg, s, SendFail(i), [Unregister(i)], i);
  }

  /**
   Exactly when a waiting stream in a quiet room can be let go without being offered anything more: its
   sender has failed, or still has something queued to fail on.
   */
  lemma ReleasableIff(cfg: Config, before: seq<Action>, i: Sid)
    requires Run(cfg, Init(), before).At?
    requires var s := Run(cfg, Init(), before).state; AtPhase(s, i, Waiting) && Quiet(s, s.streams[i].room)
    ensures var s := Run(cfg, Init(), before).state;
            (exists run :: NeverOffered(run, i) && Releases(cfg, s, run, i))
            <==> s.streams[i].sender == SendFailed || s.streams[i].queue != []
  {
    var s := Run(cfg, Init(), before).state;
    SafeRun(cfg, Init(), before);
    SendersRun(cfg, Init(), before);
    if s.streams[i].sender == SendFailed {
      FailedReleases(cfg, s, i);
      assert NeverOffered([Unregister(i)], i);
    } else if s.streams[i].queue != [] {
      QueuedReleases(cfg, s, i);
      assert NeverOffered([SendFail(i)] + [Unregister(i)], i);
    } else {
      forall run | NeverOffered(run, i) ensures !Releases(cfg, s, run, i) {
        if Run(cfg, s, run).At? {
          IdlingRun(cfg, s, run, i);
        }
      }
    }
  }

  /** A handler's way out, from the receive loop to its return. */
  function WayOut(i: Sid): seq<Action> {
    [EndReceive(i)] + ([SendFail(i)] + ([Unregister(i)] + ([Uncount(i)] + [])))
  }

  /** The run ends with the handler returned and the counter one lower. */
  predicate Leaves(cfg: Config, s: State, run: seq<Action>, i: Sid, cnt: int) {
    Run(cfg, s, run).At? && AtPhase(Run(cfg, s, run).state, i, Gone) && Run(cfg, s, run).state.connCnt == cnt
  }

  lemma LeavesFirst(cfg: Config, s: State, a: Action, rest: seq<Action>, i: Sid, cnt: int)
    requires Can(cfg, s, a) && Leaves(cfg, Do(cfg, s, a), rest, i, cnt)
    ensures Leaves(cfg, s, [a] + rest, i, cnt)
  {
    assert ([a] + rest)[1..] == rest;
  }

  lemma UnregistersOut(cfg: Config, s: State, i: Sid)
    requires AtPhase(s, i, Waiting) && s.streams[i].sender == SendFailed && Quiet(s, s.streams[i].room)
    ensures Leaves(cfg, s, [Unregister(i)] + ([Uncount(i)] + []), i, s.connCnt - 1)
  {
    var t := Do(cfg, s, Unregister(i));
    var u := Do(cfg, t, Uncount(i));
    assert Leaves(cfg, u, [], i, s.connCnt - 1);
    LeavesFirst(cfg, t, Uncount(i), [], i, s.connCnt - 1);
    LeavesFirst(cfg, s, Unregister(i), [Uncount(i)] + [], i, s.connCnt - 1);
  }

  lemma FailsOut(cfg: Config, s: State, i: Sid)
    requires AtPhase(s, i, Serving) && s.streams[i].sender == Running && s.streams[i].queue != []
    requires Quiet(s, s.streams[i].room)
    ensures Leaves(cfg, s, WayOut(i), i, s.connCnt - 1)
  {
    var t := Do(cfg, s, EndReceive(i));
    var u := Do(cfg, t, SendFail(i));
    UnregistersOut(cfg, u, i);
    var rest := [Unregister(i)] + ([Uncount(i)] + []);
    LeavesFirst(cfg, t, SendFail(i), rest, i, s.connCnt - 1);
    LeavesFirst(cfg, s, EndReceive(i), [SendFail(i)] + rest, i, s.connCnt - 1);
  }

  lemma LeftIsOut(cfg: Config, s: State, run: seq<Action>, i: Sid, cnt: int)
    requires Safe(s) && Leaves(cfg, s, run, i, cnt)
    ensures forall room :: i !in Clients(Run(cfg, s, run).state, room)
  {
    SafeRun(cfg, s, run);
    forall room ensures i !in Clients(Run(cfg, s, run).state, room) {
      assert MemberIff(Run(cfg, s, run).state, i, room);
    }
  }

  /** A serving stream in a quiet room, with something queued, can go all the way: out of its room and uncounted. */
  lemma CanLeave(cfg: Config, s: State, i: Sid)
    requires Safe(s) && AtPhase(s, i, Serving) && s.streams[i].sender in {NotStarted, Running} && s.streams[i].queue != []
    requires Quiet(s, s.streams[i].room)
    ensures exists run :: Leaves(cfg, s, run, i, s.connCnt - 1) && forall room :: i !in Clients(Run(cfg, s, run).state, room)
  {
    var run := WayOut(i);
    if s.streams[i].sender == Running {
      FailsOut(cfg, s, i);
    } else {
      FailsOut(cfg, Do(cfg, s, StartSender(i)), i);
      LeavesFirst(cfg, s, StartSender(i), run, i, s.connCnt - 1);
      run := [StartSender(i)] + run;
    }
    LeftIsOut(cfg, s, run, i, s.connCnt - 1);
  }

  // ------------------------------------------------------------------- dead streams

  /** A dead stream whose sender has taken `taken` items is either as far as it was, or failed on the next one. */
  predicate DeadAt(x: Stream, taken: nat) {
    && !x.alive
    && (|x.consumed| == taken || (|x.consumed| == taken + 1 && x.sender == SendFailed))
  }

  lemma DeadStep(cfg: Config, s: State, t: State, a: Action, i: Sid, taken: nat)
    requires cfg.deadSendsFail && Can(cfg, s, a) && t.streams == StreamsAfter(s, a)
    requires i in s.streams && DeadAt(s.streams[i], taken)
    ensures i in t.streams && DeadAt(t.streams[i], taken)
  {
    if i !in Subject(a) {
      OtherStreams(s, t, a, i);
    }
  }

  lemma {:induction false} DeadRun(cfg: Config, s: State, run: seq<Action>, i: Sid, taken: nat)
    requires cfg.deadSendsFail && Run(cfg, s, run).At? && i in s.streams && DeadAt(s.streams[i], taken)
    ensures var t := Run(cfg, s, run).state; i in t.streams && DeadAt(t.streams[i], taken)
    decreases |run|
  {
    if run != [] {
      DeadStep(cfg, s, Do(cfg, s, run[0]), run[0], i, taken);
      DeadRun(cfg, Do(cfg, s, run[0]), run[1..], i, taken);
    }
  }

  /**
   Where sends on a dead connection fail: in every run, a sender that takes anything after its connection
   is gone takes one item and has failed, so that the handler is free to unregister.
   */
  lemma FirstDeadSendFails(cfg: Config, s: State, run: seq<Action>, i: Sid)
    requires cfg.deadSendsFail && Run(cfg, s, run).At? && i in s.streams && !s.streams[i].alive
    ensures var t := Run(cfg, s, run).state;
            && i in t.streams
            && |s.streams[i].consumed| <= |t.streams[i].consumed| <= |s.streams[i].consumed| + 1
            && (|t.streams[i].consumed| > |s.streams[i].consumed| ==> t.streams[i].sender == SendFailed)
  {
    DeadRun(cfg, s, run, i, |s.streams[i].consumed|);
  }
}
