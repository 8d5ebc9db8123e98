/** The deletion of a Linux session: when a callback can still be at work in it, or be on its way to it, and
    when the poller thread can still write to its key. */
module LinuxDeletion {
  import opened Bytes
  import opened Framing
  import opened LinuxSession
  import opened LinuxWorld

  /** Whether some way to go on ends with a callback in a deleted session. */
  ghost predicate CanBeStale(w: World) { exists steps :: Exec(w, steps).stale }

  /** ... and with a write to the key of one. */
  ghost predicate CanBeLate(w: World) { exists steps :: Exec(w, steps).keyLate }

  /** A closed session the driver is looking at, or has deleted. */
  predicate Ending(w: World) {
    w.core.status.Closed? && (w.logic.Check? || (w.logic.Idle? && w.deleted))
  }

  /** Without a report on its way or a callback at work there never is one in the deleted session. */
  lemma StillEnding(w: World, s: Step)
    requires Ending(w) && w.inflight == [] && !InCallback(w.poller) && !w.stale
    ensures var w' := Try(w, s); Ending(w') && w'.inflight == [] && !InCallback(w'.poller) && !w'.stale
    ensures w.poller.Waiting? ==> Try(w, s).poller.Waiting? && Try(w, s).keyLate == w.keyLate
  {
    hide Body, Send, Ready, TxOk, RxOk;
  }

  lemma {:induction false} NeverStale(w: World, steps: seq<Step>)
    requires Ending(w) && w.inflight == [] && !InCallback(w.poller) && !w.stale
    ensures !Exec(w, steps).stale
    decreases |steps|
  {
    if steps != [] {
      hide Try, Ending;
      StillEnding(w, steps[0]);
      NeverStale(Try(w, steps[0]), steps[1..]);
    }
  }

  lemma {:induction false} NeverLate(w: World, steps: seq<Step>)
    requires Ending(w) && w.inflight == [] && w.poller.Waiting? && !w.stale && !w.keyLate
    ensures !Exec(w, steps).keyLate
    decreases |steps|
  {
    if steps != [] {
      hide Try, Ending;
      StillEnding(w, steps[0]);
      NeverLate(Try(w, steps[0]), steps[1..]);
    }
  }

  /** A deletion while the callback is at work. */
  lemma StaleInside(w: World)
    requires w.core.status.Closed? && w.logic.Check? && InCallback(w.poller)
    ensures CanBeStale(w)
  {
    hide Exec;
    OneStep(w, Reap);
    assert Exec(w, [Reap]).stale;
  }

  /** A deletion before the callback is entered. */
  lemma StaleBehind(w: World)
    requires w.core.status.Closed? && w.logic.Check? && w.mutex.NoOne? && !InCallback(w.poller) && w.inflight != []
    ensures CanBeStale(w) && CanBeLate(w)
  {
    hide Exec;
    var w1 := Try(Try(w, Reap), MarkKey);
    TwoSteps(w, Reap, MarkKey);
    CallbackRuns(w1);
    var w2 := Exec(w1, CALLBACK);
    OneStep(w2, MarkKey);
    ExecAppend(w1, CALLBACK, [MarkKey]);
    ExecAppend(w, [Reap, MarkKey], CALLBACK + [MarkKey]);
    ExecAppend(w, [Reap, MarkKey], CALLBACK);
    assert Exec(w, [Reap, MarkKey] + CALLBACK).stale;
    assert Exec(w, [Reap, MarkKey] + (CALLBACK + [MarkKey])).keyLate;
  }

  /** A deletion before the key is written to, in the callback or behind it. */
  lemma LateKey(w: World)
    requires w.core.status.Closed? && w.logic.Check? && !w.poller.Waiting?
    ensures CanBeLate(w)
  {
    hide Exec;
    var w1 := Try(Try(w, Reap), WriteEvents);
    var w2 := Try(Try(w1, ClearArmed), Leave);
    assert w2.poller.Returned? && w2.deleted;
    assert Try(w2, MarkKey).keyLate;
    hide Try, Enabled, Apply;
    TwoSteps(w, Reap, WriteEvents);
    TwoSteps(w1, ClearArmed, Leave);
    OneStep(w2, MarkKey);
    ExecAppend(w1, [ClearArmed, Leave], [MarkKey]);
    ExecAppend(w, [Reap, WriteEvents], [ClearArmed, Leave] + [MarkKey]);
    assert Exec(w, [Reap, WriteEvents] + ([ClearArmed, Leave] + [MarkKey])).keyLate;
  }

  /** What the invariant says when the driver looks at a closed session. */
  lemma Looking(steps: seq<Step>)
    ensures var w := Exec(WORLD_START, steps);
            w.core.status.Closed? && w.logic.Check? ==>
              && !w.stale && !w.keyLate && !w.deleted
              && (w.mutex.NoOne? <==> !InCallback(w.poller)) && (w.mutex.PollerThread? <==> InCallback(w.poller))
              && (w.mutex.NoOne? ==> w.armed + |w.inflight| == if w.inEpoll then 1 else 0)
  {
    hide CoreOk, Unread, Exec;
    StartInv();
    RunsKeepInv(WORLD_START, steps);
  }

  /** When the driver finds a session closed, some way to go on has a callback in the deleted session if and
      only if the callback is at work, which is when the mutex is taken, or a report is on its way; and some way
      has the poller write to the deleted key if and only if besides it may be just behind the callback. With
      the mutex free the arming flag tells the registrations and reports there are: without it no callback
      ever finds the session gone, with it one can unless the kernel has not reported yet. */
  lemma DeletionExactly(steps: seq<Step>)
    ensures var w := Exec(WORLD_START, steps);
            w.core.status.Closed? && w.logic.Check? ==>
              && (CanBeStale(w) <==> w.mutex.PollerThread? || w.inflight != [])
              && (CanBeLate(w) <==> !w.poller.Waiting? || w.inflight != [])
              && (w.mutex.NoOne? ==> (CanBeStale(w) <==> w.inEpoll && w.armed == 0))
              && (w.mutex.NoOne? && !w.inEpoll ==> (CanBeLate(w) <==> w.poller.Returned?))
  {
    var w := Exec(WORLD_START, steps);
    Looking(steps);
    hide Exec;
    if w.core.status.Closed? && w.logic.Check? {
      if InCallback(w.poller) {
        StaleInside(w);
        LateKey(w);
      } else if w.inflight != [] {
        StaleBehind(w);
      } else {
        forall more
          ensures !Exec(w, more).stale
        {
          NeverStale(w, more);
        }
        if w.poller.Returned? {
          LateKey(w);
        } else {
          forall more
            ensures !Exec(w, more).keyLate
          {
            NeverLate(w, more);
          }
        }
      }
    }
  }

  // ---------- two runs ----------

  const READABLE := Events(false, false, false, true, false)

  const TO_READABLE: seq<Step> := UpdateSteps([Data([0])], [], false) + [Reap, Report(READABLE)]
  const TO_PRECLOSED: seq<Step> := UpdateSteps([RecvFailed], [], false) + [Reap]
  const TO_CLOSED: seq<Step> := UpdateSteps([], [], false)

  /** A running session is armed and reported readable; before the callback gets the mutex, `recv` fails, and
      the update after the next closes the session. */
  const CLOSING_RUN: seq<Step> := TO_READABLE + (TO_PRECLOSED + TO_CLOSED)

  /** Between updates, with one report on its way. */
  predicate OneOnItsWay(w: World) {
    && w.logic.Idle? && w.mutex.NoOne? && w.poller.Waiting? && !w.deleted && w.events == NO_EVENTS
    && w.inflight == [READABLE] && TxOk(w.core.tx) && RxOk(w.core.rx)
  }

  /** The driver is about to delete the session, with the report still on its way. */
  lemma ClosingRun()
    ensures var w := Exec(WORLD_START, CLOSING_RUN);
            && w.core.status.Closed? && w.logic.Check? && w.mutex.NoOne? && w.poller.Waiting?
            && w.inflight == [READABLE]
  {
    hide Exec, OneOnItsWay;
    ReadableState(WORLD_START);
    var w2 := Exec(WORLD_START, TO_READABLE);
    PreClosedState(w2);
    ClosedState(Exec(w2, TO_PRECLOSED));
    ExecAppend(w2, TO_PRECLOSED, TO_CLOSED);
    ExecAppend(WORLD_START, TO_READABLE, TO_PRECLOSED + TO_CLOSED);
  }

  /** The callback can be entered when the session has been deleted. */
  lemma StaleExample()
    ensures var w := Exec(WORLD_START, CLOSING_RUN + [Reap, Enter]); w.deleted && w.stale
  {
    hide Exec;
    ClosingRun();
    var w := Exec(WORLD_START, CLOSING_RUN);
    TwoSteps(w, Reap, Enter);
    ExecAppend(WORLD_START, CLOSING_RUN, [Reap, Enter]);
  }

  /** The session can be deleted while the callback is at work in it. */
  lemma InsideExample()
    ensures var w := Exec(WORLD_START, CLOSING_RUN + [Enter, Reap]); w.deleted && w.stale && w.mutex.PollerThread?
  {
    hide Exec;
    ClosingRun();
    var w := Exec(WORLD_START, CLOSING_RUN);
    TwoSteps(w, Enter, Reap);
    ExecAppend(WORLD_START, CLOSING_RUN, [Enter, Reap]);
  }

  /** Even when the mutex is free and the arming flag cleared, the key can be written to when it is gone. */
  lemma LateExample()
    ensures var w := Exec(WORLD_START, CLOSING_RUN + CALLBACK);
            w.logic.Check? && w.core.status.Closed? && w.mutex.NoOne? && !w.inEpoll && w.armed == 0 && w.inflight == []
    ensures var w := Exec(WORLD_START, CLOSING_RUN + CALLBACK + [Reap, MarkKey]);
            w.deleted && !w.stale && w.keyLate
  {
    Looking(CLOSING_RUN);
    Looking(CLOSING_RUN + CALLBACK);
    hide Exec;
    ClosingRun();
    var w := Exec(WORLD_START, CLOSING_RUN);
    CallbackRuns(w);
    var w1 := Exec(w, CALLBACK);
    TwoSteps(w1, Reap, MarkKey);
    ExecAppend(WORLD_START, CLOSING_RUN, CALLBACK);
    ExecAppend(WORLD_START, CLOSING_RUN + CALLBACK, [Reap, MarkKey]);
  }

  lemma ReadableState(w: World)
    requires w.logic.Idle? && w.mutex.NoOne? && w.poller.Waiting? && !w.deleted && w.events == NO_EVENTS
    requires w.core == CORE_START && w.inflight == [] && !w.inEpoll
    ensures var c := Exec(w, TO_READABLE).core;
            && OneOnItsWay(Exec(w, TO_READABLE))
            && c.status.Running? && c.rdReady && !c.recvOver && c.tx == Tx([], None, 0)
  {
    hide Body, Ready, UpdateSteps, RxOk, TxOk, Exec, RxAll;
    var first := UpdateSteps([Data([0])], [], false);
    FirstUpdate(w.core);
    UpdateIsRun(w, [Data([0])], [], false);
    var w1 := Exec(w, first);
    TwoSteps(w1, Reap, Report(READABLE));
    ExecAppend(w, first, [Reap, Report(READABLE)]);
  }

  lemma PreClosedState(w: World)
    requires OneOnItsWay(w)
    requires w.core.status.Running? && w.core.rdReady && !w.core.recvOver && w.core.tx == Tx([], None, 0)
    ensures OneOnItsWay(Exec(w, TO_PRECLOSED)) && Exec(w, TO_PRECLOSED).core.status.PreClosed?
  {
    var update := UpdateSteps([RecvFailed], [], false);
    hide Body, Ready, UpdateSteps, RxOk, TxOk, Exec;
    UpdateIsRun(w, [RecvFailed], [], false);
    SecondUpdate(w.core);
    OneStep(Exec(w, update), Reap);
    ExecAppend(w, update, [Reap]);
  }

  lemma ClosedState(w: World)
    requires OneOnItsWay(w) && w.core.status.PreClosed?
    ensures var w' := Exec(w, TO_CLOSED);
            && w'.core.status.Closed? && w'.logic.Check? && w'.mutex.NoOne? && w'.poller.Waiting?
            && w'.inflight == [READABLE]
  {
    hide Body, Ready, UpdateSteps, RxOk, TxOk, Exec;
    UpdateIsRun(w, [], [], false);
    ThirdUpdate(w.core);
  }

  lemma FirstUpdate(c: Core)
    requires c == CORE_START
    ensures TxOk(c.tx) && RxOk(c.rx)
    ensures var r := Body(Ready(c, NO_EVENTS), false, [Data([0])], [], false);
            && r.status.Running? && r.rdReady && r.tx == Tx([], None, 0) && !r.recvOver && RxOk(r.rx)
  {
    assert RecvLoop(c.rx, [Data([0])]) == Got(RxAll(c.rx, [0]), [0], Done);
    HeaderRun(RX_START, [0]);
  }

  lemma SecondUpdate(c: Core)
    requires c.status.Running? && c.rdReady && !c.recvOver && c.tx == Tx([], None, 0) && RxOk(c.rx)
    ensures var r := Body(Ready(c, NO_EVENTS), false, [RecvFailed], [], false);
            r.status.PreClosed? && TxOk(r.tx) && RxOk(r.rx)
  {
    assert RecvLoop(c.rx, [RecvFailed]) == Got(c.rx, [], Failed);
  }

  lemma ThirdUpdate(c: Core)
    requires c.status.PreClosed? && TxOk(c.tx) && RxOk(c.rx)
    ensures Body(Ready(c, NO_EVENTS), false, [], [], false).status.Closed?
  {
    BodyStatus(Ready(c, NO_EVENTS), false, [], [], false);
  }
}
