/** What whole runs of a Linux session come to, told from their steps: what it accepted, what it received,
    how much it can have sent, and why it left the running state. */
module LinuxRuns {
  import opened Bytes
  import opened Framing
  import opened LinuxSession
  import opened LinuxWorld
  import opened SocketAnswers

  // ---------- what it accepted ----------

  /** The payloads of the calls of `Send` that met a running session between two updates. */
  function Accepting(w: World, steps: seq<Step>): seq<seq<byte>>
    decreases |steps|
  {
    if steps == [] then []
    else
      var s := steps[0];
      (if s.AppSend? && w.core.status.Running? && w.logic.Idle? && !w.deleted then [s.p] else [])
      + Accepting(Try(w, s), steps[1..])
  }

  lemma AcceptStep(w: World, s: Step)
    requires TxOk(w.core.tx) && RxOk(w.core.rx)
    ensures Try(w, s).core.hist.accepted == w.core.hist.accepted + Accepting(w, [s])
  {
    assert [s][1..] == [] && forall x: seq<seq<byte>> :: x + [] == x;
    hide TxOk, RxOk, Body, Apply;
    if Enabled(w, s) {
      if s.Run? {
        RanHistory(w, s);
      } else {
        Quiet(w, s);
      }
    }
  }

  /** Neither the flags of readiness nor `Disconnect` are about what crosses the socket. */
  lemma FlagsHistory(c: Core, ev: Events)
    ensures Ready(c, ev).hist == c.hist && Disconnect(c).hist == c.hist
    ensures Ready(c, ev).recvOver == c.recvOver && Ready(c, ev).sendOver == c.sendOver
    ensures Disconnect(c).recvOver == c.recvOver && Disconnect(c).sendOver == c.sendOver
  {
  }

  /** Neither is a step that is no update, but for what `Send` accepts. */
  lemma Quiet(w: World, s: Step)
    requires Enabled(w, s) && !s.Run? && TxOk(w.core.tx)
    ensures var c, c' := w.core, Apply(w, s).core;
            && c'.hist.received == c.hist.received && c'.hist.taken == c.hist.taken
            && c'.recvOver == c.recvOver && c'.sendOver == c.sendOver
            && c'.hist.accepted == c.hist.accepted + (if s.AppSend? && c.status.Running? then [s.p] else [])
  {
    hide TxOk, RxOk, Body, Send, Ready, Disconnect, Closing;
    if s.AppSend? {
      SendCrosses(w.core, s.p, s.how);
    } else {
      FlagsHistory(w.core, w.events);
    }
  }

  lemma SendCrosses(c: Core, p: seq<byte>, how: Sender)
    requires TxOk(c.tx)
    ensures var c' := Send(c, p, how);
            && c'.hist.received == c.hist.received && c'.hist.taken == c.hist.taken
            && c'.recvOver == c.recvOver && c'.sendOver == c.sendOver
            && c'.hist.accepted == c.hist.accepted + (if c.status.Running? then [p] else [])
  {
    hide SendFrame, Stored, Room, Faithful, TxOk;
    SendStores(c, p, how);
  }

  /** An update leaves alone what was accepted and stored, and sends no more than the answers report. */
  lemma BodyHistory(c: Core, shouldClose: bool, recvs: seq<RecvAnswer>, sends: seq<SendAnswer>, idle: bool)
    requires TxOk(c.tx) && RxOk(c.rx)
    ensures var r := Body(c, shouldClose, recvs, sends, idle);
            && r.hist.accepted == c.hist.accepted && r.hist.stored == c.hist.stored
            && |r.hist.taken| <= |c.hist.taken| + Reported(sends)
  {
    var c1 := PostRecv(c, recvs);
    PostSendExactly(c1, sends);
    TakenReported(Offers(Rests(c.tx), sends), sends);
    assert c1.hist.accepted == c.hist.accepted && c1.hist.stored == c.hist.stored && c1.hist.taken == c.hist.taken
      && c1.tx == c.tx by {
      hide RecvLoop, RxOk, TxOk;
    }
    hide PostRecv, PostSend, TxOk, RxOk, Taken, Offers, Rests, Unsent, Reported;
  }

  /** An update among the threads. */
  lemma RanHistory(w: World, s: Step)
    requires Enabled(w, s) && s.Run?
    ensures var h, h' := w.core.hist, Apply(w, s).core.hist;
            && h'.accepted == h.accepted && |h'.taken| <= |h.taken| + Reported(s.sends)
            && h'.received == h.received + Heard(w.core, NO_EVENTS, s.recvs)
  {
    hide TxOk, RxOk, Body, Heard, Reported;
    BodyHistory(w.core, w.logic.shouldClose, s.recvs, s.sends, s.idle);
    BodyReceives(w.core, w.logic.shouldClose, s.recvs, s.sends, s.idle);
  }

  lemma {:induction false} AcceptedFrom(w: World, steps: seq<Step>)
    requires Inv(w)
    ensures Exec(w, steps).core.hist.accepted == w.core.hist.accepted + Accepting(w, steps)
    decreases |steps|
  {
    if steps != [] {
      hide Inv, Enabled, Apply, TxOk, RxOk;
      var s, w1 := steps[0], Try(w, steps[0]);
      TryKeeps(w, s);
      AcceptStep(w, s);
      AcceptedFrom(w1, steps[1..]);
      assert Accepting(w, [s]) + Accepting(w1, steps[1..]) == Accepting(w, steps) by {
        assert [s][1..] == [] && forall x: seq<seq<byte>> :: x + [] == x;
      }
      Assoc(w.core.hist.accepted, Accepting(w, [s]), Accepting(w1, steps[1..]));
    }
  }

  lemma TryKeeps(w: World, s: Step)
    requires Inv(w)
    ensures Inv(Try(w, s)) && TxOk(w.core.tx) && RxOk(w.core.rx)
  {
    assert TxOk(w.core.tx) && RxOk(w.core.rx) by {
      hide MutexOk, HandshakeOk, CloseOk, LeavingOk;
    }
    if Enabled(w, s) {
      InvStep(w, s);
    }
  }

  /** What was accepted is what `Send` was given whenever the session was running, in order. */
  lemma AcceptedInOrder(steps: seq<Step>)
    ensures Exec(WORLD_START, steps).core.hist.accepted == Accepting(WORLD_START, steps)
  {
    hide Inv;
    StartInv();
    AcceptedFrom(WORLD_START, steps);
    assert forall x: seq<seq<byte>> :: [] + x == x;
  }

  // ---------- what it received ----------

  /** The bytes that the calls of `recv` brought, made while the session was running, readable and not at the
      end of the stream. */
  function Hearing(w: World, steps: seq<Step>): seq<byte>
    decreases |steps|
  {
    if steps == [] then []
    else
      var s := steps[0];
      (if s.Run? && w.logic.Woken? && Reads(w.core, NO_EVENTS) then Brought(s.recvs[..RecvCalls(s.recvs)]) else [])
      + Hearing(Try(w, s), steps[1..])
  }

  lemma HearStep(w: World, s: Step)
    requires TxOk(w.core.tx) && RxOk(w.core.rx)
    ensures Try(w, s).core.hist.received == w.core.hist.received + Hearing(w, [s])
  {
    assert [s][1..] == [] && forall x: seq<byte> :: x + [] == x;
    hide TxOk, RxOk, Body, Apply, Reads, RecvCalls, Brought;
    if Enabled(w, s) {
      if s.Run? {
        RanHistory(w, s);
      } else {
        Quiet(w, s);
      }
    }
  }

  lemma BodyReceives(c: Core, shouldClose: bool, recvs: seq<RecvAnswer>, sends: seq<SendAnswer>, idle: bool)
    requires TxOk(c.tx) && RxOk(c.rx)
    ensures Body(c, shouldClose, recvs, sends, idle).hist.received == c.hist.received + Heard(c, NO_EVENTS, recvs)
  {
    assert Ready(c, NO_EVENTS) == c;
    PostRecvExactly(c, NO_EVENTS, recvs);
    hide PostRecv, SendLoop, TxOk, RxOk, Heard;
  }

  lemma {:induction false} ReceivedFrom(w: World, steps: seq<Step>)
    requires Inv(w)
    ensures Exec(w, steps).core.hist.received == w.core.hist.received + Hearing(w, steps)
    decreases |steps|
  {
    if steps != [] {
      hide Inv, Enabled, Apply, TxOk, RxOk;
      var s, w1 := steps[0], Try(w, steps[0]);
      TryKeeps(w, s);
      HearStep(w, s);
      ReceivedFrom(w1, steps[1..]);
      assert Hearing(w, [s]) + Hearing(w1, steps[1..]) == Hearing(w, steps) by {
        assert [s][1..] == [] && forall x: seq<byte> :: x + [] == x;
      }
      Assoc(w.core.hist.received, Hearing(w, [s]), Hearing(w1, steps[1..]));
    }
  }

  /** What was received is what these calls brought, in order. */
  lemma ReceivedInOrder(steps: seq<Step>)
    ensures Exec(WORLD_START, steps).core.hist.received == Hearing(WORLD_START, steps)
  {
    hide Inv;
    StartInv();
    ReceivedFrom(WORLD_START, steps);
    assert forall x: seq<byte> :: [] + x == x;
  }

  // ---------- how much it sent ----------

  /** All that the answers in a run report as taken. */
  function AllReported(steps: seq<Step>): nat {
    if steps == [] then 0 else (if steps[0].Run? then Reported(steps[0].sends) else 0) + AllReported(steps[1..])
  }

  lemma SentStep(w: World, s: Step)
    requires TxOk(w.core.tx) && RxOk(w.core.rx)
    ensures |Try(w, s).core.hist.taken| <= |w.core.hist.taken| + (if s.Run? then Reported(s.sends) else 0)
  {
    hide TxOk, RxOk, Body, Apply, Reported;
    if Enabled(w, s) {
      if s.Run? {
        RanHistory(w, s);
      } else {
        Quiet(w, s);
      }
    }
  }

  lemma {:induction false} SentFrom(w: World, steps: seq<Step>)
    requires Inv(w)
    ensures |Exec(w, steps).core.hist.taken| <= |w.core.hist.taken| + AllReported(steps)
    decreases |steps|
  {
    if steps != [] {
      hide Inv, Enabled, Apply, TxOk, RxOk;
      TryKeeps(w, steps[0]);
      SentStep(w, steps[0]);
      SentFrom(Try(w, steps[0]), steps[1..]);
    }
  }

  /** No byte counts as sent that no answer of the socket reported. */
  lemma SentAtMost(steps: seq<Step>)
    ensures |Exec(WORLD_START, steps).core.hist.taken| <= AllReported(steps)
  {
    hide Inv;
    StartInv();
    SentFrom(WORLD_START, steps);
  }

  // ---------- why it left the running state ----------

  /** No call of the socket fails and no report closes the session. */
  predicate Unhurt(s: Step) {
    match s
    case Run(recvs, sends, _) => RecvFailed !in recvs && SendFailed !in sends
    case Report(ev) => !(ev.err || ev.hup || ev.rdhup)
    case _ => true
  }

  /** Nothing closes the session but that both directions are over. */
  predicate Whole(w: World) {
    && (!w.core.status.Running? ==> w.core.recvOver && w.core.sendOver)
    && !Closing(w.events) && (w.poller.Entered? ==> !Closing(w.poller.ev)) && w.logic != Woken(true)
    && forall ev | ev in w.inflight :: !Closing(ev)
  }

  lemma {:induction false} NoRecvFailure(recvs: seq<RecvAnswer>)
    requires RecvFailed !in recvs
    ensures !RecvEnd(recvs).Failed?
  {
    if recvs != [] {
      NoRecvFailure(recvs[1..]);
    }
  }

  lemma {:induction false} NoSendFailure(sends: seq<SendAnswer>, rests: seq<nat>)
    requires SendFailed !in sends
    ensures !SendEnd(rests, sends).Failed?
    decreases |sends|
  {
    if rests != [] && sends != [] {
      NoSendFailure(sends[1..], if sends[0].Took? then rests[1..] else rests);
    }
  }

  lemma RunWhole(c: Core, recvs: seq<RecvAnswer>, sends: seq<SendAnswer>, idle: bool)
    requires TxOk(c.tx) && RxOk(c.rx) && !c.status.Error? && !c.status.Fresh?
    requires !c.status.Running? ==> c.recvOver && c.sendOver
    requires RecvFailed !in recvs && SendFailed !in sends
    ensures var r := Body(c, false, recvs, sends, idle); !r.status.Running? ==> r.recvOver && r.sendOver
  {
    assert Ready(c, NO_EVENTS) == c;
    NoRecvFailure(recvs);
    NoSendFailure(sends, Rests(c.tx));
    UpdateCloses(c, NO_EVENTS, recvs, sends, idle);
    UpdateReceives(c, NO_EVENTS, recvs, sends, idle);
    UpdateSends(c, NO_EVENTS, recvs, sends, idle);
    hide Body, TxOk, RxOk, RxAll, Rests, RecvEnd, SendEnd, Offers, Taken, Unsent, Heard, HangsUp;
  }

  lemma RunsWhole(w: World, s: Step)
    requires Inv(w) && Whole(w) && Unhurt(s) && Enabled(w, s) && s.Run?
    ensures Whole(Apply(w, s))
  {
    hide CoreOk, MutexOk, HandshakeOk, LeavingOk, TxOk, RxOk, Body, Closing, Unread;
    RunWhole(w.core, s.recvs, s.sends, s.idle);
  }

  lemma OutsideWhole(w: World, s: Step)
    requires Whole(w) && Unhurt(s) && Enabled(w, s) && Outside(s)
    ensures Whole(Apply(w, s))
  {
    hide Body, Send, Ready, Disconnect, TxOk, RxOk, Closing;
    assert !Closing(NO_EVENTS) by { NotClosing(); }
    if s.Report? {
      assert !Closing(s.ev) by { ReportUnhurt(s); }
    }
    assert w.inflight != [] ==> w.inflight[0] in w.inflight;
  }

  lemma NotClosing()
    ensures !Closing(NO_EVENTS)
  {
  }

  lemma ReportUnhurt(s: Step)
    requires s.Report? && Unhurt(s)
    ensures !Closing(s.ev)
  {
  }

  /** What a step of the logic thread does to what the poller thread shares with it. */
  predicate Framed(w: World, w': World) {
    && w'.inflight == w.inflight && w'.poller == w.poller && (w'.events == w.events || w'.events == NO_EVENTS)
    && (w'.logic == Woken(true) ==> Closing(w.events))
  }

  lemma FrameTryLock(w: World, refused: bool)
    requires Enabled(w, TryLock(refused))
    ensures Framed(w, Apply(w, TryLock(refused)))
  {
    hide Body, Send, Ready, Disconnect, TxOk, RxOk, Closing;
  }

  lemma FrameWakeUp(w: World)
    requires Enabled(w, WakeUp)
    ensures Framed(w, Apply(w, WakeUp))
  {
    hide Body, Send, Ready, Disconnect, TxOk, RxOk, Closing;
  }

  lemma FrameRegister(w: World)
    requires Enabled(w, Register)
    ensures Framed(w, Apply(w, Register))
  {
    hide Body, Send, Ready, Disconnect, TxOk, RxOk, Closing;
  }

  lemma FrameMarkArmed(w: World)
    requires Enabled(w, MarkArmed)
    ensures Framed(w, Apply(w, MarkArmed))
  {
    hide Body, Send, Ready, Disconnect, TxOk, RxOk, Closing;
  }

  lemma FrameSkipArming(w: World)
    requires Enabled(w, SkipArming)
    ensures Framed(w, Apply(w, SkipArming))
  {
    hide Body, Send, Ready, Disconnect, TxOk, RxOk, Closing;
  }

  lemma FrameUnlock(w: World)
    requires Enabled(w, Unlock)
    ensures Framed(w, Apply(w, Unlock))
  {
    hide Body, Send, Ready, Disconnect, TxOk, RxOk, Closing;
  }

  lemma FrameReap(w: World)
    requires Enabled(w, Reap)
    ensures Framed(w, Apply(w, Reap))
  {
    hide Body, Send, Ready, Disconnect, TxOk, RxOk, Closing;
  }

  lemma FrameApp(w: World, s: Step)
    requires Enabled(w, s) && (s.AppSend? || s.AppDisconnect?)
    ensures Framed(w, Apply(w, s))
  {
    hide Body, Send, Ready, Disconnect, TxOk, RxOk, Closing;
    assert Apply(w, s) == w.(core := Apply(w, s).core);
  }

  lemma LogicFrame(w: World, s: Step)
    requires Enabled(w, s) && !s.Run? && !Outside(s)
    ensures Framed(w, Apply(w, s))
  {
    hide Apply, Enabled, Framed;
    match s
    case TryLock(refused) => FrameTryLock(w, refused);
    case WakeUp => FrameWakeUp(w);
    case Register => FrameRegister(w);
    case MarkArmed => FrameMarkArmed(w);
    case SkipArming => FrameSkipArming(w);
    case Unlock => FrameUnlock(w);
    case Reap => FrameReap(w);
    case _ => FrameApp(w, s);
  }

  lemma LogicWhole(w: World, s: Step)
    requires Whole(w) && Enabled(w, s) && !s.Run? && !Outside(s) && TxOk(w.core.tx) && RxOk(w.core.rx)
    ensures Whole(Apply(w, s))
  {
    hide Body, TxOk, RxOk, Closing, Apply, Enabled;
    NotClosing();
    SameStatus(w, s);
    Quiet(w, s);
    LogicFrame(w, s);
  }

  lemma WholeStep(w: World, s: Step)
    requires Inv(w) && Whole(w) && Unhurt(s)
    ensures Whole(Try(w, s))
  {
    TryKeeps(w, s);
    if Enabled(w, s) {
      if s.Run? {
        RunsWhole(w, s);
      } else {
        hide Inv, Apply, Whole;
        if Outside(s) {
          OutsideWhole(w, s);
        } else {
          LogicWhole(w, s);
        }
      }
    }
  }

  lemma {:induction false} WholeFrom(w: World, steps: seq<Step>)
    requires Inv(w) && Whole(w) && forall s | s in steps :: Unhurt(s)
    ensures Whole(Exec(w, steps))
    decreases |steps|
  {
    if steps != [] {
      hide Inv, Whole, Try, Unhurt;
      assert steps[0] in steps && forall s | s in steps[1..] :: s in steps;
      TryKeeps(w, steps[0]);
      WholeStep(w, steps[0]);
      WholeFrom(Try(w, steps[0]), steps[1..]);
    }
  }

  /** A session that has left the running state though no call failed and no report closed it has read the end
      of the stream, was shut down once, and had sent all that was stored by then. */
  lemma LeavesWhenDone(steps: seq<Step>)
    requires forall s | s in steps :: Unhurt(s)
    ensures var c := Exec(WORLD_START, steps).core;
            !c.status.Running? ==>
              && c.recvOver && c.sendOver && c.disconnect && c.hist.shutdowns == 1
              && c.hist.mark <= |c.hist.stored| && c.hist.taken == c.hist.stored[..c.hist.mark]
  {
    hide Exec, Whole, Unhurt;
    StartInv();
    assert Whole(WORLD_START) by { StartWhole(); }
    WholeFrom(WORLD_START, steps);
    RunsKeepInv(WORLD_START, steps);
    WholeSays(Exec(WORLD_START, steps));
  }

  lemma StartWhole()
    ensures Whole(WORLD_START)
  {
  }

  lemma WholeSays(w: World)
    requires Whole(w)
    ensures !w.core.status.Running? ==> w.core.recvOver && w.core.sendOver
  {
  }
}
