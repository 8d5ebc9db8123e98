/** The Windows session as it runs. An update that nothing interrupts does what its steps do in a row in
    the state machine of `WindowsWorld`. */
module WindowsSession {
  import opened Bytes
  import opened Framing
  import opened LinuxSession
  import opened WindowsWorld

  function RecvRun(w: World, ok: bool): World {
    Try(Try(Try(Try(w, LookRecv), ClearRecv), ReadRecv), IssueRecv(ok))
  }

  function SendRun(w: World, ok: bool): World {
    Try(Try(Try(Try(w, LookSend), ClearSend), ReadSend), IssueSend(ok))
  }

  function CloseRun(w: World): World { Try(Try(w, LookStatus), LookSendStatus) }

  /** The steps of an update, in order. */
  function UpdateSteps(recvOk: bool, sendOk: bool): seq<Step> {
    [BeginUpdate, LookRecv, ClearRecv, ReadRecv, IssueRecv(recvOk)]
    + ([LookSend, ClearSend, ReadSend, IssueSend(sendOk)] + [LookStatus, LookSendStatus])
  }

  lemma UpdateIsRun(w: World, recvOk: bool, sendOk: bool)
    ensures Exec(w, UpdateSteps(recvOk, sendOk)) == CloseRun(SendRun(RecvRun(Try(w, BeginUpdate), recvOk), sendOk))
  {
    hide Enabled, Apply, Try;
    var r := [LookRecv, ClearRecv, ReadRecv, IssueRecv(recvOk)];
    var s := [LookSend, ClearSend, ReadSend, IssueSend(sendOk)];
    var c := [LookStatus, LookSendStatus];
    assert UpdateSteps(recvOk, sendOk) == [BeginUpdate] + (r + (s + c));
    var w1 := Try(w, BeginUpdate);
    ExecOne(w, BeginUpdate, r + (s + c));
    ExecAppend(w1, r, s + c);
    ExecFour(w1, LookRecv, ClearRecv, ReadRecv, IssueRecv(recvOk));
    var w2 := RecvRun(w1, recvOk);
    ExecAppend(w2, s, c);
    ExecFour(w2, LookSend, ClearSend, ReadSend, IssueSend(sendOk));
    var w3 := SendRun(w2, sendOk);
    ExecOne(w3, LookStatus, [LookSendStatus]);
    ExecOne(Try(w3, LookStatus), LookSendStatus, []);
    assert c == [LookStatus] + [LookSendStatus] && [LookSendStatus] + [] == [LookSendStatus];
  }

  lemma TryKeeps(w: World, s: Step)
    requires Inv(w)
    ensures Inv(Try(w, s))
  {
    hide Inv, Enabled, Apply;
    if Enabled(w, s) {
      InvStep(w, s);
    }
  }

  function Collected(o: Op): Op { o.(status := IoIdle, consumed := o.consumed + [o.answer]) }

  /** What is done with a completed receive. */
  lemma RecvRunSeen(w: World, ok: bool)
    requires w.logic.RecvDispose? && RxOk(w.core.rx)
    requires w.core.status.Running? && !w.core.recvOver && w.recv.status.IoCompleted?
    ensures var o, data := Collected(w.recv), w.buffer[..Min(w.recv.answer.bytes, |w.buffer|)];
            RecvRun(w, ok) == (
              if !w.recv.answer.succ then w.(core := w.core.(status := Error), recv := o, logic := SendDispose)
              else if w.recv.answer.bytes == 0 then
                w.(core := w.core.(recvOver := true, disconnect := true), recv := o, logic := SendDispose)
              else if ok then w.(core := OnRecv(w.core, data), recv := Issue(Reset(o)), logic := SendDispose)
              else w.(core := OnRecv(w.core, data).(status := Error), recv := Reset(o).(status := IoFailed),
                      logic := SendDispose))
  {
    hide RxOk, RxAll, Dead;
  }

  /** What is done with a completed send. */
  lemma SendRunSeen(w: World, ok: bool)
    requires w.logic.SendDispose? && w.core.status.Running? && !w.core.sendOver && w.send.status.IoCompleted?
    requires w.core.tx.cur.Some?
    ensures var o, block := Collected(w.send), w.core.tx.cur.value;
            var n := Min(w.send.answer.bytes, |block|);
            SendRun(w, ok) == (
              if !w.send.answer.succ then
                w.(core := w.core.(status := Error), send := o, blocks := w.blocks + [block], logic := Switch)
              else w.(core := w.core.(tx := Tx(w.core.tx.queue, None, 0),
                                      hist := w.core.hist.(taken := w.core.hist.taken + block)),
                      send := o, wire := w.wire + block[..n], blocks := w.blocks + [block], logic := Switch))
  {
  }

  /** What is done when no send is under way and there is a block to send. */
  lemma PostSendRun(w: World, ok: bool)
    requires w.logic.SendDispose? && w.core.tx.queue != [] && w.core.tx.queue[0] != [] && w.core.tx.cur.None?
    ensures var tx := Tx(w.core.tx.queue[1..], Some(w.core.tx.queue[0]), 0);
            Try(WindowsWorld.PostSend(w), IssueSend(ok)) == (
              if ok then w.(core := w.core.(tx := tx), send := Issue(Reset(w.send)), logic := Switch)
              else w.(core := w.core.(tx := tx, status := Error), send := Reset(w.send).(status := IoFailed),
                      logic := Switch))
  {
  }

  /** The other cases, and what the invariant says of the block being sent. */
  lemma SendRunElse(w: World, ok: bool)
    requires Inv(w) && w.logic.SendDispose?
    ensures TxOk(w.core.tx) && (w.send.status.IoCompleted? ==> w.core.tx.cur.Some?)
    ensures w.core.status.Running? && w.send.status.IoIdle? ==> w.core.tx.cur.None?
    ensures if !w.core.status.Running? || w.core.sendOver then SendRun(w, ok) == w.(logic := Switch)
            else if w.send.status.IoIdle? then SendRun(w, ok) == Try(WindowsWorld.PostSend(w), IssueSend(ok))
            else w.send.status.IoCompleted? || SendRun(w, ok) == w.(logic := Switch)
  {
    hide OpOk, BufferOk, CloseOk, LogicOk;
  }

  /** What the logic thread and the poller threads share for one overlapped operation. */
  class PerIoData {
    var status: IoStatus
    var succ: bool
    var bytes: nat
    // the kernel's side and the history
    ghost var issued: nat
    ghost var busy: seq<Delivery>
    ghost var started: nat
    ghost var answered: seq<Answer>
    ghost var consumed: seq<Answer>
    ghost var clobbered: bool

    constructor ()
      ensures State() == OP_START
    {
      status, succ, bytes := IoIdle, false, 0;
      issued, busy, started, answered, consumed, clobbered := 0, [], 0, [], [], false;
    }

    ghost function State(): Op
      reads this
    {
      Op(status, Answer(succ, bytes), issued, busy, started, answered, consumed, clobbered)
    }

    method Reset()
      modifies this
      ensures State() == WindowsWorld.Reset(old(State()))
    {
      status := IoPending;
      succ, bytes := false, 0;
    }

    method Error()
      modifies this
      ensures State() == old(State()).(status := IoFailed)
    {
      status := IoFailed;
    }

    /** A completion is collected: the status is idle again, the answer read. */
    method Collect()
      requires status.IoCompleted?
      modifies this
      ensures State() == old(State()).(status := IoIdle, consumed := old(consumed) + [old(State()).answer])
      ensures succ == old(succ) && bytes == old(bytes)
    {
      status := IoIdle;
      consumed := consumed + [Answer(succ, bytes)];
    }

    /** The kernel has accepted the call. */
    ghost method Issue()
      modifies this
      ensures State() == WindowsWorld.Issue(old(State()))
    {
      issued, started := issued + 1, started + 1;
    }

    /** The poller thread with a successful or failed completion: the answer first, the status then. */
    method Complete(ok: bool, n: nat)
      requires busy != [] && !busy[0].wrote && busy[0].answer == Answer(ok, n)
      modifies this
      ensures State() == WriteStatus(WriteAnswer(old(State()), 0), 0)
    {
      ghost var was := State();
      succ, bytes := ok, n;
      busy := busy[0 := busy[0].(wrote := true)];
      assert State() == WriteAnswer(was, 0);
      answered, clobbered := answered + [busy[0].answer], clobbered || !status.IoPending?;
      busy := busy[..0] + busy[1..];
      status := IoCompleted;
    }
  }

  class Session {
    const ioSend: PerIoData
    const ioRecv: PerIoData
    var buffer: seq<byte>
    var rx: Rx
    var queSend: seq<seq<byte>>
    var msgSend: Option<seq<byte>>
    var status: Status
    var disconnect: bool
    var sendOver: bool
    var recvOver: bool
    ghost var hist: History
    ghost var closings: nat
    ghost var wire: seq<byte>
    ghost var blocks: seq<seq<byte>>

    ghost predicate Valid()
      reads this, ioSend, ioRecv
    {
      ioSend != ioRecv && RxOk(rx)
    }

    /** The session as the state machine sees it, with its logic thread at `at`. */
    ghost function State(at: Logic): World
      reads this, ioSend, ioRecv
    {
      var core := Core(status, true, true, disconnect, sendOver, recvOver, Tx(queSend, msgSend, 0), rx, hist, closings);
      World(core, ioSend.State(), ioRecv.State(), buffer, at, false, wire, blocks, false)
    }

    constructor ()
      ensures Valid() && fresh(ioSend) && fresh(ioRecv)
      ensures State(Away) == World(CORE_START.(status := Fresh), OP_START, OP_START, [], Away, false, [], [], false)
    {
      ioSend := new PerIoData();
      ioRecv := new PerIoData();
      buffer, rx, queSend, msgSend := [], RX_START, [], None;
      status, disconnect, sendOver, recvOver := Fresh, false, false, false;
      hist, closings, wire, blocks := History([], [], true, [], [], 0, 0), 0, [], [];
    }

    /** `Attach` to a connected socket that could be registered with the completion port. */
    method Attach(ok: bool)
      requires Valid() && State(Away) == World(CORE_START.(status := Fresh), OP_START, OP_START, [], Away, false, [], [], false)
      modifies this, ioRecv
      ensures Valid() && State(Away) == Apply(WORLD_START, IssueRecv(ok))
    {
      status := Running;
      PostRecv(ok);
    }

    /** `_post_recv`; `ok` says whether the kernel accepts the call. */
    method PostRecv(ok: bool)
      requires Valid()
      modifies `status, ioRecv
      ensures Valid() && ioSend.State() == old(ioSend.State())
      ensures if !old(ioRecv.status).IoIdle? then ioRecv.State() == old(ioRecv.State()) && status == old(status)
              else if ok then ioRecv.State() == Issue(Reset(old(ioRecv.State()))) && status == old(status)
              else ioRecv.State() == Reset(old(ioRecv.State())).(status := IoFailed) && status == Error
    {
      if !ioRecv.status.IoIdle? {
        return;
      }
      ioRecv.Reset();
      if ok {
        ioRecv.Issue();
      } else {
        ioRecv.Error();
        status := Error;
      }
    }

    /** `_on_recv` of `Sessions.Session`, on values. */
    method OnRecv(data: seq<byte>)
      requires Valid()
      modifies `rx, `disconnect, `hist
      ensures Valid() && rx == RxAll(old(rx), data) && disconnect == (old(disconnect) || Dead(rx))
      ensures hist == old(hist).(received := old(hist).received + data)
    {
      rx := RxAll(rx, data);
      disconnect := disconnect || Dead(rx);
      hist := hist.(received := hist.received + data);
    }

    /** A chunk was received: it is parsed and the next receive posted. */
    method TakeChunk(ok: bool)
      requires Valid() && ioRecv.status.IoIdle?
      modifies `rx, `disconnect, `hist, `status, ioRecv
      ensures var w := old(State(SendDispose));
              var c := WindowsWorld.OnRecv(w.core, w.buffer[..Min(w.recv.answer.bytes, |w.buffer|)]);
              Valid() && State(SendDispose) == (
                if ok then w.(core := c, recv := Issue(Reset(w.recv)))
                else w.(core := c.(status := Error), recv := Reset(w.recv).(status := IoFailed)))
    {
      hide RxAll, RxOk, Dead, Issue, Reset;
      OnRecv(buffer[..Min(ioRecv.bytes, |buffer|)]);
      PostRecv(ok);
    }

    /** `_dispose_recv` once a completion was seen. */
    method RecvCompleted(ok: bool)
      requires Valid() && status.Running? && !recvOver && ioRecv.status.IoCompleted?
      modifies this, ioRecv
      ensures Valid() && State(SendDispose) == RecvRun(old(State(RecvDispose)), ok)
    {
      hide RecvRun, Try, RxAll, RxOk, Dead, Issue, Reset, WindowsWorld.OnRecv;
      RecvRunSeen(State(RecvDispose), ok);
      ioRecv.Collect();
      if ioRecv.succ {
        if ioRecv.bytes > 0 {
          TakeChunk(ok);
        } else {
          recvOver := true;
          disconnect := true;
        }
      } else {
        status := Error;
      }
    }

    method DisposeRecv(ok: bool)
      requires Valid()
      modifies this, ioRecv
      ensures Valid() && State(SendDispose) == RecvRun(old(State(RecvDispose)), ok)
    {
      if !status.Running? || recvOver {
        return;
      }
      if ioRecv.status.IoCompleted? {
        RecvCompleted(ok);
      }
    }

    /** `_post_send` with a block to send. */
    method SendFront(ok: bool)
      requires Valid() && msgSend.None? && queSend != [] && queSend[0] != []
      modifies this, ioSend
      ensures Valid() && State(Switch) == Try(WindowsWorld.PostSend(old(State(SendDispose))), IssueSend(ok))
    {
      PostSendRun(State(SendDispose), ok);
      hide Try, WindowsWorld.PostSend, Issue, Reset, PerIoData.State;
      msgSend := Some(queSend[0]);
      queSend := queSend[1..];
      ioSend.Reset();
      if ok {
        ioSend.Issue();
      } else {
        ioSend.Error();
        status := Error;
      }
    }

    /** `_post_send`; the blocks of the queue are never empty. */
    method PostSend(ok: bool)
      requires Valid() && TxOk(State(SendDispose).core.tx) && ioSend.status.IoIdle? && msgSend.None?
      modifies this, ioSend
      ensures Valid() && State(Switch) == Try(WindowsWorld.PostSend(old(State(SendDispose))), IssueSend(ok))
    {
      if msgSend.None? && queSend == [] {
        if disconnect && !sendOver {
          sendOver := true;
          hist := hist.(shutdowns := hist.shutdowns + 1, mark := |hist.stored|);
        }
        return;
      }
      SendFront(ok);
    }

    /** `_dispose_send` once a completion was seen. */
    method SendCompleted(ok: bool)
      requires Valid() && status.Running? && !sendOver && ioSend.status.IoCompleted? && msgSend.Some?
      modifies this, ioSend
      ensures Valid() && State(Switch) == SendRun(old(State(SendDispose)), ok)
    {
      hide SendRun, Try;
      SendRunSeen(State(SendDispose), ok);
      ioSend.Collect();
      blocks := blocks + [msgSend.value];
      if ioSend.succ {
        ghost var n := Min(ioSend.bytes, |msgSend.value|);
        hist := hist.(taken := hist.taken + msgSend.value);
        wire := wire + msgSend.value[..n];
        msgSend := None;
      } else {
        status := Error;
      }
    }

    method DisposeSend(ok: bool)
      requires Valid() && Inv(State(SendDispose))
      modifies this, ioSend
      ensures Valid() && State(Switch) == SendRun(old(State(SendDispose)), ok)
    {
      SendRunElse(State(SendDispose), ok);
      hide Inv, SendRun, Try, WindowsWorld.PostSend;
      if !status.Running? || sendOver {
        return;
      }
      if ioSend.status.IoIdle? {
        PostSend(ok);
      } else if ioSend.status.IoCompleted? {
        SendCompleted(ok);
      }
    }

    /** The close machine at the end of `Update`. */
    method Close()
      requires Valid()
      modifies `status, `closings
      ensures Valid() && State(Check) == CloseRun(old(State(Switch)))
    {
      match status
      case Running =>
        if recvOver && sendOver {
          status := PreClosed;
        }
      case Error =>
        if !ioRecv.status.IoPending? && !ioSend.status.IoPending? {
          status := PreClosed;
        }
      case PreClosed =>
        closings := closings + 1;
        status := Closed;
      case _ =>
    }

    /** `Update`, uninterrupted. */
    method Update(recvOk: bool, sendOk: bool)
      requires Valid() && Inv(State(Away))
      modifies this, ioSend, ioRecv
      ensures Valid() && State(Check) == Exec(old(State(Away)), UpdateSteps(recvOk, sendOk)) && Inv(State(Check))
    {
      hide Inv, RecvRun, SendRun, CloseRun;
      ghost var w := State(Away);
      RunsKeepInv(w, UpdateSteps(recvOk, sendOk));
      UpdateIsRun(w, recvOk, sendOk);
      InvStep(w, BeginUpdate);
      assert State(RecvDispose) == Apply(w, BeginUpdate);
      RecvRunKeeps(State(RecvDispose), recvOk);
      DisposeRecv(recvOk);
      DisposeSend(sendOk);
      Close();
    }
  }

  lemma RecvRunKeeps(w: World, ok: bool)
    requires Inv(w)
    ensures Inv(RecvRun(w, ok))
  {
    hide Inv, Try;
    TryKeeps(w, LookRecv);
    TryKeeps(Try(w, LookRecv), ClearRecv);
    TryKeeps(Try(Try(w, LookRecv), ClearRecv), ReadRecv);
    TryKeeps(Try(Try(Try(w, LookRecv), ClearRecv), ReadRecv), IssueRecv(ok));
  }
}
