/** What whole runs of a Windows session come to, told from their steps: what it accepted, what it received and
    why it left the running state; and what the parts of an update do. */
module WindowsRuns {
  import opened Bytes
  import opened Framing
  import opened LinuxSession
  import opened WindowsSession
  import opened WindowsWorld

  // ---------- the parts of an update ----------

  /** What the close machine makes of a status. */
  function StatusAfter(w: World): Status {
    match w.core.status
    case Running => if w.core.recvOver && w.core.sendOver then PreClosed else Running
    case Error => if w.recv.status.IoPending? || w.send.status.IoPending? then Error else PreClosed
    case PreClosed => Closed
    case other => other
  }

  /** The close machine: a running session goes on until both directions are over, one with an error until
      nothing is outstanding, and a pre-closed one is closed. */
  lemma CloseExactly(w: World)
    requires w.logic.Switch? && !w.core.status.Fresh?
    ensures var closings := w.core.closings + (if w.core.status.PreClosed? then 1 else 0);
            CloseRun(w) == w.(core := w.core.(status := StatusAfter(w), closings := closings), logic := Check)
  {
    if w.core.status.Error? {
      CloseError(w);
    } else {
      CloseOther(w);
      hide Apply;
      assert Try(Try(w, LookStatus), LookSendStatus) == Try(w, LookStatus);
    }
  }

  lemma CloseOther(w: World)
    requires w.logic.Switch? && !w.core.status.Fresh? && !w.core.status.Error?
    ensures var closings := w.core.closings + (if w.core.status.PreClosed? then 1 else 0);
            Try(w, LookStatus) == w.(core := w.core.(status := StatusAfter(w), closings := closings), logic := Check)
  {
    hide TxOk, RxOk;
  }

  lemma CloseError(w: World)
    requires w.logic.Switch? && w.core.status.Error?
    ensures CloseRun(w) == w.(core := w.core.(status := StatusAfter(w)), logic := Check)
  {
    hide TxOk, RxOk;
    if w.recv.status.IoPending? {
      assert Try(w, LookStatus) == w.(logic := Check);
    } else {
      assert Try(w, LookStatus) == w.(logic := SwitchSend);
    }
  }

  /** The receive side of an update. Only a completed receive of a running session whose stream is not over is
      looked at: one that failed breaks the session, an empty one is the end of the stream, and any other is
      parsed and the next one posted. */
  lemma RecvExactly(w: World, ok: bool)
    requires w.logic.RecvDispose? && RxOk(w.core.rx)
    ensures var c, a, o := w.core, w.recv.answer, Collected(w.recv);
            var data := w.buffer[..Min(a.bytes, |w.buffer|)];
            var rx := RxAll(c.rx, data);
            var heard := c.(rx := rx, disconnect := c.disconnect || Dead(rx), hist := c.hist.(received := c.hist.received + data));
            RecvRun(w, ok) == (
              if !c.status.Running? || c.recvOver || !w.recv.status.IoCompleted? then w.(logic := SendDispose)
              else if !a.succ then w.(core := c.(status := Error), recv := o, logic := SendDispose)
              else if a.bytes == 0 then w.(core := c.(recvOver := true, disconnect := true), recv := o, logic := SendDispose)
              else if ok then w.(core := heard, recv := Issue(Reset(o)), logic := SendDispose)
              else w.(core := heard.(status := Error), recv := Reset(o).(status := IoFailed), logic := SendDispose))
  {
    hide RxOk, RxAll, Dead, RecvRun, Issue, Reset, Collected;
    if w.core.status.Running? && !w.core.recvOver && w.recv.status.IoCompleted? {
      RecvRunSeen(w, ok);
    } else {
      RecvSkipped(w, ok);
    }
  }

  lemma RecvSkipped(w: World, ok: bool)
    requires w.logic.RecvDispose? && (!w.core.status.Running? || w.core.recvOver || !w.recv.status.IoCompleted?)
    ensures RecvRun(w, ok) == w.(logic := SendDispose)
  {
    var w1 := Try(w, LookRecv);
    assert w1 == w.(logic := SendDispose);
    assert Try(w1, ClearRecv) == w1 && Try(w1, ReadRecv) == w1 && Try(w1, IssueRecv(ok)) == w1;
  }

  /** The send side of an update. A running session whose send side is not over either has nothing under way,
      and then shuts down when it has nothing to send and is to, or sends the front block; or it has sent a
      block, which is given back; or it waits. */
  lemma SendExactly(w: World, ok: bool)
    requires Inv(w) && w.logic.SendDispose?
    ensures var c, tx, block := w.core, w.core.tx, if w.core.tx.cur.Some? then w.core.tx.cur.value else [];
            var shut := c.(sendOver := true, hist := c.hist.(shutdowns := c.hist.shutdowns + 1, mark := |c.hist.stored|));
            var sent := c.hist.(taken := c.hist.taken + block);
            SendRun(w, ok) == (
              if !c.status.Running? || c.sendOver then w.(logic := Switch)
              else if w.send.status.IoIdle? then
                if tx.queue == [] then w.(core := if c.disconnect then shut else c, logic := Switch)
                else
                  var now := Tx(tx.queue[1..], Some(tx.queue[0]), 0);
                  if ok then w.(core := c.(tx := now), send := Issue(Reset(w.send)), logic := Switch)
                  else w.(core := c.(tx := now, status := Error), send := Reset(w.send).(status := IoFailed), logic := Switch)
              else if !w.send.status.IoCompleted? then w.(logic := Switch)
              else if !w.send.answer.succ then
                w.(core := c.(status := Error), send := Collected(w.send), blocks := w.blocks + [block], logic := Switch)
              else
                w.(core := c.(tx := Tx(tx.queue, None, 0), hist := sent), send := Collected(w.send),
                   wire := w.wire + block[..Min(w.send.answer.bytes, |block|)], blocks := w.blocks + [block], logic := Switch))
  {
    hide Inv, SendRun, Try, OpOk;
    SendRunElse(w, ok);
    if w.core.status.Running? && !w.core.sendOver {
      if w.send.status.IoIdle? {
        if w.core.tx.queue == [] {
          ShutExactly(w, ok);
        } else {
          FrontFilled(w.core.tx);
          PostSendRun(w, ok);
        }
      } else if w.send.status.IoCompleted? {
        SendRunSeen(w, ok);
      }
    }
  }

  lemma FrontFilled(tx: Tx)
    requires TxOk(tx) && tx.queue != []
    ensures tx.queue[0] != []
  {
  }

  lemma ShutExactly(w: World, ok: bool)
    requires w.core.tx.cur.None? && w.core.tx.queue == [] && !w.core.sendOver
    ensures var c := w.core;
            var shut := c.(sendOver := true, hist := c.hist.(shutdowns := c.hist.shutdowns + 1, mark := |c.hist.stored|));
            Try(WindowsWorld.PostSend(w), IssueSend(ok)) == w.(core := if c.disconnect then shut else c, logic := Switch)
  {
  }

  // ---------- what a step adds ----------

  /** A payload the session accepts. */
  function Accepted(w: World, s: Step): seq<seq<byte>> {
    if s.AppSend? && w.core.status.Running? && w.logic.Away? && !w.deleted then [s.p] else []
  }

  /** A chunk the kernel delivers. */
  function Arriving(w: World, s: Step): seq<byte> {
    if s.RecvDone? && Enabled(w, s) then s.data else []
  }

  /** The chunk that was delivered and not read yet. */
  function Unread(w: World): seq<byte> {
    if w.recv.busy != [] || w.recv.status.IoCompleted? || w.logic.RecvCleared? then w.buffer else []
  }

  /** What is received, with that. */
  function Got(w: World): seq<byte> { w.core.hist.received + Unread(w) }

  /** A receive that failed brought nothing. */
  predicate FailedEmpty(w: World) {
    && (w.recv.busy != [] && !w.recv.busy[0].answer.succ ==> w.buffer == [])
    && ((w.recv.status.IoCompleted? || w.logic.RecvCleared?) && !w.recv.answer.succ ==> w.buffer == [])
  }

  /** No call is refused and none fails. */
  predicate Unhurt(s: Step) {
    match s
    case IssueRecv(ok) => ok
    case IssueSend(ok) => ok
    case SendDone(a) => a.succ
    case RecvDone(succ, _) => succ
    case _ => true
  }

  predicate Succeeds(o: Op, cleared: bool) {
    && (forall d | d in o.busy :: d.answer.succ) && (o.status.IoCompleted? || cleared ==> o.answer.succ)
  }

  /** Nothing closes the session but that both directions are over. */
  predicate Whole(w: World) {
    && !w.core.status.Error? && (!w.core.status.Running? ==> w.core.recvOver && w.core.sendOver)
    && Succeeds(w.send, w.logic.SendCleared?) && Succeeds(w.recv, w.logic.RecvCleared?)
  }

  predicate Adds(w: World, s: Step, w': World) {
    && w'.core.hist.accepted == w.core.hist.accepted + Accepted(w, s)
    && Got(w') == Got(w) + Arriving(w, s) && FailedEmpty(w')
    && (Whole(w) && Unhurt(s) ==> Whole(w'))
  }

  /** Steps that are not about receiving. */
  lemma Untouched(w: World, w': World)
    requires FailedEmpty(w) && w'.recv == w.recv && w'.buffer == w.buffer
    requires w'.core.hist.received == w.core.hist.received && w'.logic.RecvCleared? == w.logic.RecvCleared?
    ensures Got(w') == Got(w) && FailedEmpty(w') && Got(w) + [] == Got(w)
  {
  }

  lemma AddsBeginUpdate(w: World)
    requires Inv(w) && FailedEmpty(w) && Enabled(w, BeginUpdate)
    ensures Adds(w, BeginUpdate, Apply(w, BeginUpdate))
  {
    hide Inv, CoreOk, TxOk, RxOk, OnWire, Given, NoneOver, Got, FailedEmpty, OpOk, WireOk, CloseOk, BufferOk;
    InvParts(w);
    Untouched(w, Apply(w, BeginUpdate));
  }

  lemma AddsLookRecv(w: World)
    requires Inv(w) && FailedEmpty(w) && Enabled(w, LookRecv)
    ensures Adds(w, LookRecv, Apply(w, LookRecv))
  {
    hide Inv, CoreOk, TxOk, RxOk, OnWire, Given, NoneOver, Got, FailedEmpty, OpOk, WireOk, CloseOk, BufferOk;
    InvParts(w);
    Untouched(w, Apply(w, LookRecv));
  }

  lemma AddsClearSend(w: World)
    requires Inv(w) && FailedEmpty(w) && Enabled(w, ClearSend)
    ensures Adds(w, ClearSend, Apply(w, ClearSend))
  {
    hide Inv, CoreOk, TxOk, RxOk, OnWire, Given, NoneOver, Got, FailedEmpty, WireOk, CloseOk, BufferOk;
    InvParts(w);
    Untouched(w, Apply(w, ClearSend));
  }

  /** What the first look at the status leaves alone. */
  lemma LookStatusFields(w: World)
    requires w.logic.Switch?
    ensures var w' := Apply(w, LookStatus);
            && w'.recv == w.recv && w'.send == w.send && w'.buffer == w.buffer && w'.core.hist == w.core.hist
            && w'.core.recvOver == w.core.recvOver && w'.core.sendOver == w.core.sendOver
            && (w'.logic.Check? || w'.logic.SwitchSend?)
            && (w'.core.status != w.core.status ==> w'.core.status.Closed? || (w.core.recvOver && w.core.sendOver))
            && (w'.core.status.Running? ==> w.core.status.Running?) && (w'.core.status.Error? ==> w.core.status.Error?)
            && (w'.core.status.Closed? ==> w.core.status.Closed? || w.core.status.PreClosed?)
  {
    hide TxOk, RxOk;
  }

  lemma AddsLookStatus(w: World)
    requires Inv(w) && FailedEmpty(w) && Enabled(w, LookStatus)
    ensures Adds(w, LookStatus, Apply(w, LookStatus))
  {
    hide Inv, FailedEmpty, Got, Apply;
    LookStatusFields(w);
    Untouched(w, Apply(w, LookStatus));
    assert w.core.hist.accepted + [] == w.core.hist.accepted;
  }

  lemma AddsLookSendStatus(w: World)
    requires Inv(w) && FailedEmpty(w) && Enabled(w, LookSendStatus)
    ensures Adds(w, LookSendStatus, Apply(w, LookSendStatus))
  {
    hide Inv, CoreOk, TxOk, RxOk, OnWire, Given, NoneOver, Got, FailedEmpty, OpOk, WireOk, CloseOk, BufferOk;
    InvParts(w);
    Untouched(w, Apply(w, LookSendStatus));
  }

  lemma AddsReap(w: World)
    requires Inv(w) && FailedEmpty(w) && Enabled(w, Reap)
    ensures Adds(w, Reap, Apply(w, Reap))
  {
    hide Inv, CoreOk, TxOk, RxOk, OnWire, Given, NoneOver, Got, FailedEmpty, OpOk, WireOk, CloseOk, BufferOk;
    InvParts(w);
    Untouched(w, Apply(w, Reap));
  }

  lemma AddsAppDisconnect(w: World)
    requires Inv(w) && FailedEmpty(w) && Enabled(w, AppDisconnect)
    ensures Adds(w, AppDisconnect, Apply(w, AppDisconnect))
  {
    hide Inv, CoreOk, TxOk, RxOk, OnWire, Given, NoneOver, Got, FailedEmpty, OpOk, WireOk, CloseOk, BufferOk;
    InvParts(w);
    Untouched(w, Apply(w, AppDisconnect));
  }

  /** What reading the answer of a send comes to. */
  lemma ReadSendFields(w: World)
    ensures var w' := DisposeSend(w);
            && w'.recv == w.recv && w'.buffer == w.buffer && w'.logic.Switch?
            && w'.core.hist.received == w.core.hist.received && w'.core.hist.accepted == w.core.hist.accepted
            && w'.core.recvOver == w.core.recvOver && w'.core.sendOver == w.core.sendOver
            && w'.core.status == (if w.send.answer.succ then w.core.status else Error)
            && w'.send.busy == w.send.busy && w'.send.status == w.send.status
  {
  }

  lemma AddsReadSend(w: World)
    requires Inv(w) && FailedEmpty(w) && Enabled(w, ReadSend)
    ensures Adds(w, ReadSend, Apply(w, ReadSend))
  {
    hide Inv, FailedEmpty, Got, DisposeSend, CoreOk, TxOk, RxOk, WireOk, CloseOk, BufferOk, BlockOk;
    InvParts(w);
    ReadSendFields(w);
    Untouched(w, Apply(w, ReadSend));
    assert w.core.hist.accepted + [] == w.core.hist.accepted;
  }

  lemma AddsIssueSend(w: World, ok: bool)
    requires Inv(w) && FailedEmpty(w) && Enabled(w, IssueSend(ok))
    ensures Adds(w, IssueSend(ok), Apply(w, IssueSend(ok)))
  {
    hide Inv, CoreOk, TxOk, RxOk, OnWire, Given, NoneOver, Got, FailedEmpty, WireOk, CloseOk, BufferOk;
    InvParts(w);
    Untouched(w, Apply(w, IssueSend(ok)));
  }

  lemma AddsSendDone(w: World, a: Answer)
    requires Inv(w) && FailedEmpty(w) && Enabled(w, SendDone(a))
    ensures Adds(w, SendDone(a), Apply(w, SendDone(a)))
  {
    hide Inv, CoreOk, TxOk, RxOk, OnWire, Given, NoneOver, Got, FailedEmpty, WireOk, CloseOk, BufferOk;
    InvParts(w);
    Untouched(w, Apply(w, SendDone(a)));
  }

  lemma AddsAppSend(w: World, p: seq<byte>, how: Sender)
    requires Inv(w) && FailedEmpty(w) && Enabled(w, AppSend(p, how))
    ensures Adds(w, AppSend(p, how), Apply(w, AppSend(p, how)))
  {
    hide Inv, CoreOk, TxOk, RxOk, OnWire, Given, NoneOver, Got, FailedEmpty, OpOk, WireOk, CloseOk, BufferOk, Send, Stored, Room;
    InvParts(w);
    SendStores(w.core, p, how);
    SendFrameKept(w.core, p, how);
    Untouched(w, Apply(w, AppSend(p, how)));
  }

  lemma SendFrameKept(c: Core, p: seq<byte>, how: Sender)
    requires TxOk(c.tx)
    ensures var c' := Send(c, p, how);
            c'.hist.received == c.hist.received && c'.status == c.status && c'.recvOver == c.recvOver && c'.sendOver == c.sendOver
  {
    hide SendFrame, Stored, Room, Faithful, TxOk;
  }

  /** What starting to send leaves alone, and so the look at the send side. */
  predicate NotSent(w: World, w': World) {
    && w'.recv == w.recv && w'.buffer == w.buffer && w'.core.status == w.core.status
    && w'.core.hist.received == w.core.hist.received && w'.core.hist.accepted == w.core.hist.accepted
    && w'.core.recvOver == w.core.recvOver && (w.core.sendOver ==> w'.core.sendOver)
    && w'.send.busy == w.send.busy && (w'.send == w.send || w'.send.status.IoPending?)
    && !w'.logic.RecvCleared? && !w'.logic.SendCleared?
  }

  lemma NoneSent(w: World)
    requires w.core.tx.cur.None? && w.core.tx.queue == []
    ensures NotSent(w, WindowsWorld.PostSend(w))
  {
    hide TxOk, RxOk;
  }

  lemma FirstSent(w: World)
    requires w.core.tx.queue != [] && w.core.tx.queue[0] != []
    ensures NotSent(w, WindowsWorld.PostSend(w))
  {
    hide TxOk, RxOk;
  }

  lemma NothingSent(w: World)
    requires if w.core.tx.queue == [] then w.core.tx.cur.Some? else w.core.tx.queue[0] == []
    ensures NotSent(w, WindowsWorld.PostSend(w))
  {
    hide TxOk, RxOk;
  }

  lemma PostSendFields(w: World)
    ensures NotSent(w, WindowsWorld.PostSend(w))
  {
    hide NotSent, TxOk, RxOk, WindowsWorld.PostSend;
    var tx := w.core.tx;
    if tx.cur.None? && tx.queue == [] {
      NoneSent(w);
    } else if tx.queue != [] && tx.queue[0] != [] {
      FirstSent(w);
    } else {
      NothingSent(w);
    }
  }

  lemma LookSendFields(w: World)
    requires w.logic.SendDispose?
    ensures NotSent(w, Apply(w, LookSend))
  {
    hide TxOk, RxOk, WindowsWorld.PostSend;
    PostSendFields(w);
  }

  lemma AddsLookSend(w: World)
    requires Inv(w) && FailedEmpty(w) && Enabled(w, LookSend)
    ensures Adds(w, LookSend, Apply(w, LookSend))
  {
    hide Inv, FailedEmpty, Got, Apply;
    LookSendFields(w);
    Untouched(w, Apply(w, LookSend));
    assert w.core.hist.accepted + [] == w.core.hist.accepted;
  }

  lemma AddsClearRecv(w: World)
    requires Inv(w) && FailedEmpty(w) && Enabled(w, ClearRecv)
    ensures Adds(w, ClearRecv, Apply(w, ClearRecv))
  {
    hide Inv, CoreOk, TxOk, RxOk, OnWire, Given, NoneOver, WireOk, CloseOk;
    InvParts(w);
  }

  lemma AddsIssueRecv(w: World, ok: bool)
    requires Inv(w) && FailedEmpty(w) && Enabled(w, IssueRecv(ok))
    ensures Adds(w, IssueRecv(ok), Apply(w, IssueRecv(ok)))
  {
    hide Inv, CoreOk, TxOk, RxOk, OnWire, Given, NoneOver, WireOk, CloseOk;
    InvParts(w);
  }

  lemma AddsRecvDone(w: World, succ: bool, data: seq<byte>)
    requires Inv(w) && FailedEmpty(w) && Enabled(w, RecvDone(succ, data))
    ensures Adds(w, RecvDone(succ, data), Apply(w, RecvDone(succ, data)))
  {
    hide Inv, CoreOk, TxOk, RxOk, OnWire, Given, NoneOver, WireOk, CloseOk;
    InvParts(w);
  }

  /** What reading the answer of a receive comes to. */
  lemma ReadRecvFields(w: World)
    requires RxOk(w.core.rx) && w.recv.status.IoIdle?
    ensures var w', a := DisposeRecv(w), w.recv.answer;
            && w'.core.hist.received
                 == w.core.hist.received + (if a.succ && a.bytes > 0 then w.buffer[..Min(a.bytes, |w.buffer|)] else [])
            && w'.core.hist.accepted == w.core.hist.accepted && w'.send == w.send && w'.buffer == w.buffer
            && w'.core.status == (if a.succ then w.core.status else Error)
            && w'.core.sendOver == w.core.sendOver && w'.core.recvOver == (w.core.recvOver || (a.succ && a.bytes == 0))
            && w'.recv.busy == w.recv.busy && !w'.recv.status.IoCompleted? && !w'.logic.RecvCleared? && !w'.logic.SendCleared?
  {
    hide RxOk, OnRecv;
    OnRecvFields(w.core, w.buffer[..Min(w.recv.answer.bytes, |w.buffer|)]);
    assert w.core.hist.received + [] == w.core.hist.received;
  }

  lemma OnRecvFields(c: Core, data: seq<byte>)
    requires RxOk(c.rx)
    ensures var c' := OnRecv(c, data);
            && c'.hist.received == c.hist.received + data && c'.hist.accepted == c.hist.accepted
            && c'.status == c.status && c'.recvOver == c.recvOver && c'.sendOver == c.sendOver
  {
    hide RxOk, RxAll, Dead;
  }

  lemma AddsReadRecv(w: World)
    requires Inv(w) && FailedEmpty(w) && Enabled(w, ReadRecv)
    ensures Adds(w, ReadRecv, Apply(w, ReadRecv))
  {
    hide Inv, CoreOk, TxOk, RxOk, OnWire, Given, NoneOver, WireOk, CloseOk, DisposeRecv;
    InvParts(w);
    ReadRecvFields(w);
    assert w.buffer[..|w.buffer|] == w.buffer;
  }

  lemma AddsPollerWrites(w: World, dir: Direction, i: nat)
    requires Inv(w) && FailedEmpty(w) && Enabled(w, PollerWrites(dir, i))
    ensures Adds(w, PollerWrites(dir, i), Apply(w, PollerWrites(dir, i)))
  {
    hide Inv, CoreOk, TxOk, RxOk, OnWire, Given, NoneOver, WireOk, CloseOk;
    InvParts(w);
  }

  lemma AddsPollerCompletes(w: World, dir: Direction, i: nat)
    requires Inv(w) && FailedEmpty(w) && Enabled(w, PollerCompletes(dir, i))
    ensures Adds(w, PollerCompletes(dir, i), Apply(w, PollerCompletes(dir, i)))
  {
    hide Inv, CoreOk, TxOk, RxOk, OnWire, Given, NoneOver, WireOk, CloseOk;
    InvParts(w);
  }

  lemma AddsStep(w: World, s: Step)
    requires Inv(w) && FailedEmpty(w) && Enabled(w, s)
    ensures Adds(w, s, Apply(w, s))
  {
    hide Inv, FailedEmpty, Adds, Enabled, Apply;
    match s
    case BeginUpdate => AddsBeginUpdate(w);
    case LookRecv => AddsLookRecv(w);
    case ClearRecv => AddsClearRecv(w);
    case ReadRecv => AddsReadRecv(w);
    case IssueRecv(ok) => AddsIssueRecv(w, ok);
    case LookSend => AddsLookSend(w);
    case ClearSend => AddsClearSend(w);
    case ReadSend => AddsReadSend(w);
    case IssueSend(ok) => AddsIssueSend(w, ok);
    case LookStatus => AddsLookStatus(w);
    case LookSendStatus => AddsLookSendStatus(w);
    case Reap => AddsReap(w);
    case AppSend(p, how) => AddsAppSend(w, p, how);
    case AppDisconnect => AddsAppDisconnect(w);
    case SendDone(a) => AddsSendDone(w, a);
    case RecvDone(succ, data) => AddsRecvDone(w, succ, data);
    case PollerWrites(dir, i) => AddsPollerWrites(w, dir, i);
    case PollerCompletes(dir, i) => AddsPollerCompletes(w, dir, i);
  }

  // ---------- whole runs ----------

  /** The payloads accepted in a run. */
  function Accepting(w: World, steps: seq<Step>): seq<seq<byte>>
    decreases |steps|
  {
    if steps == [] then [] else Accepted(w, steps[0]) + Accepting(Try(w, steps[0]), steps[1..])
  }

  /** The bytes delivered in a run. */
  function Delivered(w: World, steps: seq<Step>): seq<byte>
    decreases |steps|
  {
    if steps == [] then [] else Arriving(w, steps[0]) + Delivered(Try(w, steps[0]), steps[1..])
  }

  lemma AddsTry(w: World, s: Step)
    requires Inv(w) && FailedEmpty(w)
    ensures Inv(Try(w, s)) && Adds(w, s, Try(w, s))
  {
    hide Inv, FailedEmpty, OpOk;
    if Enabled(w, s) {
      AddsStep(w, s);
      InvStep(w, s);
    } else {
      assert TxOk(w.core.tx) by { InvParts(w); }
      assert w.core.hist.accepted + [] == w.core.hist.accepted && Got(w) + [] == Got(w);
    }
  }

  lemma {:induction false} AddsFrom(w: World, steps: seq<Step>)
    requires Inv(w) && FailedEmpty(w)
    ensures var w' := Exec(w, steps);
            && w'.core.hist.accepted == w.core.hist.accepted + Accepting(w, steps)
            && Got(w') == Got(w) + Delivered(w, steps)
            && (Whole(w) && (forall s | s in steps :: Unhurt(s)) ==> Whole(w'))
    decreases |steps|
  {
    hide Inv, FailedEmpty, Whole, Unhurt, Got, Accepted, Arriving, Try;
    if steps == [] {
      assert w.core.hist.accepted + [] == w.core.hist.accepted && Got(w) + [] == Got(w);
    } else {
      var s, w1, rest := steps[0], Try(w, steps[0]), steps[1..];
      assert s in steps && forall t | t in rest :: t in steps;
      AddsTry(w, s);
      AddsFrom(w1, rest);
      Assoc(w.core.hist.accepted, Accepted(w, s), Accepting(w1, rest));
      Assoc(Got(w), Arriving(w, s), Delivered(w1, rest));
    }
  }

  lemma StartFacts()
    ensures Inv(WORLD_START) && FailedEmpty(WORLD_START) && Whole(WORLD_START) && Got(WORLD_START) == []
  {
    StartInv();
  }

  /** What was accepted is what `Send` was given whenever the session was running, in order. */
  lemma AcceptedInOrder(steps: seq<Step>)
    ensures Exec(WORLD_START, steps).core.hist.accepted == Accepting(WORLD_START, steps)
  {
    hide Inv, FailedEmpty, Whole, Got, Accepting;
    StartFacts();
    AddsFrom(WORLD_START, steps);
    assert forall x: seq<seq<byte>> :: [] + x == x;
  }

  /** What was received, and the chunk that was delivered and not read yet, is what the kernel delivered, in
      order. */
  lemma ReceivedInOrder(steps: seq<Step>)
    ensures var w := Exec(WORLD_START, steps);
            w.core.hist.received + Unread(w) == Delivered(WORLD_START, steps)
  {
    hide Inv, FailedEmpty, Whole, Delivered, Unread;
    StartFacts();
    AddsFrom(WORLD_START, steps);
    assert forall x: seq<byte> :: [] + x == x;
  }

  /** A session that has left the running state though no call was refused and none failed has read the end of
      the stream, was shut down once, and had given back all that was stored by then. */
  lemma LeavesWhenDone(steps: seq<Step>)
    requires forall s | s in steps :: Unhurt(s)
    ensures var c := Exec(WORLD_START, steps).core;
            !c.status.Running? ==>
              && c.recvOver && c.sendOver && c.disconnect && c.hist.shutdowns == 1
              && c.hist.mark <= |c.hist.stored| && c.hist.taken == c.hist.stored[..c.hist.mark]
  {
    hide Exec, Unhurt, FailedEmpty, Whole, Got;
    StartFacts();
    AddsFrom(WORLD_START, steps);
    RunsKeepInv(WORLD_START, steps);
    WholeSays(Exec(WORLD_START, steps));
  }

  lemma WholeSays(w: World)
    requires Whole(w)
    ensures !w.core.status.Running? ==> w.core.recvOver && w.core.sendOver
  {
  }
}
