/** The Windows session among its threads: the logic thread that updates it, the kernel that performs its
    overlapped operations, the poller threads that write their outcome into the session, and the driver that
    deletes it. Every interleaving of the steps below is allowed. The fields of the logic thread are those
    of `Core`; of these Windows does not use `rdReady` and `wrReady`. */
module WindowsWorld {
  import opened Bytes
  import opened Framing
  import opened LinuxSession

  // ---------- one overlapped operation ----------

  datatype IoStatus = IoIdle | IoFailed | IoPending | IoCompleted

  /** What a completion says; `bytes` is 0 at the end of the stream. */
  datatype Answer = Answer(succ: bool, bytes: nat)

  /** A completion on its way through a poller thread, which writes the answer first and the status then. */
  datatype Delivery = Delivery(answer: Answer, wrote: bool)

  /** A `PerIoData` with the calls that use it: those the kernel works on and those a poller thread is
      delivering. `started`, `answered`, `consumed` and `clobbered` are history: calls issued, answers
      delivered, answers the session has read, and whether a completion ever found another status than
      pending. */
  datatype Op = Op(status: IoStatus, answer: Answer, issued: nat, busy: seq<Delivery>,
                   started: nat, answered: seq<Answer>, consumed: seq<Answer>, clobbered: bool)

  const OP_START := Op(IoIdle, Answer(false, 0), 0, [], 0, [], [], false)

  function Reset(o: Op): Op { o.(status := IoPending, answer := Answer(false, 0)) }

  function Issue(o: Op): Op { o.(issued := o.issued + 1, started := o.started + 1) }

  function Dequeue(o: Op, a: Answer): Op
    requires o.issued > 0
  {
    o.(issued := o.issued - 1, busy := o.busy + [Delivery(a, false)])
  }

  function WriteAnswer(o: Op, i: nat): Op
    requires i < |o.busy|
  {
    o.(answer := o.busy[i].answer, busy := o.busy[i := o.busy[i].(wrote := true)])
  }

  function WriteStatus(o: Op, i: nat): Op
    requires i < |o.busy|
  {
    o.(status := IoCompleted, busy := o.busy[..i] + o.busy[i + 1..], answered := o.answered + [o.busy[i].answer],
       clobbered := o.clobbered || !o.status.IoPending?)
  }

  /** Where the logic thread is with an operation: not at it, between `Reset` and the system call, between
      seeing it completed and setting it idle, or between that and reading the answer. */
  datatype Phase = Quiet | Starting | Seen | Cleared

  function Tokens(o: Op): nat { o.issued + |o.busy| }

  /** At most one call is outstanding, exactly while the status is pending (but for the moment between
      `Reset` and the call); each answer is delivered once and, in order and unchanged, read once or still
      there to be read. */
  predicate OpOk(o: Op, ph: Phase) {
    && Tokens(o) <= 1 && !o.clobbered
    && (o.status.IoPending? <==> Tokens(o) == 1 || ph.Starting?)
    && (ph.Starting? ==> Tokens(o) == 0)
    && (ph.Seen? ==> o.status.IoCompleted?) && (ph.Cleared? ==> o.status.IoIdle?)
    && (o.busy != [] && o.busy[0].wrote ==> o.answer == o.busy[0].answer)
    && o.started == |o.answered| + Tokens(o)
    && o.answered == o.consumed + (if o.status.IoCompleted? || ph.Cleared? then [o.answer] else [])
  }

  // ---------- the world ----------

  /** Where the logic thread is: outside `Update`, or between two of its steps. `RecvStarting` is also
      reached from `Attach`; `Check` is the driver looking whether the session is disposable. */
  datatype Logic =
    | Away | RecvDispose | RecvSeen | RecvCleared | RecvStarting(attaching: bool)
    | SendDispose | SendSeen | SendCleared | SendStarting | Switch | SwitchSend | Check

  /** `buffer` is the receive buffer. History: `wire`, the bytes the completions the session has read reported
      as sent; `blocks`, the block each of these completions was about; `fault`, whether the front of an
      empty queue or a block that is not there was ever used. */
  datatype World = World(core: Core, send: Op, recv: Op, buffer: seq<byte>, logic: Logic, deleted: bool,
                         wire: seq<byte>, blocks: seq<seq<byte>>, fault: bool)

  /** `Attach` has got as far as the first receive, whose `Reset` is done. */
  const WORLD_START :=
    World(CORE_START, OP_START, Reset(OP_START), [], RecvStarting(true), false, [], [], false)

  datatype Direction = Sending | Receiving

  datatype Step =
    // the logic thread
    | BeginUpdate | LookRecv | ClearRecv | ReadRecv | IssueRecv(ok: bool)
    | LookSend | ClearSend | ReadSend | IssueSend(ok: bool) | LookStatus | LookSendStatus | Reap
    | AppSend(p: seq<byte>, how: Sender) | AppDisconnect
    // the kernel and the poller threads
    | SendDone(answer: Answer) | RecvDone(succ: bool, data: seq<byte>)
    | PollerWrites(dir: Direction, i: nat) | PollerCompletes(dir: Direction, i: nat)

  function OpOf(w: World, dir: Direction): Op { if dir.Sending? then w.send else w.recv }

  predicate Enabled(w: World, s: Step) {
    match s
    case BeginUpdate => w.logic.Away? && !w.deleted
    case LookRecv => w.logic.RecvDispose?
    case ClearRecv => w.logic.RecvSeen?
    case ReadRecv => w.logic.RecvCleared? && RxOk(w.core.rx)
    case IssueRecv(_) => w.logic.RecvStarting?
    case LookSend => w.logic.SendDispose?
    case ClearSend => w.logic.SendSeen?
    case ReadSend => w.logic.SendCleared?
    case IssueSend(_) => w.logic.SendStarting?
    case LookStatus => w.logic.Switch?
    case LookSendStatus => w.logic.SwitchSend?
    case Reap => w.logic.Check?
    case AppSend(_, _) => w.logic.Away? && !w.deleted && TxOk(w.core.tx)
    case AppDisconnect => w.logic.Away? && !w.deleted
    case SendDone(a) => w.send.issued > 0 && (w.core.tx.cur.Some? ==> a.bytes <= |w.core.tx.cur.value|)
    case RecvDone(succ, data) => w.recv.issued > 0 && |data| <= BLOCK && (!succ ==> data == [])
    case PollerWrites(dir, i) => i < |OpOf(w, dir).busy|
    case PollerCompletes(dir, i) => i < |OpOf(w, dir).busy| && OpOf(w, dir).busy[i].wrote
  }

  /** `_on_recv` with a chunk. */
  function OnRecv(c: Core, data: seq<byte>): Core
    requires RxOk(c.rx)
  {
    var rx := RxAll(c.rx, data);
    c.(rx := rx, disconnect := c.disconnect || Dead(rx), hist := c.hist.(received := c.hist.received + data))
  }

  /** The end of `_dispose_recv`: the answer is read, and `_post_recv` called after a chunk. */
  function DisposeRecv(w: World): World
    requires RxOk(w.core.rx)
  {
    var read := w.(recv := w.recv.(consumed := w.recv.consumed + [w.recv.answer]), logic := SendDispose);
    if !w.recv.answer.succ then read.(core := w.core.(status := Error))
    else if w.recv.answer.bytes == 0 then read.(core := w.core.(recvOver := true, disconnect := true))
    else
      var got := read.(core := OnRecv(w.core, w.buffer[..Min(w.recv.answer.bytes, |w.buffer|)]));
      if w.recv.status.IoIdle? then got.(recv := Reset(got.recv), logic := RecvStarting(false)) else got
  }

  /** `_post_send` up to the system call. */
  function PostSend(w: World): World {
    var tx := w.core.tx;
    if tx.cur.None? && tx.queue == [] then
      if w.core.disconnect && !w.core.sendOver then
        var hist := w.core.hist.(shutdowns := w.core.hist.shutdowns + 1, mark := |w.core.hist.stored|);
        w.(core := w.core.(sendOver := true, hist := hist), logic := Switch)
      else w.(logic := Switch)
    else if tx.queue == [] then w.(fault := true, logic := Switch)
    else if tx.queue[0] == [] then w.(core := w.core.(tx := tx.(cur := None)), logic := Switch)
    else w.(core := w.core.(tx := Tx(tx.queue[1..], Some(tx.queue[0]), 0)), send := Reset(w.send), logic := SendStarting)
  }

  /** The end of `_dispose_send`: the answer is read and the block, if it was sent, given back; how much of
      it was sent is not looked at. */
  function DisposeSend(w: World): World {
    var block := if w.core.tx.cur.Some? then w.core.tx.cur.value else [];
    var read := w.(send := w.send.(consumed := w.send.consumed + [w.send.answer]), blocks := w.blocks + [block], logic := Switch);
    if !w.send.answer.succ then read.(core := w.core.(status := Error))
    else if w.core.tx.cur.None? then read.(fault := true)
    else
      read.(core := w.core.(tx := Tx(w.core.tx.queue, None, 0), hist := w.core.hist.(taken := w.core.hist.taken + block)),
            wire := w.wire + block[..Min(w.send.answer.bytes, |block|)])
  }

  function Apply(w: World, s: Step): World
    requires Enabled(w, s)
  {
    match s
    case BeginUpdate => w.(logic := RecvDispose)
    case LookRecv =>
      if !w.core.status.Running? || w.core.recvOver || !w.recv.status.IoCompleted? then w.(logic := SendDispose)
      else w.(logic := RecvSeen)
    case ClearRecv => w.(recv := w.recv.(status := IoIdle), logic := RecvCleared)
    case ReadRecv => DisposeRecv(w)
    case IssueRecv(ok) =>
      var next := if w.logic.attaching then Away else SendDispose;
      if ok then w.(recv := Issue(w.recv), logic := next)
      else w.(recv := w.recv.(status := IoFailed), core := w.core.(status := Error), logic := next)
    case LookSend =>
      if !w.core.status.Running? || w.core.sendOver then w.(logic := Switch)
      else if w.send.status.IoIdle? then PostSend(w)
      else w.(logic := if w.send.status.IoCompleted? then SendSeen else Switch)
    case ClearSend => w.(send := w.send.(status := IoIdle), logic := SendCleared)
    case ReadSend => DisposeSend(w)
    case IssueSend(ok) =>
      if ok then w.(send := Issue(w.send), logic := Switch)
      else w.(send := w.send.(status := IoFailed), core := w.core.(status := Error), logic := Switch)
    case LookStatus => (
      match w.core.status
      case Running =>
        if w.core.recvOver && w.core.sendOver then w.(core := w.core.(status := PreClosed), logic := Check)
        else w.(logic := Check)
      case Error => w.(logic := if w.recv.status.IoPending? then Check else SwitchSend)
      case PreClosed => w.(core := w.core.(status := Closed, closings := w.core.closings + 1), logic := Check)
      case _ => w.(logic := Check))
    case LookSendStatus =>
      if w.send.status.IoPending? then w.(logic := Check)
      else w.(core := w.core.(status := PreClosed), logic := Check)
    case Reap => w.(deleted := w.core.status.Closed?, logic := Away)
    case AppSend(p, how) => w.(core := Send(w.core, p, how))
    case AppDisconnect => w.(core := Disconnect(w.core))
    case SendDone(a) => w.(send := Dequeue(w.send, a))
    case RecvDone(succ, data) => w.(recv := Dequeue(w.recv, Answer(succ, |data|)), buffer := data)
    case PollerWrites(dir, i) =>
      if dir.Sending? then w.(send := WriteAnswer(w.send, i)) else w.(recv := WriteAnswer(w.recv, i))
    case PollerCompletes(dir, i) =>
      if dir.Sending? then w.(send := WriteStatus(w.send, i)) else w.(recv := WriteStatus(w.recv, i))
  }

  /** A step, skipped where it is not possible. */
  function Try(w: World, s: Step): World { if Enabled(w, s) then Apply(w, s) else w }

  /** A run. */
  function Exec(w: World, steps: seq<Step>): World
    decreases |steps|
  {
    if steps == [] then w else Exec(Try(w, steps[0]), steps[1..])
  }

  lemma {:induction false} ExecAppend(w: World, a: seq<Step>, b: seq<Step>)
    ensures Exec(w, a + b) == Exec(Exec(w, a), b)
    decreases |a|
  {
    if a == [] {
      assert a + b == b;
    } else {
      assert (a + b)[1..] == a[1..] + b;
      ExecAppend(Try(w, a[0]), a[1..], b);
    }
  }

  lemma ExecOne(w: World, s: Step, rest: seq<Step>)
    ensures Exec(w, [s] + rest) == Exec(Try(w, s), rest)
  {
    assert ([s] + rest)[1..] == rest;
  }

  lemma ExecFour(w: World, a: Step, b: Step, c: Step, d: Step)
    ensures Exec(w, [a, b, c, d]) == Try(Try(Try(Try(w, a), b), c), d)
  {
    hide Enabled, Apply, Try;
    ExecOne(w, a, [b, c, d]);
    ExecOne(Try(w, a), b, [c, d]);
    ExecOne(Try(Try(w, a), b), c, [d]);
    ExecOne(Try(Try(Try(w, a), b), c), d, []);
    assert [a] + [b, c, d] == [a, b, c, d] && [b] + [c, d] == [b, c, d] && [c] + [d] == [c, d] && [d] + [] == [d];
  }

  // ---------- the invariant ----------

  function RecvPhase(l: Logic): Phase {
    match l case RecvStarting(_) => Starting case RecvSeen => Seen case RecvCleared => Cleared case _ => Quiet
  }

  function SendPhase(l: Logic): Phase {
    match l case SendStarting => Starting case SendSeen => Seen case SendCleared => Cleared case _ => Quiet
  }

  predicate OpsOk(w: World) {
    OpOk(w.send, SendPhase(w.logic)) && OpOk(w.recv, RecvPhase(w.logic))
  }

  /** Where the logic thread can be in which status. */
  predicate LogicOk(w: World) {
    && (RecvPhase(w.logic) != Quiet ==> w.core.status.Running? && !w.core.recvOver)
    && (SendPhase(w.logic) != Quiet ==> w.core.status.Running? && !w.core.sendOver)
    && (w.logic.SwitchSend? ==> w.core.status.Error? && !w.recv.status.IoPending?)
  }

  /** A session that closes or has closed has nothing outstanding. */
  predicate CloseOk(w: World) {
    && !w.core.status.Fresh?
    && (w.core.recvOver ==> w.recv.status.IoIdle?)
    && (w.core.sendOver ==> w.send.status.IoIdle? && w.core.tx.cur.None?)
    && (w.core.status.PreClosed? || w.core.status.Closed? ==> !w.send.status.IoPending? && !w.recv.status.IoPending?)
    && w.core.closings == (if w.core.status.Closed? then 1 else 0)
    && (w.core.status.Closed? ==> w.deleted || w.logic.Check?)
    && (w.deleted ==> w.core.status.Closed? && w.logic.Away?)
  }

  /** The block being sent is there exactly while it is needed. */
  predicate BlockOk(w: World) {
    && !w.fault && w.core.tx.sent == 0
    && (w.core.status.Running? && w.send.status.IoIdle? && !w.logic.SendCleared? ==> w.core.tx.cur.None?)
    && (w.send.status.IoPending? || w.send.status.IoCompleted? || w.logic.SendCleared? ==> w.core.tx.cur.Some?)
    && (w.core.tx.cur.Some? ==>
          && (w.send.busy != [] ==> w.send.busy[0].answer.bytes <= |w.core.tx.cur.value|)
          && w.send.answer.bytes <= |w.core.tx.cur.value|)
  }

  /** The bytes that completions report of their blocks. */
  function OnWire(answers: seq<Answer>, blocks: seq<seq<byte>>): seq<byte>
    requires |answers| == |blocks|
  {
    if answers == [] then []
    else
      var n := |answers| - 1;
      OnWire(answers[..n], blocks[..n])
      + (if answers[n].succ then blocks[n][..Min(answers[n].bytes, |blocks[n]|)] else [])
  }

  /** The blocks given back after them, in full. */
  function Given(answers: seq<Answer>, blocks: seq<seq<byte>>): seq<byte>
    requires |answers| == |blocks|
  {
    if answers == [] then []
    else
      var n := |answers| - 1;
      Given(answers[..n], blocks[..n]) + (if answers[n].succ then blocks[n] else [])
  }

  /** Every successful completion reports the full length of its block. */
  predicate AllFull(answers: seq<Answer>, blocks: seq<seq<byte>>)
    requires |answers| == |blocks|
  {
    forall k | 0 <= k < |answers| :: answers[k].succ ==> answers[k].bytes == |blocks[k]|
  }

  /** ... so far. */
  predicate AllFullSo(w: World) { |w.send.consumed| == |w.blocks| && AllFull(w.send.consumed, w.blocks) }

  /** No completion reports more than its block has. */
  predicate NoneOver(answers: seq<Answer>, blocks: seq<seq<byte>>)
    requires |answers| == |blocks|
  {
    forall k | 0 <= k < |answers| :: answers[k].succ ==> answers[k].bytes <= |blocks[k]|
  }

  /** The bytes reported are the bytes given exactly when every completion was full. */
  lemma {:induction false} FullOnWire(answers: seq<Answer>, blocks: seq<seq<byte>>)
    requires |answers| == |blocks| && NoneOver(answers, blocks)
    ensures |OnWire(answers, blocks)| <= |Given(answers, blocks)|
    ensures |OnWire(answers, blocks)| == |Given(answers, blocks)| <==> AllFull(answers, blocks)
    ensures AllFull(answers, blocks) ==> OnWire(answers, blocks) == Given(answers, blocks)
    decreases |answers|
  {
    if answers != [] {
      var n := |answers| - 1;
      FullOnWire(answers[..n], blocks[..n]);
      FullLast(answers, blocks);
    }
  }

  lemma FullLast(answers: seq<Answer>, blocks: seq<seq<byte>>)
    requires |answers| == |blocks| > 0
    ensures var n := |answers| - 1;
            AllFull(answers, blocks) <==> AllFull(answers[..n], blocks[..n]) && (answers[n].succ ==> answers[n].bytes == |blocks[n]|)
  {
    var n := |answers| - 1;
    assert forall k | 0 <= k < n :: answers[..n][k] == answers[k] && blocks[..n][k] == blocks[k];
    if AllFull(answers[..n], blocks[..n]) && (answers[n].succ ==> answers[n].bytes == |blocks[n]|) {
      forall k | 0 <= k < |answers|
        ensures answers[k].succ ==> answers[k].bytes == |blocks[k]|
      {
        if k < n {
          assert answers[..n][k] == answers[k];
        }
      }
    }
  }

  /** What is on the wire and what was given back, told by the kernel's answers. */
  predicate WireOk(w: World) {
    && |w.send.consumed| == |w.blocks|
    && w.wire == OnWire(w.send.consumed, w.blocks) && w.core.hist.taken == Given(w.send.consumed, w.blocks)
    && NoneOver(w.send.consumed, w.blocks)
  }

  /** The receive buffer holds what the completion under way speaks of. */
  predicate BufferOk(w: World) {
    && (w.recv.busy != [] ==> w.recv.busy[0].answer.bytes == |w.buffer|)
    && (w.recv.status.IoCompleted? || w.logic.RecvCleared? ==> w.recv.answer.bytes == |w.buffer|)
  }

  predicate Inv(w: World) {
    CoreOk(w.core) && OpsOk(w) && LogicOk(w) && CloseOk(w) && BlockOk(w) && BufferOk(w) && WireOk(w)
  }

  /** Steps of the kernel and the poller threads. */
  predicate Outside(s: Step) { s.SendDone? || s.RecvDone? || s.PollerWrites? || s.PollerCompletes? }

  lemma DequeueKeeps(o: Op, ph: Phase, a: Answer)
    requires OpOk(o, ph) && o.issued > 0
    ensures OpOk(Dequeue(o, a), ph) && Dequeue(o, a).busy == [Delivery(a, false)] && o.status.IoPending? && !ph.Seen? && !ph.Cleared?
    ensures Dequeue(o, a) == o.(issued := 0, busy := [Delivery(a, false)])
  {
  }

  lemma WriteAnswerKeeps(o: Op, ph: Phase, i: nat)
    requires OpOk(o, ph) && i < |o.busy|
    ensures OpOk(WriteAnswer(o, i), ph) && i == 0
    ensures WriteAnswer(o, i).busy == [Delivery(o.busy[0].answer, true)]
    ensures WriteAnswer(o, i) == o.(answer := o.busy[0].answer, busy := WriteAnswer(o, i).busy)
    ensures o.status.IoPending? && !ph.Seen? && !ph.Cleared?
  {
  }

  lemma WriteStatusKeeps(o: Op, ph: Phase, i: nat)
    requires OpOk(o, ph) && i < |o.busy| && o.busy[i].wrote
    ensures OpOk(WriteStatus(o, i), ph) && WriteStatus(o, i).busy == [] && o.answer == o.busy[0].answer
    ensures WriteStatus(o, i).status.IoCompleted? && WriteStatus(o, i).answer == o.answer
    ensures WriteStatus(o, i).consumed == o.consumed
    ensures o.status.IoPending? && !ph.Seen? && !ph.Cleared?
  {
  }

  lemma OutsideFacts(w: World, s: Step)
    requires OpsOk(w) && Enabled(w, s) && Outside(s)
    ensures var w' := Apply(w, s);
            && w' == w.(send := w'.send, recv := w'.recv, buffer := w'.buffer)
            && (w'.send.status == w.send.status || (w.send.status.IoPending? && w'.send.status.IoCompleted?))
            && (w'.recv.status == w.recv.status || (w.recv.status.IoPending? && w'.recv.status.IoCompleted?))
            && (s.RecvDone? ==> w.recv.status.IoPending? && !w.logic.RecvCleared? && w'.recv.status.IoPending?)
            && (s.PollerWrites? ==> OpOf(w', s.dir).answer == OpOf(w, s.dir).busy[s.i].answer)
            && (!s.PollerWrites? ==> w'.send.answer == w.send.answer && w'.recv.answer == w.recv.answer)
  {
  }

  /** Everything but what is said of the core alone. */
  predicate ShellOk(w: World) { OpsOk(w) && LogicOk(w) && CloseOk(w) && BlockOk(w) && BufferOk(w) }

  /** What every step keeps, and that the status only moves forward. */
  predicate Good(w: World, w': World) {
    CoreOk(w'.core) && ShellOk(w') && WireOk(w') && Stage(w.core.status) <= Stage(w'.core.status)
  }

  /** The status is no part of what is said of the core. */
  lemma CoreStatus(c: Core, status: Status, closings: nat)
    requires CoreOk(c)
    ensures CoreOk(c.(status := status, closings := closings))
  {
    hide QueueOk, RxAll, Flat, Frames;
  }

  /** `Send` leaves alone what the operations are about. */
  lemma AppKeeps(c: Core, p: seq<byte>, how: Sender)
    requires TxOk(c.tx)
    ensures var c' := Send(c, p, how);
            && c'.status == c.status && c'.sendOver == c.sendOver && c'.recvOver == c.recvOver && c'.closings == c.closings
            && c'.tx.cur == c.tx.cur && c'.tx.sent == c.tx.sent && c'.hist.taken == c.hist.taken
  {
    hide SendFrame, Stored, Faithful, TxOk;
  }

  // ---------- one step at a time ----------

  lemma InvParts(w: World)
    requires Inv(w)
    ensures ShellOk(w) && WireOk(w) && CoreOk(w.core) && TxOk(w.core.tx) && RxOk(w.core.rx)
  {
    hide OpsOk, LogicOk, CloseOk, BlockOk, BufferOk, WireOk, TxOk, Conserved, GracefulShutdown;
  }

  /** The system call after `Reset`, made or refused. */
  lemma IssueKeeps(o: Op)
    requires OpOk(o, Starting)
    ensures OpOk(Issue(o), Quiet) && Issue(o).busy == o.busy && Issue(o) == o.(issued := 1, started := Issue(o).started)
    ensures OpOk(o.(status := IoFailed), Quiet) && o.status.IoPending?
  {
  }

  lemma BeginUpdateKeeps(w: World)
    requires Inv(w) && Enabled(w, BeginUpdate)
    ensures Good(w, Apply(w, BeginUpdate))
  {
    hide Inv, CoreOk, TxOk, RxOk, OnWire, Given, NoneOver, OpOk;
    InvParts(w);
  }

  lemma LookRecvKeeps(w: World)
    requires Inv(w) && Enabled(w, LookRecv)
    ensures Good(w, Apply(w, LookRecv))
  {
    hide Inv, CoreOk, TxOk, RxOk, OnWire, Given, NoneOver;
    InvParts(w);
  }

  lemma ClearRecvKeeps(w: World)
    requires Inv(w) && Enabled(w, ClearRecv)
    ensures Good(w, Apply(w, ClearRecv))
  {
    hide Inv, CoreOk, TxOk, RxOk, OnWire, Given, NoneOver;
    InvParts(w);
  }

  lemma IssueRecvKeeps(w: World, ok: bool)
    requires Inv(w) && Enabled(w, IssueRecv(ok))
    ensures Good(w, Apply(w, IssueRecv(ok)))
  {
    hide Inv, CoreOk, TxOk, RxOk, OnWire, Given, NoneOver, OpOk, Issue;
    InvParts(w);
    IssueKeeps(w.recv);
    CoreStatus(w.core, Error, w.core.closings);
  }

  lemma ClearSendKeeps(w: World)
    requires Inv(w) && Enabled(w, ClearSend)
    ensures Good(w, Apply(w, ClearSend))
  {
    hide Inv, CoreOk, TxOk, RxOk, OnWire, Given, NoneOver;
    InvParts(w);
  }

  lemma IssueSendKeeps(w: World, ok: bool)
    requires Inv(w) && Enabled(w, IssueSend(ok))
    ensures Good(w, Apply(w, IssueSend(ok)))
  {
    hide Inv, CoreOk, TxOk, RxOk, OnWire, Given, NoneOver, OpOk, Issue;
    InvParts(w);
    IssueKeeps(w.send);
    CoreStatus(w.core, Error, w.core.closings);
  }

  lemma LookStatusKeeps(w: World)
    requires Inv(w) && Enabled(w, LookStatus)
    ensures Good(w, Apply(w, LookStatus))
  {
    hide Inv, CoreOk, TxOk, RxOk, OnWire, Given, NoneOver, OpOk;
    InvParts(w);
    if w.core.status.Running? {
      CoreStatus(w.core, PreClosed, w.core.closings);
    } else if w.core.status.PreClosed? {
      CoreStatus(w.core, Closed, w.core.closings + 1);
    }
  }

  lemma LookSendStatusKeeps(w: World)
    requires Inv(w) && Enabled(w, LookSendStatus)
    ensures Good(w, Apply(w, LookSendStatus))
  {
    hide Inv, CoreOk, TxOk, RxOk, OnWire, Given, NoneOver, OpOk;
    InvParts(w);
    CoreStatus(w.core, PreClosed, w.core.closings);
  }

  lemma ReapKeeps(w: World)
    requires Inv(w) && Enabled(w, Reap)
    ensures Good(w, Apply(w, Reap))
  {
    hide Inv, CoreOk, TxOk, RxOk, OnWire, Given, NoneOver, OpOk;
    InvParts(w);
  }

  lemma AppSendKeeps(w: World, p: seq<byte>, how: Sender)
    requires Inv(w) && Enabled(w, AppSend(p, how))
    ensures Good(w, Apply(w, AppSend(p, how)))
  {
    hide Inv, CoreOk, TxOk, RxOk, OnWire, Given, NoneOver, OpOk, Send;
    InvParts(w);
    SendKeeps(w.core, p, how);
    AppKeeps(w.core, p, how);
  }

  lemma DisconnectOk(c: Core)
    requires CoreOk(c)
    ensures CoreOk(Disconnect(c))
  {
    hide QueueOk, RxAll, Flat, Frames;
  }

  lemma AppDisconnectKeeps(w: World)
    requires Inv(w) && Enabled(w, AppDisconnect)
    ensures Good(w, Apply(w, AppDisconnect))
  {
    hide Inv, CoreOk, TxOk, RxOk, OnWire, Given, NoneOver, OpOk;
    InvParts(w);
    DisconnectOk(w.core);
  }

  lemma SendDoneKeeps(w: World, a: Answer)
    requires Inv(w) && Enabled(w, SendDone(a))
    ensures Good(w, Apply(w, SendDone(a)))
  {
    hide Inv, CoreOk, TxOk, RxOk, OnWire, Given, NoneOver, OpOk, Dequeue, WriteAnswer, WriteStatus;
    InvParts(w);
    DequeueKeeps(w.send, SendPhase(w.logic), a);
  }

  lemma RecvDoneKeeps(w: World, succ: bool, data: seq<byte>)
    requires Inv(w) && Enabled(w, RecvDone(succ, data))
    ensures Good(w, Apply(w, RecvDone(succ, data)))
  {
    hide Inv, CoreOk, TxOk, RxOk, OnWire, Given, NoneOver, OpOk, Dequeue, WriteAnswer, WriteStatus;
    InvParts(w);
    DequeueKeeps(w.recv, RecvPhase(w.logic), Answer(succ, |data|));
  }

  lemma PollerWritesKeeps(w: World, dir: Direction, i: nat)
    requires Inv(w) && Enabled(w, PollerWrites(dir, i))
    ensures Good(w, Apply(w, PollerWrites(dir, i)))
  {
    hide Inv, CoreOk, TxOk, RxOk, OnWire, Given, NoneOver, OpOk, Dequeue, WriteAnswer, WriteStatus;
    InvParts(w);
    WriteAnswerKeeps(OpOf(w, dir), if dir.Sending? then SendPhase(w.logic) else RecvPhase(w.logic), i);
  }

  lemma PollerCompletesKeeps(w: World, dir: Direction, i: nat)
    requires Inv(w) && Enabled(w, PollerCompletes(dir, i))
    ensures Good(w, Apply(w, PollerCompletes(dir, i)))
  {
    hide Inv, CoreOk, TxOk, RxOk, OnWire, Given, NoneOver, OpOk, Dequeue, WriteAnswer, WriteStatus;
    InvParts(w);
    WriteStatusKeeps(OpOf(w, dir), if dir.Sending? then SendPhase(w.logic) else RecvPhase(w.logic), i);
  }

  lemma OnRecvKeeps(c: Core, data: seq<byte>)
    requires CoreOk(c)
    ensures CoreOk(OnRecv(c, data))
  {
    ChunkIndependence(RX_START, c.hist.received, data);
  }

  lemma ReadRecvCore(w: World)
    requires CoreOk(w.core)
    ensures CoreOk(DisposeRecv(w).core)
  {
    hide OnRecv, TxOk, Unsent, RxAll, Dead;
    if w.recv.answer.succ && w.recv.answer.bytes != 0 {
      OnRecvKeeps(w.core, w.buffer[..Min(w.recv.answer.bytes, |w.buffer|)]);
    }
  }

  lemma LookSendCore(w: World)
    requires Inv(w) && w.logic.SendDispose?
    ensures CoreOk(Apply(w, LookSend).core)
  {
    var tx := w.core.tx;
    if tx.cur.None? && tx.queue == [] {
      assert Unsent(tx) == [];
      assert w.core.hist.taken == w.core.hist.stored == w.core.hist.stored[..|w.core.hist.stored|];
    } else if w.core.status.Running? && !w.core.sendOver && w.send.status.IoIdle? {
      assert tx.cur.None? && tx.queue != [];
      assert PickBlock(tx) == Tx(tx.queue[1..], Some(tx.queue[0]), 0);
    }
  }

  lemma ReadSendCore(w: World)
    requires Inv(w) && w.logic.SendCleared?
    ensures CoreOk(DisposeSend(w).core)
  {
    var tx := w.core.tx;
    var block := tx.cur.value;
    assert tx.cur.value[tx.sent..][..|block|] == block;
    assert Unsent(tx) == block + Unsent(Take(tx, |block|));
    Assoc(w.core.hist.taken, block, Unsent(Take(tx, |block|)));
  }

  lemma ReadRecvShell(w: World)
    requires Inv(w) && w.logic.RecvCleared?
    ensures ShellOk(DisposeRecv(w))
  {
    hide Inv, CoreOk, TxOk, RxOk, RxAll, Dead, OnWire, Given, NoneOver;
    InvParts(w);
  }

  lemma PostSendShell(w: World)
    requires Inv(w) && w.logic.SendDispose? && w.core.status.Running? && !w.core.sendOver && w.send.status.IoIdle?
    ensures ShellOk(PostSend(w))
  {
    hide Inv, CoreOk, TxOk, RxOk, WireOk;
    InvParts(w);
  }

  lemma LookSendShell(w: World)
    requires Inv(w) && w.logic.SendDispose?
    ensures ShellOk(Apply(w, LookSend))
  {
    hide CoreOk, TxOk, RxOk, PostSend;
    if w.core.status.Running? && !w.core.sendOver && w.send.status.IoIdle? {
      hide ShellOk;
      PostSendShell(w);
    }
  }

  lemma ReadSendShell(w: World)
    requires Inv(w) && w.logic.SendCleared?
    ensures ShellOk(DisposeSend(w))
  {
    hide Inv, CoreOk, TxOk, RxOk, WireOk;
    InvParts(w);
  }

  lemma ReadSendWire(w: World)
    requires Inv(w) && w.logic.SendCleared?
    ensures WireOk(DisposeSend(w))
  {
    hide Inv, TxOk, RxOk, OpOk, CloseOk;
    InvParts(w);
    var w' := DisposeSend(w);
    var n := |w.blocks|;
    assert w'.send.consumed[..n] == w.send.consumed && w'.blocks[..n] == w.blocks;
    assert w'.send.consumed[n] == w.send.answer && w'.blocks[n] == w.core.tx.cur.value;
  }

  lemma RunningThen(w: World)
    requires Inv(w)
    ensures RecvPhase(w.logic) != Quiet || SendPhase(w.logic) != Quiet ==> w.core.status.Running?
  {
    hide OpsOk, CoreOk, CloseOk, BlockOk, BufferOk, WireOk;
  }

  lemma OnRecvFrame(c: Core, data: seq<byte>)
    requires RxOk(c.rx)
    ensures OnRecv(c, data).hist.taken == c.hist.taken && OnRecv(c, data).status == c.status
  {
    hide RxOk, RxAll, Dead;
  }

  /** What reading the answer of a receive is not about. */
  lemma ReadRecvFrame(w: World)
    requires RxOk(w.core.rx)
    ensures var w' := DisposeRecv(w);
            && w'.send == w.send && w'.blocks == w.blocks && w'.wire == w.wire
            && w'.core.hist.taken == w.core.hist.taken
            && (w'.core.status == w.core.status || w'.core.status.Error?)
  {
    hide RxOk, OnRecv;
    OnRecvFrame(w.core, w.buffer[..Min(w.recv.answer.bytes, |w.buffer|)]);
  }

  lemma ReadRecvKeeps(w: World)
    requires Inv(w) && Enabled(w, ReadRecv)
    ensures Good(w, Apply(w, ReadRecv))
  {
    hide Inv, CoreOk, ShellOk, RxOk, TxOk, OnWire, Given, NoneOver, DisposeRecv;
    InvParts(w);
    ReadRecvShell(w);
    ReadRecvCore(w);
    ReadRecvFrame(w);
    RunningThen(w);
  }

  lemma ResetFrame(o: Op)
    ensures Reset(o).consumed == o.consumed
  {
  }

  /** Neither is `_post_send` about what was sent before. */
  lemma PostSendFrame(w: World)
    ensures var w' := PostSend(w);
            && w'.send.consumed == w.send.consumed && w'.blocks == w.blocks && w'.wire == w.wire
            && w'.core.hist.taken == w.core.hist.taken && w'.core.status == w.core.status
  {
    hide Reset;
    ResetFrame(w.send);
  }

  lemma LookSendKeeps(w: World)
    requires Inv(w) && Enabled(w, LookSend)
    ensures Good(w, Apply(w, LookSend))
  {
    hide Inv, CoreOk, ShellOk, RxOk, TxOk, OnWire, Given, NoneOver, PostSend;
    LookSendShell(w);
    LookSendCore(w);
    PostSendFrame(w);
    InvParts(w);
  }

  lemma ReadSendKeeps(w: World)
    requires Inv(w) && Enabled(w, ReadSend)
    ensures Good(w, Apply(w, ReadSend))
  {
    hide Inv, CoreOk, ShellOk, WireOk, RxOk, TxOk;
    ReadSendShell(w);
    ReadSendCore(w);
    ReadSendWire(w);
    RunningThen(w);
  }

  lemma GoodStep(w: World, s: Step)
    requires Inv(w) && Enabled(w, s)
    ensures Good(w, Apply(w, s))
  {
    hide Inv, Good, Enabled, Apply;
    match s
    case BeginUpdate => BeginUpdateKeeps(w);
    case LookRecv => LookRecvKeeps(w);
    case ClearRecv => ClearRecvKeeps(w);
    case ReadRecv => ReadRecvKeeps(w);
    case IssueRecv(ok) => IssueRecvKeeps(w, ok);
    case LookSend => LookSendKeeps(w);
    case ClearSend => ClearSendKeeps(w);
    case ReadSend => ReadSendKeeps(w);
    case IssueSend(ok) => IssueSendKeeps(w, ok);
    case LookStatus => LookStatusKeeps(w);
    case LookSendStatus => LookSendStatusKeeps(w);
    case Reap => ReapKeeps(w);
    case AppSend(p, how) => AppSendKeeps(w, p, how);
    case AppDisconnect => AppDisconnectKeeps(w);
    case SendDone(a) => SendDoneKeeps(w, a);
    case RecvDone(succ, data) => RecvDoneKeeps(w, succ, data);
    case PollerWrites(dir, i) => PollerWritesKeeps(w, dir, i);
    case PollerCompletes(dir, i) => PollerCompletesKeeps(w, dir, i);
  }

  lemma InvStep(w: World, s: Step)
    requires Inv(w) && Enabled(w, s)
    ensures Inv(Apply(w, s))
  {
    hide CoreOk, OpsOk, LogicOk, CloseOk, BlockOk, BufferOk, WireOk, Enabled, Apply;
    GoodStep(w, s);
  }

  /** Every run keeps the invariant. */
  lemma {:induction false} RunsKeepInv(w: World, steps: seq<Step>)
    requires Inv(w)
    ensures Inv(Exec(w, steps))
    decreases |steps|
  {
    if steps != [] {
      if Enabled(w, steps[0]) {
        InvStep(w, steps[0]);
        RunsKeepInv(Apply(w, steps[0]), steps[1..]);
      } else {
        RunsKeepInv(w, steps[1..]);
      }
    }
  }

  lemma StartInv()
    ensures Inv(WORLD_START)
  {
    assert Unsent(CORE_START.tx) == [];
  }

  // ---------- what the invariant means ----------

  /** Ownership of the overlapped structures: in every reachable state at most one send and one receive are
      outstanding, each exactly while its status is pending or its call is just being made, and no completion
      is lost, duplicated, reordered or read before it is complete: the answers delivered are those read so
      far and the one still there. */
  lemma OverlappedOwnership(steps: seq<Step>, dir: Direction)
    ensures var w := Exec(WORLD_START, steps);
            var o, ph := OpOf(w, dir), if dir.Sending? then SendPhase(w.logic) else RecvPhase(w.logic);
            && Tokens(o) <= 1 && (o.status.IoPending? <==> Tokens(o) == 1 || ph.Starting?)
            && !o.clobbered && o.started == |o.answered| + Tokens(o)
            && o.answered == o.consumed + (if o.status.IoCompleted? || ph.Cleared? then [o.answer] else [])
  {
    StartInv();
    RunsKeepInv(WORLD_START, steps);
  }

  /** A session that is closing, closed or deleted has no operation outstanding, neither in the kernel nor in
      a poller thread; `on_closed` has run exactly once when it is closed and never before. */
  lemma ClosedIsQuiet(steps: seq<Step>)
    ensures var w := Exec(WORLD_START, steps);
            && (w.deleted ==> w.core.status.Closed?)
            && (w.core.status.PreClosed? || w.core.status.Closed? ==>
                  && Tokens(w.send) == 0 && Tokens(w.recv) == 0
                  && !w.send.status.IoPending? && !w.recv.status.IoPending?)
            && w.core.closings == (if w.core.status.Closed? then 1 else 0)
  {
    StartInv();
    RunsKeepInv(WORLD_START, steps);
  }

  /** The status only moves forward. */
  lemma {:induction false} StatusMovesForward(w: World, steps: seq<Step>)
    requires Inv(w)
    ensures Stage(w.core.status) <= Stage(Exec(w, steps).core.status)
    decreases |steps|
  {
    if steps != [] {
      if Enabled(w, steps[0]) {
        InvStep(w, steps[0]);
        GoodStep(w, steps[0]);
        StatusMovesForward(Apply(w, steps[0]), steps[1..]);
      } else {
        StatusMovesForward(w, steps[1..]);
      }
    }
  }

  /** The block being sent is there whenever it is used, and the front of the queue is only taken from a
      queue that has one. */
  lemma NoFault(steps: seq<Step>)
    ensures !Exec(WORLD_START, steps).fault
  {
    StartInv();
    RunsKeepInv(WORLD_START, steps);
  }

  /** Send conservation. Every block the session has given back, its current one and the queue are exactly the
      bytes stored. The bytes on the wire and the unsent ones are exactly the bytes stored if and only if every
      successful completion the session has read reported the full length of its block. */
  lemma SendConservation(steps: seq<Step>)
    ensures var w := Exec(WORLD_START, steps);
            && TxOk(w.core.tx) && w.core.hist.taken + Unsent(w.core.tx) == w.core.hist.stored
            && |w.send.consumed| == |w.blocks| && w.wire == OnWire(w.send.consumed, w.blocks)
            && (w.wire + Unsent(w.core.tx) == w.core.hist.stored <==> AllFull(w.send.consumed, w.blocks))
            && (w.core.hist.faithful ==> w.core.hist.stored == Frames(w.core.hist.accepted))
  {
    StartInv();
    RunsKeepInv(WORLD_START, steps);
    var w := Exec(WORLD_START, steps);
    FullOnWire(w.send.consumed, w.blocks);
    hide Exec, Inv, OnWire, Given, AllFull, Unsent;
    if w.wire + Unsent(w.core.tx) == w.core.hist.stored {
      assert |w.wire + Unsent(w.core.tx)| == |w.core.hist.taken + Unsent(w.core.tx)|;
    }
  }

  /** `shutdown` is called at most once, only after `Disconnect`, with every block stored by then given back;
      every byte stored by then was sent if and only if every successful completion was full. */
  lemma ShutdownIsGraceful(steps: seq<Step>)
    ensures var w := Exec(WORLD_START, steps);
            var c := w.core;
            && c.hist.shutdowns <= 1 && |w.send.consumed| == |w.blocks|
            && (c.hist.shutdowns == 1 ==>
                  && c.disconnect && c.hist.mark <= |c.hist.stored| && c.hist.taken == c.hist.stored[..c.hist.mark]
                  && (w.wire == c.hist.stored[..c.hist.mark] <==> AllFull(w.send.consumed, w.blocks)))
  {
    StartInv();
    RunsKeepInv(WORLD_START, steps);
    var w := Exec(WORLD_START, steps);
    FullOnWire(w.send.consumed, w.blocks);
  }

  /** End to end between two Windows sessions: as long as every completion was full, the receiver has pushed
      exactly the payloads that have arrived in full, in order and byte for byte. */
  lemma EndToEnd(sender: seq<Step>, receiver: seq<Step>)
    requires var s, r := Exec(WORLD_START, sender), Exec(WORLD_START, receiver).core.hist;
             && s.core.hist.faithful && (forall p | p in s.core.hist.accepted :: Sendable(p))
             && AllFullSo(s) && r.received <= s.wire
    ensures var s, r := Exec(WORLD_START, sender).core.hist, Exec(WORLD_START, receiver).core;
            && r.rx.pushed == s.accepted[..Arrived(s.accepted, |r.hist.received|)]
            && !Dead(r.rx)
  {
    StartInv();
    RunsKeepInv(WORLD_START, sender);
    RunsKeepInv(WORLD_START, receiver);
    FullOnWire(Exec(WORLD_START, sender).send.consumed, Exec(WORLD_START, sender).blocks);
    CoreEndToEnd(Exec(WORLD_START, sender).core, Exec(WORLD_START, receiver).core);
  }

  // ---------- a run that loses bytes ----------

  lemma ExecTwo(w: World, a: Step, b: Step)
    ensures Exec(w, [a, b]) == Try(Try(w, a), b)
  {
    hide Enabled, Apply, Try;
    ExecOne(w, a, [b]);
    ExecOne(Try(w, a), b, []);
    assert [a] + [b] == [a, b] && [b] + [] == [b];
  }

  const TO_SEND := [IssueRecv(true), AppSend([1, 2], Advancing)]
  const TO_POST := [BeginUpdate, LookRecv] + ([LookSend, IssueSend(true)] + [LookStatus, Reap])
  const TO_ANSWER := [SendDone(Answer(true, 1)), PollerWrites(Sending, 0)] + [PollerCompletes(Sending, 0), BeginUpdate]
  const TO_READ := [LookRecv, LookSend] + [ClearSend, ReadSend]

  /** A payload of two bytes is sent, and the completion reports one byte of the block. */
  const SHORT_RUN: seq<Step> := TO_SEND + (TO_POST + (TO_ANSWER + TO_READ))

  /** A running session between updates, with its receive outstanding. */
  predicate OneReceive(w: World) {
    && w.core.status.Running? && !w.core.sendOver && !w.core.recvOver && !w.deleted
    && w.recv.status.IoPending? && w.send.consumed == [] && w.blocks == []
  }

  /** ... and a block to send. */
  predicate ToSend(w: World, at: Logic) {
    && OneReceive(w) && w.logic == at && w.send.status.IoIdle? && w.send.issued == 0 && w.send.busy == []
    && w.core.tx.cur.None? && w.core.tx.queue != [] && |w.core.tx.queue[0]| > 1
  }

  predicate Posted(w: World, at: Logic) {
    && OneReceive(w) && w.logic == at && w.send.issued == 1 && w.send.busy == []
    && w.core.tx.cur.Some? && |w.core.tx.cur.value| > 1
  }

  predicate Answered(w: World) {
    && OneReceive(w) && w.logic.RecvDispose? && w.send.status.IoCompleted? && w.send.answer == Answer(true, 1)
    && w.core.tx.cur.Some? && |w.core.tx.cur.value| > 1
  }

  lemma FirstBlock(p: seq<byte>)
    requires |p| == 2
    ensures var q := SendFrame([], p, Advancing); q != [] && |q[0]| > 1
  {
    hide SendFrame;
    var q := SendFrame([], p, Advancing);
    SendAdvancing([], p);
    assert |Flat(q)| == 6;
    assert Flat(q) == q[0] + Flat(q[1..]);
    if |q| == 1 {
      assert Flat(q[1..]) == [];
    }
  }

  lemma SendState()
    ensures ToSend(Exec(WORLD_START, TO_SEND), Away)
  {
    hide SendFrame, Exec, Faithful, Stored;
    FirstBlock([1, 2]);
    ExecTwo(WORLD_START, IssueRecv(true), AppSend([1, 2], Advancing));
  }

  lemma LookedForSend(w: World)
    requires ToSend(w, Away)
    ensures ToSend(Try(Try(w, BeginUpdate), LookRecv), SendDispose)
  {
  }

  lemma SendIssued(w: World)
    requires ToSend(w, SendDispose)
    ensures Posted(Try(Try(w, LookSend), IssueSend(true)), Switch)
  {
  }

  lemma UpdateOver(w: World)
    requires Posted(w, Switch)
    ensures Posted(Try(Try(w, LookStatus), Reap), Away)
  {
  }

  lemma PostState(w: World)
    requires ToSend(w, Away)
    ensures Posted(Exec(w, TO_POST), Away)
  {
    hide Enabled, Apply, Try, ToSend, Posted;
    var w1 := Try(Try(w, BeginUpdate), LookRecv);
    var w2 := Try(Try(w1, LookSend), IssueSend(true));
    LookedForSend(w);
    SendIssued(w1);
    UpdateOver(w2);
    ExecTwo(w, BeginUpdate, LookRecv);
    ExecTwo(w1, LookSend, IssueSend(true));
    ExecTwo(w2, LookStatus, Reap);
    ExecAppend(w1, [LookSend, IssueSend(true)], [LookStatus, Reap]);
    ExecAppend(w, [BeginUpdate, LookRecv], [LookSend, IssueSend(true)] + [LookStatus, Reap]);
  }

  lemma AnswerState(w: World)
    requires Posted(w, Away)
    ensures Answered(Exec(w, TO_ANSWER))
  {
    var w1 := Try(Try(w, SendDone(Answer(true, 1))), PollerWrites(Sending, 0));
    var w2 := Try(Try(w1, PollerCompletes(Sending, 0)), BeginUpdate);
    assert Answered(w2);
    hide Enabled, Apply, Try, Answered;
    ExecTwo(w, SendDone(Answer(true, 1)), PollerWrites(Sending, 0));
    ExecTwo(w1, PollerCompletes(Sending, 0), BeginUpdate);
    ExecAppend(w, [SendDone(Answer(true, 1)), PollerWrites(Sending, 0)], [PollerCompletes(Sending, 0), BeginUpdate]);
  }

  lemma ReadState(w: World)
    requires Answered(w)
    ensures var w' := Exec(w, TO_READ);
            w'.send.consumed == [Answer(true, 1)] && |w'.blocks| == 1 && |w'.blocks[0]| > 1
  {
    var w1 := Try(Try(w, LookRecv), LookSend);
    var w2 := Try(Try(w1, ClearSend), ReadSend);
    assert w2.send.consumed == [Answer(true, 1)] && |w2.blocks| == 1 && |w2.blocks[0]| > 1;
    hide Enabled, Apply, Try;
    ExecTwo(w, LookRecv, LookSend);
    ExecTwo(w1, ClearSend, ReadSend);
    ExecAppend(w, [LookRecv, LookSend], [ClearSend, ReadSend]);
  }

  /** Bytes the application sent are neither on the wire nor unsent any more. */
  lemma ShortExample()
    ensures var w := Exec(WORLD_START, SHORT_RUN);
            TxOk(w.core.tx) && w.wire + Unsent(w.core.tx) != w.core.hist.stored
  {
    SendConservation(SHORT_RUN);
    hide Exec, ToSend, Posted, Answered, Unsent, OnWire;
    SendState();
    var w1 := Exec(WORLD_START, TO_SEND);
    PostState(w1);
    var w2 := Exec(w1, TO_POST);
    AnswerState(w2);
    var w3 := Exec(w2, TO_ANSWER);
    ReadState(w3);
    ExecAppend(w2, TO_ANSWER, TO_READ);
    ExecAppend(w1, TO_POST, TO_ANSWER + TO_READ);
    ExecAppend(WORLD_START, TO_SEND, TO_POST + (TO_ANSWER + TO_READ));
    var w := Exec(WORLD_START, SHORT_RUN);
    assert w.send.consumed[0].succ && w.send.consumed[0].bytes != |w.blocks[0]|;
  }
}
