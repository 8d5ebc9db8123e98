/** The logic thread's part of a Linux session: the fields only it touches, with a history of what crossed
    the socket, and what `Send`, `Disconnect` and the parts of an update do to them. */
module LinuxSession {
  import opened Bytes
  import opened Framing

  datatype Status = Fresh | Running | Error | PreClosed | Closed

  /** How far a session has come. */
  function Stage(s: Status): nat {
    match s case Fresh => 0 case Running => 1 case Error => 2 case PreClosed => 3 case Closed => 4
  }

  type Chunk = s: seq<byte> | 1 <= |s| <= BLOCK witness [0]

  /** Answers of the socket; a call that fails says why. */
  datatype SendAnswer = Took(n: nat) | SendBlocked | SendInterrupted | SendFailed
  datatype RecvAnswer = Data(bytes: Chunk) | RecvBlocked | RecvInterrupted | RecvFailed | EndOfStream

  /** The send side: queued blocks, the block being sent and how much of it is gone. */
  datatype Tx = Tx(queue: seq<seq<byte>>, cur: Option<seq<byte>>, sent: nat)

  predicate TxOk(tx: Tx) {
    && QueueOk(tx.queue)
    && (tx.cur.Some? ==> tx.sent < |tx.cur.value|)
    && (tx.cur.None? ==> tx.sent == 0)
  }

  function Unsent(tx: Tx): seq<byte>
    requires TxOk(tx)
  {
    (if tx.cur.Some? then tx.cur.value[tx.sent..] else []) + Flat(tx.queue)
  }

  /** What happened so far: payloads accepted and the bytes stored for them, whether every one of them was
      stored faithfully, bytes taken by and received from the socket, calls of `shutdown` and how many
      bytes were stored then. */
  datatype History = History(
    accepted: seq<seq<byte>>, stored: seq<byte>, faithful: bool, taken: seq<byte>, received: seq<byte>,
    shutdowns: nat, mark: nat)

  /** The fields of the session, its history and how often `on_closed` was called. */
  datatype Core = Core(
    status: Status, rdReady: bool, wrReady: bool, disconnect: bool, sendOver: bool, recvOver: bool,
    tx: Tx, rx: Rx, hist: History, closings: nat)

  /** A session right after `Attach`. */
  const CORE_START := Core(Running, true, true, false, false, false, Tx([], None, 0), RX_START,
                           History([], [], true, [], [], 0, 0), 0)

  /** Whether a `Send` stores the frame it should, seen before the call. */
  predicate Faithful(q: seq<seq<byte>>, p: seq<byte>, how: Sender)
    requires QueueOk(q)
  {
    how.Advancing? || (Sendable(p) && FrameFits(Room(q), |p|))
  }

  /** `Send` from the logic thread; only a running session accepts anything. */
  function Send(c: Core, p: seq<byte>, how: Sender): Core
    requires TxOk(c.tx)
  {
    if !c.status.Running? then c
    else
      var bytes := if how.Advancing? then Frame(p) else Stored(Room(c.tx.queue), p);
      c.(tx := c.tx.(queue := SendFrame(c.tx.queue, p, how)),
         hist := c.hist.(accepted := c.hist.accepted + [p],
                         stored := c.hist.stored + bytes,
                         faithful := c.hist.faithful && Faithful(c.tx.queue, p, how)))
  }

  function Disconnect(c: Core): Core { c.(disconnect := true) }

  /** How a loop over the socket ended: nothing left to do (or a short count), a call that would block,
      an error, or the end of the stream. */
  datatype End = Done | Blocked | Failed | Ended

  /** What the loop of `_post_recv` did: the receiver afterwards and the bytes it was given. */
  datatype Got = Got(rx: Rx, bytes: seq<byte>, end: End)

  /** The loop of `_post_recv`; a list of answers that runs out ends like one that would block. */
  function RecvLoop(rx: Rx, answers: seq<RecvAnswer>): (r: Got)
    requires RxOk(rx)
    ensures RxOk(r.rx)
    decreases |answers|
  {
    if answers == [] then Got(rx, [], Blocked)
    else match answers[0]
      case Data(bytes) =>
        var rx' := RxAll(rx, bytes);
        if |bytes| == BLOCK then
          var r := RecvLoop(rx', answers[1..]);
          Got(r.rx, bytes + r.bytes, r.end)
        else Got(rx', bytes, Done)
      case RecvBlocked => Got(rx, [], Blocked)
      case RecvInterrupted => RecvLoop(rx, answers[1..])
      case RecvFailed => Got(rx, [], Failed)
      case EndOfStream => Got(rx, [], Ended)
  }

  /** `_post_recv`. A stream the parser gives up on disconnects the session, and so does its end. */
  function PostRecv(c: Core, answers: seq<RecvAnswer>): (r: Core)
    requires RxOk(c.rx)
    ensures RxOk(r.rx) && r.tx == c.tx
  {
    if c.recvOver || !c.status.Running? || !c.rdReady then c
    else
      var r := RecvLoop(c.rx, answers);
      c.(rx := r.rx,
         disconnect := c.disconnect || (r.bytes != [] && Dead(r.rx)) || r.end.Ended?,
         recvOver := r.end.Ended?,
         rdReady := !r.end.Blocked?,
         status := if r.end.Failed? then Error else Running,
         hist := c.hist.(received := c.hist.received + r.bytes))
  }

  /** Makes the front block the one being sent, when none is. */
  function PickBlock(tx: Tx): (r: Tx)
    requires TxOk(tx)
    ensures TxOk(r) && Unsent(r) == Unsent(tx)
    ensures r.cur.None? ==> r.queue == []
  {
    if tx.cur.Some? || tx.queue == [] then tx
    else
      assert Flat(tx.queue) == tx.queue[0] + Flat(tx.queue[1..]);
      assert tx.queue[0][0..] == tx.queue[0];
      Tx(tx.queue[1..], Some(tx.queue[0]), 0)
  }

  /** The socket takes `k` bytes of the current block; a finished block is given back to the pool. */
  function Take(tx: Tx, k: nat): (r: Tx)
    requires TxOk(tx) && tx.cur.Some? && k <= |tx.cur.value| - tx.sent
    ensures TxOk(r) && Unsent(tx) == tx.cur.value[tx.sent..][..k] + Unsent(r)
  {
    var data := tx.cur.value[tx.sent..];
    assert data == data[..k] + data[k..];
    Assoc(data[..k], data[k..], Flat(tx.queue));
    if k == |data| then Tx(tx.queue, None, 0)
    else
      assert tx.cur.value[tx.sent + k..] == data[k..];
      tx.(sent := tx.sent + k)
  }

  /** What the loop of `_post_send` did: the send side afterwards and the bytes the socket took. */
  datatype Drained = Drained(tx: Tx, bytes: seq<byte>, end: End)

  /** One call of `send` on the current block; `stop` says whether and how the loop ends with it. */
  datatype Sent = Sent(tx: Tx, bytes: seq<byte>, stop: Option<End>)

  function SendOnce(tx: Tx, answer: SendAnswer): (r: Sent)
    requires TxOk(tx) && tx.cur.Some?
    ensures TxOk(r.tx) && Unsent(tx) == r.bytes + Unsent(r.tx)
  {
    match answer
    case Took(n) =>
      var data := tx.cur.value[tx.sent..];
      var k := Min(n, |data|);
      Sent(Take(tx, k), data[..k], if n >= |data| then None else Some(Done))
    case SendBlocked => Sent(tx, [], Some(Blocked))
    case SendInterrupted => Sent(tx, [], None)
    case SendFailed => Sent(tx, [], Some(Failed))
  }

  /** The loop of `_post_send`. No byte is lost, duplicated or reordered, whatever the socket answers. */
  function SendLoop(tx: Tx, answers: seq<SendAnswer>): (r: Drained)
    requires TxOk(tx)
    ensures TxOk(r.tx) && Unsent(tx) == r.bytes + Unsent(r.tx)
    decreases |answers|
  {
    var tx := PickBlock(tx);
    if tx.cur.None? then Drained(tx, [], Done)
    else if answers == [] then Drained(tx, [], Blocked)
    else
      var s := SendOnce(tx, answers[0]);
      if s.stop.Some? then Drained(s.tx, s.bytes, s.stop.value)
      else
        var r := SendLoop(s.tx, answers[1..]);
        Assoc(s.bytes, r.bytes, Unsent(r.tx));
        Drained(r.tx, s.bytes + r.bytes, r.end)
  }

  /** `_post_send`. With nothing pending it is here that a disconnected session is shut down. */
  function PostSend(c: Core, answers: seq<SendAnswer>): Core
    requires TxOk(c.tx)
  {
    if c.tx.cur.None? && c.tx.queue == [] then
      if c.disconnect && !c.sendOver then
        c.(sendOver := true, hist := c.hist.(shutdowns := c.hist.shutdowns + 1, mark := |c.hist.stored|))
      else c
    else if c.sendOver || !c.status.Running? || !c.wrReady then c
    else
      var r := SendLoop(c.tx, answers);
      c.(tx := r.tx,
         wrReady := !r.end.Blocked?,
         status := if r.end.Failed? then Error else Running,
         hist := c.hist.(taken := c.hist.taken + r.bytes))
  }

  /** The readiness bits epoll reports. */
  datatype Events = Events(err: bool, hup: bool, rdhup: bool, rd: bool, wr: bool)

  const NO_EVENTS := Events(false, false, false, false, false)

  function Ready(c: Core, ev: Events): Core {
    c.(rdReady := c.rdReady || ev.hup || ev.rd, wrReady := c.wrReady || ev.wr)
  }

  predicate Closing(ev: Events) { ev.err || ev.hup || ev.rdhup }

  /** The end of an `Update`: the close machine. `idle` is the outcome of the activity check. */
  function Finish(c: Core, shouldClose: bool, idle: bool): Core {
    var status := if shouldClose then Error else c.status;
    c.(status := match status
                 case Running => if c.sendOver && c.recvOver then PreClosed else Running
                 case Error => PreClosed
                 case PreClosed => Closed
                 case other => other,
       disconnect := c.disconnect || (status.Running? && idle),
       closings := if status.PreClosed? then c.closings + 1 else c.closings)
  }

  /** `Update` between reading the readiness word and arming the socket again. */
  function Body(c: Core, shouldClose: bool, recvs: seq<RecvAnswer>, sends: seq<SendAnswer>, idle: bool): Core
    requires TxOk(c.tx) && RxOk(c.rx)
  {
    Finish(PostSend(PostRecv(c, recvs), sends), shouldClose, idle)
  }

  // ---------- what every call keeps of the core ----------

  /** No byte is lost, duplicated or reordered on the way to the socket. */
  predicate Conserved(c: Core)
    requires TxOk(c.tx)
  {
    c.hist.taken + Unsent(c.tx) == c.hist.stored
  }

  /** `shutdown` was called at most once, only after `Disconnect` and with everything stored by then already
      handed to the socket; nothing is handed over afterwards. */
  predicate GracefulShutdown(c: Core) {
    && c.hist.shutdowns == (if c.sendOver then 1 else 0)
    && (c.sendOver ==> c.disconnect && c.hist.mark <= |c.hist.stored| && c.hist.taken == c.hist.stored[..c.hist.mark])
  }

  /** The receiver is where the reference parser is after the bytes received so far, however they were
      cut into chunks; a stream that is given up disconnects the session. */
  predicate Parsed(c: Core) {
    && RxOk(c.rx) && c.rx == RxAll(RX_START, c.hist.received)
    && (Dead(c.rx) ==> c.disconnect)
  }

  predicate CoreOk(c: Core) {
    && TxOk(c.tx) && Conserved(c) && GracefulShutdown(c) && Parsed(c)
    && (c.hist.faithful ==> c.hist.stored == Frames(c.hist.accepted))
  }

  /** A running session stores all it is given, behind what is queued, whatever else is under way; any other
      takes nothing. */
  lemma SendStores(c: Core, p: seq<byte>, how: Sender)
    requires TxOk(c.tx)
    ensures var c' := Send(c, p, how);
            var piece := if how.Advancing? then Frame(p) else Stored(Room(c.tx.queue), p);
            if c.status.Running? then
              && Flat(c'.tx.queue) == Flat(c.tx.queue) + piece && c'.tx.cur == c.tx.cur && c'.tx.sent == c.tx.sent
              && c'.hist.accepted == c.hist.accepted + [p] && c'.hist.stored == c.hist.stored + piece
              && c' == c.(tx := c'.tx, hist := c'.hist)
            else c' == c
  {
    SendAsWritten(c.tx.queue, p);
    SendAdvancing(c.tx.queue, p);
    hide SendFrame, Stored, Room;
  }

  lemma SendKeeps(c: Core, p: seq<byte>, how: Sender)
    requires CoreOk(c)
    ensures CoreOk(Send(c, p, how))
  {
    if c.status.Running? {
      var c' := Send(c, p, how);
      SendAsWritten(c.tx.queue, p);
      SendAdvancing(c.tx.queue, p);
      var cur := if c.tx.cur.Some? then c.tx.cur.value[c.tx.sent..] else [];
      var added := c'.hist.stored[|c.hist.stored|..];
      assert Unsent(c'.tx) == cur + (Flat(c.tx.queue) + added);
      Assoc(cur, Flat(c.tx.queue), added);
      Assoc(c.hist.taken, Unsent(c.tx), added);
      FramesLast(c.hist.accepted, p);
      if c.hist.faithful && Faithful(c.tx.queue, p, how) && how.AsWritten? {
        SendExact(Room(c.tx.queue), |p|);
        assert Stored(Room(c.tx.queue), p) == Frame(p);
      }
    }
  }

  /** Receiving is parsing what is received. */
  lemma {:induction false} RecvLoopParses(rx: Rx, answers: seq<RecvAnswer>)
    requires RxOk(rx)
    ensures RecvLoop(rx, answers).rx == RxAll(rx, RecvLoop(rx, answers).bytes)
    decreases |answers|
  {
    if answers != [] {
      match answers[0]
      case Data(bytes) =>
        var rx' := RxAll(rx, bytes);
        if |bytes| == BLOCK {
          RecvLoopParses(rx', answers[1..]);
          ChunkIndependence(rx, bytes, RecvLoop(rx', answers[1..]).bytes);
        }
      case RecvInterrupted => RecvLoopParses(rx, answers[1..]);
      case _ =>
    }
  }

  lemma PostRecvKeeps(c: Core, answers: seq<RecvAnswer>)
    requires CoreOk(c)
    ensures CoreOk(PostRecv(c, answers))
  {
    if !(c.recvOver || !c.status.Running? || !c.rdReady) {
      RecvLoopParses(c.rx, answers);
      ChunkIndependence(RX_START, c.hist.received, RecvLoop(c.rx, answers).bytes);
    }
  }

  lemma PostSendKeeps(c: Core, answers: seq<SendAnswer>)
    requires CoreOk(c)
    ensures CoreOk(PostSend(c, answers))
  {
    if c.tx.cur.None? && c.tx.queue == [] {
      assert Unsent(c.tx) == [];
      assert c.hist.taken == c.hist.stored == c.hist.stored[..|c.hist.stored|];
    } else if !(c.sendOver || !c.status.Running? || !c.wrReady) {
      var r := SendLoop(c.tx, answers);
      Assoc(c.hist.taken, r.bytes, Unsent(r.tx));
    }
  }

  /** `Update` keeps the invariant. */
  lemma BodyKeeps(c: Core, shouldClose: bool, recvs: seq<RecvAnswer>, sends: seq<SendAnswer>, idle: bool)
    requires CoreOk(c)
    ensures CoreOk(Body(c, shouldClose, recvs, sends, idle))
  {
    var c1 := PostRecv(c, recvs);
    PostRecvKeeps(c, recvs);
    var c2 := PostSend(c1, sends);
    PostSendKeeps(c1, sends);
    var c3 := Finish(c2, shouldClose, idle);
    assert c3.hist == c2.hist && c3.tx == c2.tx && c3.rx == c2.rx && c3.sendOver == c2.sendOver;
  }

  /** `Update` never leaves the session in the error state, never revives it, closes a pre-closed session
      unless a closing event has just come in, and calls `on_closed` exactly when it closes it. A running
      session is pre-closed exactly if a closing event came in, a call failed or both directions are over. */
  lemma BodyStatus(c: Core, shouldClose: bool, recvs: seq<RecvAnswer>, sends: seq<SendAnswer>, idle: bool)
    requires TxOk(c.tx) && RxOk(c.rx) && !c.status.Error?
    ensures var r := Body(c, shouldClose, recvs, sends, idle);
            && !r.status.Error?
            && (r.status.Running? ==> c.status.Running?)
            && (c.status.Running? ==> r.status.Running? || r.status.PreClosed?)
            && (c.status.PreClosed? ==> r.status == if shouldClose then PreClosed else Closed)
            && r.closings == c.closings + (if c.status.PreClosed? && !shouldClose then 1 else 0)
            && (c.status.Running? ==>
                  (r.status.PreClosed? <==>
                     shouldClose || PostSend(PostRecv(c, recvs), sends).status.Error? || (r.sendOver && r.recvOver)))
  {
    hide TxOk, RxOk, RecvLoop, SendLoop, Dead, QueueOk;
  }

  /** Between any two sessions: the receiver has pushed exactly the payloads whose bytes have arrived. */
  lemma CoreEndToEnd(s: Core, r: Core)
    requires CoreOk(s) && CoreOk(r) && s.hist.faithful && r.hist.received <= s.hist.taken
    requires forall p | p in s.hist.accepted :: Sendable(p)
    ensures r.rx.pushed == s.hist.accepted[..Arrived(s.hist.accepted, |r.hist.received|)] && !Dead(r.rx)
  {
    assert s.hist.taken <= s.hist.taken + Unsent(s.tx);
    RxFrames(RX_START, s.hist.accepted, r.hist.received);
  }
}
