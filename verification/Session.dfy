/** The Linux session as it runs, over pooled messages. Its methods are proved to do what the state
    machine of `LinuxSession` says, and to leave alone whatever others hold of the pools. */
module Sessions {
  import opened Bytes
  import opened Framing
  import opened LinuxSession
  import opened Messages

  // ---------- the two sides of a session ----------

  /** The receiver as the reference parser sees it, the packets waiting for the logic loop, and what others
      hold of the pool. */
  datatype RxSide = RxSide(rx: Rx, queue: seq<Letter>, others: map<Message, Holding>)

  /** Packets of one session. */
  ghost function Tagged(sender: object?, ps: seq<seq<byte>>): (ls: seq<Letter>)
    ensures |ls| == |ps| && forall i | 0 <= i < |ps| :: ls[i] == Letter(sender, ps[i])
  {
    seq(|ps|, i requires 0 <= i < |ps| => Letter(sender, ps[i]))
  }

  /** Bytes arrive: the parser takes them, and whatever it pushes is put at the end of the loop's queue. */
  ghost function Receive(v: RxSide, sender: object?, bytes: seq<byte>): (r: RxSide)
    requires RxOk(v.rx)
    ensures RxOk(r.rx) && v.rx.pushed <= r.rx.pushed && r.others == v.others
  {
    PushedGrows(v.rx, bytes);
    var rx := RxAll(v.rx, bytes);
    RxSide(rx, v.queue + Tagged(sender, rx.pushed[|v.rx.pushed|..]), v.others)
  }

  lemma {:induction false} PushedGrows(rx: Rx, bytes: seq<byte>)
    requires RxOk(rx)
    ensures rx.pushed <= RxAll(rx, bytes).pushed
    decreases |bytes|
  {
    if bytes != [] {
      PushedGrows(RxByte(rx, bytes[0]), bytes[1..]);
    }
  }

  lemma ReceiveTwice(v: RxSide, sender: object?, a: seq<byte>, b: seq<byte>)
    requires RxOk(v.rx)
    ensures Receive(Receive(v, sender, a), sender, b) == Receive(v, sender, a + b)
  {
    ChunkIndependence(v.rx, a, b);
    var p0, p1 := v.rx.pushed, RxAll(v.rx, a).pushed;
    var p2 := Receive(v, sender, a + b).rx.pushed;
    assert Receive(Receive(v, sender, a), sender, b).rx.pushed == p2 && p0 <= p1 <= p2;
    assert Tagged(sender, p1[|p0|..]) + Tagged(sender, p2[|p1|..]) == Tagged(sender, p2[|p0|..]);
    Assoc(v.queue, Tagged(sender, p1[|p0|..]), Tagged(sender, p2[|p1|..]));
  }

  lemma ReceiveNothing(v: RxSide, sender: object?)
    requires RxOk(v.rx)
    ensures Receive(v, sender, []) == v
  {
    assert Tagged(sender, v.rx.pushed[|v.rx.pushed|..]) == [];
  }

  lemma ReceiveDead(v: RxSide, sender: object?, bytes: seq<byte>)
    requires RxOk(v.rx) && Dead(v.rx)
    ensures Receive(v, sender, bytes) == v
  {
    DeadForever(v.rx, bytes);
    assert Tagged(sender, v.rx.pushed[|v.rx.pushed|..]) == [];
  }

  /** The receiver once the header it has, if complete, has been looked at. */
  ghost function Settled(v: RxSide): (r: RxSide)
    requires RxShape(v.rx)
    ensures RxOk(r.rx) && r.rx.pushed == v.rx.pushed
  {
    if Dead(v.rx) then v.(rx := Settle(v.rx)) else v
  }

  /** Filling the header first and looking at it then is what the reference parser does. */
  lemma HeaderPass(v: RxSide, sender: object?, bytes: seq<byte>, k: nat, mid: RxSide)
    requires RxOk(v.rx) && k == Min(HEADER - |v.rx.header|, |bytes|)
    requires mid == v.(rx := v.rx.(header := v.rx.header + bytes[..k]))
    ensures RxShape(mid.rx) && Receive(v, sender, bytes) == Receive(Settled(mid), sender, bytes[k..])
  {
    assert bytes == bytes[..k] + bytes[k..];
    ReceiveTwice(v, sender, bytes[..k], bytes[k..]);
    if |v.rx.header| < HEADER {
      HeaderRun(v.rx, bytes[..k]);
      assert Tagged(sender, v.rx.pushed[|v.rx.pushed|..]) == [];
    } else {
      ReceiveNothing(v, sender);
      assert bytes[..k] == [] && v.rx.header + bytes[..k] == v.rx.header;
    }
  }

  /** Filling the packet under construction, and pushing a complete one. */
  lemma BodyPass(v: RxSide, sender: object?, bytes: seq<byte>)
    requires RxOk(v.rx) && v.rx.body.Some? && |v.rx.body.value.got| + |bytes| <= v.rx.body.value.len
    ensures var got := v.rx.body.value.got + bytes;
            Receive(v, sender, bytes) ==
              if |got| == v.rx.body.value.len
              then v.(rx := Rx([], None, v.rx.pushed + [got]), queue := v.queue + [Letter(sender, got)])
              else v.(rx := v.rx.(body := Some(Partial(v.rx.body.value.len, got))))
  {
    var got := v.rx.body.value.got + bytes;
    BodyRun(v.rx, bytes);
    assert Tagged(sender, v.rx.pushed[|v.rx.pushed|..]) == [];
    assert Tagged(sender, (v.rx.pushed + [got])[|v.rx.pushed|..]) == [Letter(sender, got)];
  }

  /** The send side as the state machine sees it, and what others hold of its pool. */
  datatype TxSide = TxSide(tx: Tx, others: map<Message, Holding>)

  method NewHeader() returns (header: Message)
    ensures fresh(header) && header.Valid() && header.dataLen == HEADER && header.Contents() == []
  {
    header := new Message(HEADER);
    header.Reset(HEADER);
  }

  /** What the bits of the readiness word make of the two flags, and whether one of them closes the session. */
  method ReadEvents(ev: Events, rdReady: bool, wrReady: bool) returns (rd: bool, wr: bool, shouldClose: bool)
    ensures rd == (rdReady || ev.hup || ev.rd) && wr == (wrReady || ev.wr) && shouldClose == Closing(ev)
  {
    rd, wr, shouldClose := rdReady, wrReady, false;
    if ev.err {
      shouldClose := true;
    }
    if ev.hup {
      rd := true;
      shouldClose := true;
    }
    if ev.rdhup {
      shouldClose := true;
    }
    if ev.rd {
      rd := true;
    }
    if ev.wr {
      wr := true;
    }
  }

  lemma ReadyAs(c: Core, ev: Events, rd: bool, wr: bool)
    requires rd == (c.rdReady || ev.hup || ev.rd) && wr == (c.wrReady || ev.wr)
    ensures Ready(c, ev) == c.(rdReady := rd, wrReady := wr)
  {
  }

  lemma ReadyNothing(c: Core)
    ensures Ready(c, NO_EVENTS) == c
  {
  }

  class Session {
    // receiving
    const header: Message
    var msgRecv: Message?
    const recvPool: MessageQueue
    ghost var pushed: seq<seq<byte>>

    // sending
    var queSend: seq<Message>
    var msgSend: Message?
    var sendLen: nat
    const sendPool: MessageQueue

    var status: Status
    var rdReady: bool
    var wrReady: bool
    var disconnect: bool
    var sendOver: bool
    var recvOver: bool

    // shared with the poller thread under the mutex
    var events: Events
    var inEpoll: bool

    // history: what crossed the socket, calls of `on_closed`, registrations with epoll
    ghost var hist: History
    ghost var closings: nat
    ghost var registrations: nat

    /** A message of a pool that this session holds. */
    ghost predicate Holds(pool: MessageQueue, m: Message)
      reads pool, m
    {
      m in pool.live && m in pool.out && pool.out[m] == this && m.Valid()
    }

    /** `open`: the packet under construction is not complete. It is all the session holds of the pool. */
    ghost predicate RxValid(open: bool := true)
      reads `msgRecv, header, msgRecv, recvPool, recvPool.live
    {
      && recvPool.Valid() && header !in recvPool.live
      && header.Valid() && header.dataLen == HEADER
      && (msgRecv != null ==>
            && header.Full() && Holds(recvPool, msgRecv)
            && 2 <= msgRecv.dataLen <= MAX_PACKET && (open ==> !msgRecv.Full()))
      && (forall m | m in recvPool.out && recvPool.out[m] == this :: m == msgRecv)
    }

    /** The packets waiting, the one under construction and the recycled messages: messages move along this
        line, and new ones join at its end. */
    ghost function Line(): seq<Message>
      reads `msgRecv, recvPool
    {
      recvPool.waiting + (if msgRecv == null then [] else [msgRecv]) + recvPool.recycle
    }

    ghost function Arriving(): (v: RxSide)
      requires RxValid()
      reads `msgRecv, `pushed, header, msgRecv, recvPool, recvPool.live, recvPool.waiting
      ensures RxShape(v.rx)
    {
      RxSide(Rx(header.Contents(), if msgRecv == null then None else Some(Partial(msgRecv.dataLen, msgRecv.Contents())), pushed),
             Letters(recvPool.waiting), recvPool.Others(this))
    }

    lemma ArrivingFacts()
      requires RxValid()
      ensures header.Full() <==> |Arriving().rx.header| == HEADER
      ensures msgRecv == null <==> Arriving().rx.body.None?
      ensures msgRecv != null ==> msgRecv in recvPool.live && recvPool.Valid()
    {
      hide MessageQueue.Valid, MessageQueue.Others, Letters;
    }

    constructor (recvPool: MessageQueue, sendPool: MessageQueue)
      requires recvPool.Valid() && sendPool.Valid()
      ensures RxValid() && Arriving() == RxSide(RX_START, Letters(recvPool.waiting), recvPool.Others(this))
      ensures TxValid() && Leaving() == TxSide(Tx([], None, 0), sendPool.Others(this))
      ensures this.recvPool == recvPool && this.sendPool == sendPool
      ensures fresh(header) && queSend == [] && status == Fresh
      ensures rdReady && wrReady && !disconnect && !sendOver && !recvOver && events == NO_EVENTS && !inEpoll
      ensures hist == History([], [], true, [], [], 0, 0) && closings == 0 && registrations == 0
    {
      var h := NewHeader();
      header := h;
      msgRecv, pushed := null, [];
      queSend, msgSend, sendLen := [], null, 0;
      status, rdReady, wrReady := Fresh, true, true;
      disconnect, sendOver, recvOver := false, false, false;
      events, inEpoll := NO_EVENTS, false;
      hist, closings, registrations := History([], [], true, [], [], 0, 0), 0, 0;
      this.recvPool, this.sendPool := recvPool, sendPool;
    }

    /** Bytes for the header, as many as it lacks. */
    method FillHeader(bytes: seq<byte>) returns (rest: seq<byte>)
      requires RxValid()
      modifies header`currLen, header`block
      ensures RxValid()
      ensures var v := old(Arriving());
              var k := Min(HEADER - |v.rx.header|, |bytes|);
              && Arriving() == v.(rx := v.rx.(header := v.rx.header + bytes[..k])) && rest == bytes[k..]
    {
      hide MessageQueue.Valid, MessageQueue.Others, Letters;
      RxMembers();
      rest := FillAll(header, bytes);
    }

    /** A completed header of an acceptable length: a message is applied for and set to that length. */
    method StartPacket(len: nat)
      requires RxValid() && header.Full() && msgRecv == null && 2 <= len <= MAX_PACKET
      modifies this`msgRecv, recvPool, recvPool.live
      ensures RxValid() && Arriving() == old(Arriving()).(rx := old(Arriving()).rx.(body := Some(Partial(len, []))))
      ensures fresh(recvPool.live - old(recvPool.live)) && old(recvPool.live) <= recvPool.live
      ensures old(Line()) <= Line()
    {
      hide MessageQueue.Valid, MessageQueue.Others, Letters;
      RxMembers();
      msgRecv := recvPool.NewMessage(len, this);
    }

    /** The completed packet is signed and queued for the logic loop. */
    method PushPacket()
      requires RxValid(false) && msgRecv != null && msgRecv.Full()
      modifies this`msgRecv, this`pushed, recvPool, msgRecv`ptr
      ensures RxValid(false) && msgRecv == null && pushed == old(pushed) + [old(msgRecv.Contents())]
      ensures Letters(recvPool.waiting) == old(Letters(recvPool.waiting)) + [Letter(this, old(msgRecv.Contents()))]
      ensures recvPool.live == old(recvPool.live) && recvPool.Others(this) == old(recvPool.Others(this))
      ensures Line() == old(Line())
    {
      hide MessageQueue.Valid, MessageQueue.Others, Letters;
      recvPool.SignHeld(msgRecv, this);
      recvPool.PushMessage(msgRecv);
      pushed := pushed + [msgRecv.Contents()];
      msgRecv := null;
    }

    /** ... and the header made ready for the next one. */
    method FinishPacket()
      requires RxValid(false) && msgRecv != null && msgRecv.Full()
      modifies this`msgRecv, this`pushed, recvPool, header, msgRecv`ptr
      ensures RxValid() && msgRecv == null && header.Contents() == [] && pushed == old(pushed) + [old(msgRecv.Contents())]
      ensures Letters(recvPool.waiting) == old(Letters(recvPool.waiting)) + [Letter(this, old(msgRecv.Contents()))]
      ensures recvPool.live == old(recvPool.live) && recvPool.Others(this) == old(recvPool.Others(this))
      ensures Line() == old(Line())
    {
      hide MessageQueue.Valid, MessageQueue.Others, Letters, Holds;
      PushPacket();
      RxMembers(false);
      header.Reset(HEADER);
    }

    /** What a full header leads to: a packet under construction, or the end of the session. */
    method SettleHeader() returns (ok: bool)
      requires RxValid() && header.Full()
      modifies this`msgRecv, this`disconnect, recvPool, recvPool.live
      ensures RxValid() && Arriving() == Settled(old(Arriving()))
      ensures fresh(recvPool.live - old(recvPool.live)) && old(recvPool.live) <= recvPool.live
      ensures ok == !Dead(Arriving().rx) && disconnect == (old(disconnect) || !ok)
      ensures old(Line()) <= Line()
    {
      hide MessageQueue.Valid, MessageQueue.Others, Letters;
      ghost var rx := Arriving().rx;
      if msgRecv == null {
        assert rx.header == header.block[..HEADER] && Dead(rx);
        var len := UnLe(header.block[..HEADER]);
        if len > MAX_PACKET || len < 2 {
          disconnect := true;
          return false;
        }
        StartPacket(len);
        assert Arriving().rx == Settle(rx);
      }
      return true;
    }

    /** Bytes for the packet under construction, as many as it lacks. */
    method FillBody(bytes: seq<byte>) returns (rest: seq<byte>)
      requires RxValid() && msgRecv != null
      modifies msgRecv`currLen, msgRecv`block
      ensures RxValid(false) && Letters(recvPool.waiting) == old(Letters(recvPool.waiting))
      ensures recvPool.Others(this) == old(recvPool.Others(this))
      ensures var k := Min(msgRecv.dataLen - |old(msgRecv.Contents())|, |bytes|);
              msgRecv.Contents() == old(msgRecv.Contents()) + bytes[..k] && rest == bytes[k..]
    {
      hide MessageQueue.Valid, MessageQueue.Others, Letters;
      rest := recvPool.FillHeld(msgRecv, bytes);
    }

    /** The packet under construction, and what a complete one leads to. */
    method TakeBody(bytes: seq<byte>) returns (rest: seq<byte>, ghost k: nat)
      requires RxValid() && msgRecv != null
      modifies this`msgRecv, this`pushed, header, recvPool, msgRecv`currLen, msgRecv`block, msgRecv`ptr
      ensures RxValid() && !Dead(Arriving().rx) && RxOk(Arriving().rx) && RxOk(old(Arriving()).rx)
      ensures k <= |bytes| && rest == bytes[k..] && (bytes != [] ==> k > 0)
      ensures Arriving() == Receive(old(Arriving()), this, bytes[..k])
      ensures recvPool.live == old(recvPool.live)
      ensures old(Line()) <= Line()
    {
      hide MessageQueue.Valid, MessageQueue.Others, Letters, RxAll, Receive, Tagged;
      ghost var v := Arriving();
      k := Min(msgRecv.dataLen - |msgRecv.Contents()|, |bytes|);
      rest := FillBody(bytes);
      BodyPass(v, this, bytes[..k]);
      if msgRecv.Full() {
        FinishPacket();
      }
      assert Arriving() == Receive(v, this, bytes[..k]);
    }

    /** The header part of a pass. */
    method TakeHeader(bytes: seq<byte>) returns (rest: seq<byte>)
      requires RxValid() && RxOk(Arriving().rx)
      modifies header`currLen, header`block
      ensures RxValid() && Receive(Settled(Arriving()), this, rest) == Receive(old(Arriving()), this, bytes)
      ensures !header.Full() ==> rest == []
      ensures |rest| <= |bytes| && (bytes != [] && old(msgRecv) == null && !old(Dead(Arriving().rx)) ==> |rest| < |bytes|)
    {
      hide MessageQueue.Valid, MessageQueue.Others, Letters, RxAll, Receive, Tagged, Settled;
      ghost var v := Arriving();
      rest := FillHeader(bytes);
      HeaderPass(v, this, bytes, |bytes| - |rest|, Arriving());
    }

    /** One pass of the loop of `_on_recv`; it takes at least one byte or is the last. */
    method Pass(bytes: seq<byte>) returns (rest: seq<byte>)
      requires RxValid() && RxOk(Arriving().rx)
      modifies this`msgRecv, this`pushed, this`disconnect, header, recvPool, recvPool.live
      ensures RxValid() && RxOk(Arriving().rx)
      ensures Receive(Arriving(), this, rest) == Receive(old(Arriving()), this, bytes)
      ensures disconnect == (old(disconnect) || Dead(Arriving().rx))
      ensures fresh(recvPool.live - old(recvPool.live)) && old(recvPool.live) <= recvPool.live
      ensures rest == [] || (|rest| < |bytes| && !Dead(Arriving().rx))
      ensures old(Line()) <= Line()
    {
      hide RxValid, Arriving, Line, RxAll, Receive;
      ArrivingFacts();
      rest := TakeHeader(bytes);
      ArrivingFacts();
      if !header.Full() {
        return;
      }
      var ok := SettleHeader();
      ArrivingFacts();
      if !ok {
        ReceiveDead(Arriving(), this, rest);
        ReceiveDead(Arriving(), this, []);
        return [];
      }
      ghost var v, r := Arriving(), rest;
      ghost var k;
      rest, k := TakeBody(rest);
      assert r == r[..k] + r[k..];
      ReceiveTwice(v, this, r[..k], r[k..]);
    }

    /** `_on_recv`: however the stream is cut into chunks, the session ends up where the reference parser
        does, and a length out of range disconnects it. */
    method OnRecv(bytes: seq<byte>)
      requires RxValid() && RxOk(Arriving().rx)
      modifies this`msgRecv, this`pushed, this`disconnect, header, recvPool, recvPool.live
      ensures RxValid() && Arriving() == Receive(old(Arriving()), this, bytes)
      ensures disconnect == (old(disconnect) || Dead(Arriving().rx))
      ensures fresh(recvPool.live - old(recvPool.live)) && old(recvPool.live) <= recvPool.live
      ensures old(Line()) <= Line()
    {
      hide RxValid, Arriving, Line, RxAll, Receive;
      var rest := Pass(bytes);
      while rest != []
        invariant old(Line()) <= Line()
        invariant RxValid() && RxOk(Arriving().rx)
        invariant Receive(Arriving(), this, rest) == Receive(old(Arriving()), this, bytes)
        invariant disconnect == (old(disconnect) || Dead(Arriving().rx))
        invariant fresh(recvPool.live - old(recvPool.live)) && old(recvPool.live) <= recvPool.live
        invariant rest != [] ==> !Dead(Arriving().rx)
        decreases |rest|
      {
        rest := Pass(rest);
      }
      ReceiveNothing(Arriving(), this);
    }

    // ---------- sending ----------

    /** `filled`: the last block is not a new one still without bytes. The queue, the block being sent and a
        `spare` one about to be queued are all the session holds of the pool. */
    ghost predicate TxValid(filled: bool := true, spare: Message? := null)
      reads `queSend, `msgSend, `sendLen, queSend, msgSend, sendPool, sendPool.live
    {
      && sendPool.Valid()
      && NoDup(queSend)
      && (forall m | m in queSend :: Holds(sendPool, m) && m.dataLen == BLOCK)
      && (forall i | 0 <= i < |queSend| - 1 :: queSend[i].Full())
      && (filled && queSend != [] ==> queSend[|queSend| - 1].currLen > 0)
      && (msgSend == null ==> sendLen == 0)
      && (msgSend != null ==> Holds(sendPool, msgSend) && msgSend !in queSend && sendLen < msgSend.currLen)
      && (forall m | m in sendPool.out && sendPool.out[m] == this :: m in queSend || m == msgSend || m == spare)
    }

    /** The block being sent and those behind it. */
    ghost function Blocks(): seq<Message>
      reads `queSend, `msgSend
    {
      (if msgSend == null then [] else [msgSend]) + queSend
    }

    ghost function Leaving(): (v: TxSide)
      reads `queSend, `msgSend, `sendLen, queSend, msgSend, sendPool, sendPool.live
      ensures TxValid() ==> TxOk(v.tx)
    {
      TxSide(Tx(Packets(queSend), if msgSend == null then None else Some(msgSend.Contents()), sendLen),
             sendPool.Others(this))
    }

    /** An empty block from the pool. */
    method NewBlock() returns (msg: Message)
      requires TxValid()
      modifies sendPool`recycle, sendPool`out, sendPool`live, sendPool.live
      ensures TxValid(true, msg) && Leaving() == old(Leaving())
      ensures fresh(sendPool.live - old(sendPool.live)) && old(sendPool.live) <= sendPool.live
      ensures old(sendPool.recycle) <= [msg] + sendPool.recycle
      ensures Holds(sendPool, msg) && msg in sendPool.live && msg !in queSend && msg != msgSend
      ensures msg.dataLen == BLOCK && msg.Contents() == [] && msg.currLen == 0
      ensures forall m | m in queSend :: m.Full() == old(m.Full())
    {
      hide Packets, TxOk, NoDup, MessageQueue.Valid, MessageQueue.Others, Letters, Message.Valid, Message.Bounded;
      TxMembers();
      msg := sendPool.NewMessage(BLOCK, this);
      assert msg.currLen == 0 by { EmptyMessage(msg); }
    }

    lemma EmptyMessage(msg: Message)
      requires msg.Valid() && msg.Contents() == []
      ensures msg.currLen == 0
    {
    }

    method AddBlock(msg: Message)
      requires TxValid(true, msg) && (queSend == [] || queSend[|queSend| - 1].Full())
      requires Holds(sendPool, msg) && msg !in queSend && msg != msgSend
      requires msg.dataLen == BLOCK && msg.Contents() == []
      modifies this`queSend
      ensures TxValid(false) && queSend == old(queSend) + [msg]
      ensures Leaving() == old(Leaving()).(tx := old(Leaving()).tx.(queue := old(Leaving()).tx.queue + [[]]))
    {
      hide Packets, TxOk, NoDup, Holds, MessageQueue.Valid, MessageQueue.Others;
      PacketsLast(queSend, msg);
      NoDupLast(queSend, msg);
      assert forall m | m in queSend + [msg] :: m in queSend || m == msg;
      queSend := queSend + [msg];
    }

    /** A new block at the end of the queue. */
    method OpenBlock()
      requires TxValid() && (queSend == [] || queSend[|queSend| - 1].Full())
      modifies this`queSend, sendPool`recycle, sendPool`out, sendPool`live, sendPool.live
      ensures TxValid(false) && fresh(sendPool.live - old(sendPool.live)) && old(sendPool.live) <= sendPool.live
      ensures queSend != [] && !queSend[|queSend| - 1].Full() && queSend[|queSend| - 1] in sendPool.live
      ensures Leaving() == old(Leaving()).(tx := old(Leaving()).tx.(queue := old(Leaving()).tx.queue + [[]]))
      ensures old(queSend + sendPool.recycle) <= queSend + sendPool.recycle
    {
      hide TxValid, Leaving, Packets, TxOk, NoDup, Holds, MessageQueue.Valid, MessageQueue.Others;
      var msg := NewBlock();
      assert queSend != [] ==> queSend[|queSend| - 1] in queSend;
      AddBlock(msg);
    }

    /** Bytes for the last block change no other. */
    method FillTailBlock(msg: Message, bytes: seq<byte>) returns (rest: seq<byte>)
      requires TxValid(false) && bytes != [] && queSend != [] && msg == queSend[|queSend| - 1] && !msg.Full()
      modifies msg`currLen, msg`block
      ensures TxValid() && sendPool.Others(this) == old(sendPool.Others(this))
      ensures Packets(queSend[..|queSend| - 1]) == old(Packets(queSend[..|queSend| - 1]))
      ensures msgSend != null ==> msgSend.Contents() == old(msgSend.Contents())
      ensures var k := Min(BLOCK - |old(msg.Contents())|, |bytes|);
              msg.Contents() == old(msg.Contents()) + bytes[..k] && rest == bytes[k..]
    {
      hide Packets, QueueOk, TxOk, MessageQueue.Valid, MessageQueue.Others;
      assert msg !in queSend[..|queSend| - 1];
      hide NoDup;
      rest := sendPool.FillHeld(msg, bytes);
    }

    /** Bytes for the room left in the last block. */
    method FillLast(msg: Message, bytes: seq<byte>) returns (rest: seq<byte>)
      requires TxValid(false) && bytes != [] && queSend != [] && msg == queSend[|queSend| - 1] && !msg.Full()
      modifies msg`currLen, msg`block
      ensures TxValid()
      ensures var v := old(Leaving());
              var q := v.tx.queue;
              var last := q[|q| - 1];
              var k := Min(BLOCK - |last|, |bytes|);
              Leaving() == v.(tx := v.tx.(queue := q[..|q| - 1] + [last + bytes[..k]])) && rest == bytes[k..]
    {
      hide TxValid, Packets, TxOk, QueueOk, MessageQueue.Valid, MessageQueue.Others, NoDup;
      ghost var init := queSend[..|queSend| - 1];
      PacketsLast(init, msg);
      assert queSend == init + [msg];
      rest := FillTailBlock(msg, bytes);
      PacketsLast(init, msg);
    }

    /** `_send`, as it is written: after a full block the piece starts over at its first byte. */
    method StorePiece(data: seq<byte>)
      requires TxValid()
      modifies this`queSend, sendPool`recycle, sendPool`out, sendPool`live, sendPool.live
      ensures TxValid() && fresh(sendPool.live - old(sendPool.live)) && old(sendPool.live) <= sendPool.live
      ensures var v := old(Leaving());
              Leaving() == v.(tx := v.tx.(queue := Append(v.tx.queue, data, |data|, AsWritten)))
      ensures old(queSend + sendPool.recycle) <= queSend + sendPool.recycle
    {
      hide TxValid, Leaving, Packets, FillTail, QueueOk, Room, Append;
      ghost var v := Leaving();
      var size: nat := |data|;
      while size > 0
        invariant old(queSend + sendPool.recycle) <= queSend + sendPool.recycle
        invariant TxValid() && size <= |data| && fresh(sendPool.live - old(sendPool.live)) && old(sendPool.live) <= sendPool.live
        invariant TxOk(Leaving().tx) && Leaving() == v.(tx := v.tx.(queue := Leaving().tx.queue))
        invariant Append(Leaving().tx.queue, data, size, AsWritten) == Append(v.tx.queue, data, |data|, AsWritten)
        decreases size
      {
        AppendStep(Leaving().tx.queue, data, size);
        size := StoreSome(data[..size]);
      }
      AppendNothing(Leaving().tx.queue, data);
    }

    lemma TailFacts()
      requires TxValid()
      ensures var q := Leaving().tx.queue;
              && QueueOk(q) && (q == [] <==> queSend == [])
              && (q != [] ==> (|q[|q| - 1]| == BLOCK <==> queSend[|queSend| - 1].Full()))
              && (queSend != [] ==> queSend[|queSend| - 1] in sendPool.live)
              && (queSend == [] || queSend[|queSend| - 1].Full() || TxValid(false))
    {
      hide MessageQueue.Valid, MessageQueue.Others, NoDup;
    }

    /** One turn of the loop of `_send`: a `Fill` of the tail block, opened when necessary. */
    method StoreSome(bytes: seq<byte>) returns (left: nat)
      requires TxValid() && bytes != []
      modifies this`queSend, sendPool`recycle, sendPool`out, sendPool`live, sendPool.live
      ensures TxValid() && fresh(sendPool.live - old(sendPool.live)) && old(sendPool.live) <= sendPool.live
      ensures var v := old(Leaving());
              var q := v.tx.queue;
              QueueOk(q) && var k := Min(Room(q), |bytes|);
              Leaving() == v.(tx := v.tx.(queue := FillTail(q, bytes[..k]))) && left == |bytes| - k
      ensures old(queSend + sendPool.recycle) <= queSend + sendPool.recycle
    {
      hide TxValid, Leaving, Packets, FillTail, QueueOk, Room;
      ghost var q := Leaving().tx.queue;
      TailFacts();
      if queSend == [] || queSend[|queSend| - 1].Full() {
        OpenBlock();
      }
      TailFilled(q, Leaving().tx.queue, bytes);
      assert fresh(sendPool.live - old(sendPool.live)) && old(sendPool.live) <= sendPool.live;
      var rest := FillLast(queSend[|queSend| - 1], bytes);
      left := |rest|;
    }

    /** The length as one piece, the payload as another. */
    method StoreFrame(p: seq<byte>)
      requires TxValid()
      modifies `queSend, sendPool`recycle, sendPool`out, sendPool`live, sendPool.live
      ensures TxValid() && fresh(sendPool.live - old(sendPool.live)) && old(sendPool.live) <= sendPool.live
      ensures var v := old(Leaving());
              Leaving() == v.(tx := v.tx.(queue := SendFrame(v.tx.queue, p, AsWritten)))
      ensures old(queSend + sendPool.recycle) <= queSend + sendPool.recycle
    {
      hide TxValid, Leaving, Packets, QueueOk, Append, Le;
      StorePiece(Le(|p|, HEADER));
      StorePiece(p);
    }

    /** Makes the front block the one being sent, when none is. */
    method Pick()
      requires TxValid()
      modifies `queSend, `msgSend, `sendLen
      ensures TxValid() && Leaving() == old(Leaving()).(tx := PickBlock(old(Leaving()).tx)) && Blocks() == old(Blocks())
    {
      hide TxValid, Leaving, Blocks, QueueOk;
      CurOfLeaving();
      if msgSend == null && queSend != [] {
        PickFront();
      }
    }

    method PickFront()
      requires TxValid() && msgSend == null && queSend != []
      modifies `queSend, `msgSend, `sendLen
      ensures TxValid() && Blocks() == old(Blocks())
      ensures var v := old(Leaving());
              v.tx.queue != [] && Leaving() == v.(tx := Tx(v.tx.queue[1..], Some(v.tx.queue[0]), 0))
    {
      hide Packets, MessageQueue.Valid, MessageQueue.Others, Message.Valid, TxOk, QueueOk;
      PacketsTail(queSend);
      msgSend := queSend[0];
      sendLen := 0;
      queSend := queSend[1..];
    }

    /** The whole of the current block was taken: it goes back to the pool. */
    method FinishBlock()
      requires TxValid() && msgSend != null
      modifies `msgSend, `sendLen, sendPool`recycle, sendPool`out
      ensures TxValid() && Leaving() == old(Leaving()).(tx := old(Leaving()).tx.(cur := None, sent := 0))
      ensures sendPool.live == old(sendPool.live) && sendPool.recycle == old(sendPool.recycle) + [old(msgSend)]
      ensures msgSend == null && sendPool.recycle + Blocks() == old(sendPool.recycle + Blocks())
    {
      hide TxValid, Leaving;
      FreeBlock();
      assert Blocks() == queSend && old(Blocks()) == [old(msgSend)] + queSend;
    }

    method FreeBlock()
      requires TxValid() && msgSend != null
      modifies `msgSend, `sendLen, sendPool`recycle, sendPool`out
      ensures TxValid() && Leaving() == old(Leaving()).(tx := old(Leaving()).tx.(cur := None, sent := 0))
      ensures sendPool.live == old(sendPool.live) && sendPool.recycle == old(sendPool.recycle) + [old(msgSend)]
      ensures msgSend == null
    {
      hide Packets, MessageQueue.Valid, MessageQueue.Others, NoDup, QueueOk, TxOk;
      sendPool.FreeMessage(msgSend);
      msgSend := null;
      sendLen := 0;
    }

    /** Some of it was. */
    method SkipBytes(n: nat)
      requires TxValid() && msgSend != null && n < msgSend.currLen - sendLen
      modifies `sendLen
      ensures TxValid() && Leaving() == old(Leaving()).(tx := old(Leaving()).tx.(sent := old(sendLen) + n))
    {
      hide Packets, MessageQueue.Valid, MessageQueue.Others, NoDup, QueueOk, TxOk;
      sendLen := sendLen + n;
    }

    lemma Current()
      requires TxValid() && msgSend != null
      ensures TxOk(Leaving().tx) && Leaving().tx.cur == Some(msgSend.Contents()) && Leaving().tx.sent == sendLen
      ensures sendLen < msgSend.currLen == |msgSend.Contents()|
    {
      hide Packets, MessageQueue.Valid, MessageQueue.Others, NoDup;
    }

    /** The socket took `n` bytes, or all of the current block if it has fewer left. */
    method TakeBytes(n: nat) returns (stop: Option<End>, ghost taken: seq<byte>)
      requires TxValid() && msgSend != null
      modifies `msgSend, `sendLen, sendPool`recycle, sendPool`out
      ensures TxValid() && Sent(Leaving().tx, taken, stop) == SendOnce(old(Leaving()).tx, Took(n))
      ensures sendPool.live == old(sendPool.live) && Leaving().others == old(Leaving()).others
      ensures sendPool.recycle + Blocks() == old(sendPool.recycle + Blocks())
    {
      hide TxValid, Leaving, Blocks, QueueOk;
      Current();
      var len := msgSend.currLen - sendLen;
      taken := msgSend.Contents()[sendLen..][..Min(n, len)];
      if n >= len {
        FinishBlock();
        stop := None;
      } else {
        SkipBytes(n);
        stop := Some(Done);
      }
    }

    /** One call of `send` on the current block. */
    method CallSend(answer: SendAnswer) returns (stop: Option<End>, ghost taken: seq<byte>)
      requires TxValid() && msgSend != null
      modifies `msgSend, `sendLen, sendPool`recycle, sendPool`out
      ensures TxValid() && Sent(Leaving().tx, taken, stop) == SendOnce(old(Leaving()).tx, answer)
      ensures sendPool.live == old(sendPool.live) && Leaving().others == old(Leaving()).others
      ensures sendPool.recycle + Blocks() == old(sendPool.recycle + Blocks())
    {
      hide TxValid, Leaving, Packets;
      match answer
      case Took(n) => stop, taken := TakeBytes(n);
      case SendBlocked => stop, taken := Some(Blocked), [];
      case SendInterrupted => stop, taken := None, [];
      case SendFailed => stop, taken := Some(Failed), [];
    }

    /** The loop of `_post_send`, with the answers the socket gives to its calls. */
    method DrainQueue(answers: seq<SendAnswer>) returns (end: End, ghost taken: seq<byte>)
      requires TxValid()
      modifies `queSend, `msgSend, `sendLen, sendPool`recycle, sendPool`out
      ensures TxValid() && Drained(Leaving().tx, taken, end) == SendLoop(old(Leaving()).tx, answers)
      ensures sendPool.live == old(sendPool.live) && Leaving().others == old(Leaving()).others
      ensures sendPool.recycle + Blocks() == old(sendPool.recycle + Blocks())
    {
      hide TxValid, Leaving, Packets, PickBlock, SendOnce;
      taken := [];
      var i := 0;
      while true
        invariant i <= |answers| && TxValid() && TxOk(Leaving().tx)
        invariant sendPool.live == old(sendPool.live) && Leaving().others == old(Leaving()).others
        invariant sendPool.recycle + Blocks() == old(sendPool.recycle + Blocks())
        invariant SendLoop(old(Leaving()).tx, answers) == After(taken, SendLoop(Leaving().tx, answers[i..]))
        decreases |answers| - i
      {
        SendLoopStep(Leaving().tx, answers[i..], taken);
        Pick();
        CurOfLeaving();
        if msgSend == null {
          return Done, taken;
        }
        if i == |answers| {
          return Blocked, taken;
        }
        var stop, bytes := CallSend(answers[i]);
        taken := taken + bytes;
        if stop.Some? {
          return stop.value, taken;
        }
        i := i + 1;
      }
    }

    // ---------- receiving from the socket ----------

    /** The loop of `_post_recv`, with the answers the socket gives to its calls. */
    method DrainSocket(answers: seq<RecvAnswer>) returns (end: End, ghost got: seq<byte>)
      requires RxValid() && RxOk(Arriving().rx)
      modifies `msgRecv, `pushed, `disconnect, header, recvPool, recvPool.live
      ensures RxValid() && Arriving() == Receive(old(Arriving()), this, got)
      ensures Got(Arriving().rx, got, end) == RecvLoop(old(Arriving()).rx, answers)
      ensures disconnect == (old(disconnect) || (got != [] && Dead(Arriving().rx)))
      ensures fresh(recvPool.live - old(recvPool.live)) && old(recvPool.live) <= recvPool.live
      ensures old(Line()) <= Line()
    {
      hide RxValid, Arriving, Line, RxAll, Receive;
      got := [];
      ReceiveNothing(Arriving(), this);
      var i := 0;
      while i < |answers|
        invariant old(Line()) <= Line()
        invariant i <= |answers| && RxValid() && Arriving() == Receive(old(Arriving()), this, got)
        invariant RecvLoop(old(Arriving()).rx, answers) == Before(got, RecvLoop(Arriving().rx, answers[i..]))
        invariant disconnect == (old(disconnect) || (got != [] && Dead(Arriving().rx)))
        invariant fresh(recvPool.live - old(recvPool.live)) && old(recvPool.live) <= recvPool.live
      {
        RecvLoopStep(Arriving().rx, answers[i..], got);
        match answers[i] {
          case Data(bytes) =>
            if Dead(Arriving().rx) {
              ReceiveDead(Arriving(), this, bytes);
            }
            ReceiveTwice(old(Arriving()), this, got, bytes);
            ParsedBy(Arriving(), this, bytes);
            OnRecv(bytes);
            got := got + bytes;
            if |bytes| < BLOCK {
              return Done, got;
            }
          case RecvBlocked => return Blocked, got;
          case RecvInterrupted =>
          case RecvFailed => return Failed, got;
          case EndOfStream => return Ended, got;
        }
        i := i + 1;
      }
      RecvLoopStep(Arriving().rx, [], got);
      end := Blocked;
    }

    // ---------- the calls of the logic thread ----------

    ghost predicate Valid()
      reads `msgRecv, `pushed, `queSend, `msgSend, `sendLen
      reads header, msgRecv, queSend, msgSend, recvPool, recvPool.live, recvPool.waiting, sendPool, sendPool.live
    {
      && RxValid() && RxOk(Arriving().rx) && TxValid()
      && recvPool != sendPool && recvPool.live !! sendPool.live && header !in sendPool.live
      && (forall m | m in queSend :: m in sendPool.live) && (msgSend != null ==> msgSend in sendPool.live)
      && (forall m | m in recvPool.waiting :: m in recvPool.live) && (msgRecv != null ==> msgRecv in recvPool.live)
    }

    /** The session as the state machine sees it. */
    ghost function State(): (c: Core)
      requires Valid()
      reads `status, `rdReady, `wrReady, `disconnect, `sendOver, `recvOver, `hist, `closings
      reads `msgRecv, `pushed, `queSend, `msgSend, `sendLen
      reads header, msgRecv, queSend, msgSend, recvPool, recvPool.live, recvPool.waiting, sendPool, sendPool.live
      ensures TxOk(c.tx) && RxOk(c.rx) && c.rx == Arriving().rx && c.hist == hist
    {
      Core(status, rdReady, wrReady, disconnect, sendOver, recvOver, Leaving().tx, Arriving().rx, hist, closings)
    }

    /** The loop, seen from the whole session. */
    method ReadAll(answers: seq<RecvAnswer>) returns (end: End, ghost got: seq<byte>)
      requires Valid()
      modifies `msgRecv, `pushed, `disconnect, header, recvPool, recvPool.live
      ensures Valid() && RxValid() && Leaving() == old(Leaving()) && RxOk(old(Arriving()).rx)
      ensures fresh(recvPool.live - old(recvPool.live)) && old(recvPool.live) <= recvPool.live && Arriving() == Receive(old(Arriving()), this, got)
      ensures Got(Arriving().rx, got, end) == RecvLoop(old(Arriving()).rx, answers)
      ensures disconnect == (old(disconnect) || (got != [] && Dead(Arriving().rx)))
      ensures old(Line()) <= Line()
    {
      hide RxValid, Arriving, Line, TxValid, Leaving, RecvLoop, RxAll, RxOk, Receive, Dead;
      end, got := DrainSocket(answers);
      RxMembers();
    }

    /** What follows the loop. */
    method NoteEnd(end: End, ghost got: seq<byte>)
      requires Valid() && RxValid()
      modifies `disconnect, `recvOver, `rdReady, `status, `hist
      ensures Valid() && RxValid() && Arriving() == old(Arriving()) && Leaving() == old(Leaving())
      ensures disconnect == (old(disconnect) || end.Ended?) && recvOver == (old(recvOver) || end.Ended?)
      ensures rdReady == (old(rdReady) && !end.Blocked?) && status == (if end.Failed? then Error else old(status))
      ensures hist == old(hist).(received := old(hist).received + got)
    {
      hide Valid, RxValid, Arriving, Line, Leaving;
      if end.Blocked? {
        rdReady := false;
      } else if end.Failed? {
        status := Error;
      } else if end.Ended? {
        recvOver := true;
        disconnect := true;
      }
      hist := hist.(received := hist.received + got);
    }

    /** The part of `_post_recv` behind its guards. */
    method ReadSocket(answers: seq<RecvAnswer>)
      requires Valid() && RxValid() && RxOk(Arriving().rx)
      modifies `msgRecv, `pushed, `disconnect, `recvOver, `rdReady, `status, `hist, header, recvPool, recvPool.live
      ensures Valid() && RxValid() && fresh(recvPool.live - old(recvPool.live)) && old(recvPool.live) <= recvPool.live && Leaving() == old(Leaving())
      ensures var r := RecvLoop(old(Arriving()).rx, answers);
              && Arriving() == Receive(old(Arriving()), this, r.bytes) && Arriving().rx == r.rx
              && disconnect == (old(disconnect) || (r.bytes != [] && Dead(r.rx)) || r.end.Ended?)
              && recvOver == (old(recvOver) || r.end.Ended?)
              && rdReady == (old(rdReady) && !r.end.Blocked?)
              && status == (if r.end.Failed? then Error else old(status))
              && hist == old(hist).(received := old(hist).received + r.bytes)
      ensures old(Line()) <= Line()
    {
      hide Valid, RxValid, Arriving, Line, Leaving, RecvLoop, RxAll, RxOk, Receive, Dead;
      var end, got := ReadAll(answers);
      NoteEnd(end, got);
    }

    /** `_post_recv`. Only the socket adds to what was received. */
    method PostRecv(answers: seq<RecvAnswer>)
      requires Valid()
      modifies `msgRecv, `pushed, `disconnect, `recvOver, `rdReady, `status, `hist, header, recvPool, recvPool.live
      ensures Valid() && State() == LinuxSession.PostRecv(old(State()), answers)
      ensures fresh(recvPool.live - old(recvPool.live)) && old(recvPool.live) <= recvPool.live && Leaving().others == old(Leaving()).others
      ensures RxValid() && RxOk(old(Arriving()).rx)
      ensures old(hist).received <= hist.received
      ensures Arriving() == Receive(old(Arriving()), this, hist.received[|old(hist).received|..])
      ensures old(Line()) <= Line()
    {
      hide Valid, RxValid, Arriving, Line, Leaving, RecvLoop, RxAll, Receive;
      Parts();
      ReceiveNothing(Arriving(), this);
      assert hist.received[|hist.received|..] == [];
      if recvOver || !status.Running? || !rdReady {
        return;
      }
      ReadSocket(answers);
    }

    /** The part of `_post_send` behind its guards. */
    method WriteSocket(answers: seq<SendAnswer>)
      requires Valid()
      modifies `queSend, `msgSend, `sendLen, `wrReady, `status, `hist, sendPool`recycle, sendPool`out
      ensures Valid() && RxValid() && sendPool.live == old(sendPool.live) && Leaving().others == old(Leaving()).others
      ensures sendPool.recycle + Blocks() == old(sendPool.recycle + Blocks())
      ensures Arriving() == old(Arriving())
      ensures var r := SendLoop(old(Leaving()).tx, answers);
              && Leaving().tx == r.tx
              && wrReady == (old(wrReady) && !r.end.Blocked?)
              && status == (if r.end.Failed? then Error else old(status))
              && hist == old(hist).(taken := old(hist).taken + r.bytes)
    {
      hide RxValid, Arriving, Line, TxValid, Leaving, SendLoop, RxAll, RxOk;
      var end, taken := DrainQueue(answers);
      TxMembers();
      if end.Blocked? {
        wrReady := false;
      } else if end.Failed? {
        status := Error;
      }
      hist := hist.(taken := hist.taken + taken);
    }

    /** With nothing left to send a disconnected session is shut down. */
    method ShutDown()
      requires Valid() && RxValid() && msgSend == null && queSend == []
      modifies `sendOver, `hist
      ensures Valid() && RxValid() && State() == LinuxSession.PostSend(old(State()), [])
      ensures Leaving() == old(Leaving()) && Arriving() == old(Arriving()) && hist.received == old(hist).received
    {
      hide Valid, RxValid, Arriving, Line, Leaving, SendLoop, RxAll, RxOk, TxOk;
      CurOfLeaving();
      if disconnect && !sendOver {
        sendOver := true;
        hist := hist.(shutdowns := hist.shutdowns + 1, mark := |hist.stored|);
      }
    }

    method PostSend(answers: seq<SendAnswer>)
      requires Valid() && RxValid()
      modifies `queSend, `msgSend, `sendLen, `sendOver, `wrReady, `status, `hist, sendPool`recycle, sendPool`out
      ensures Valid() && State() == LinuxSession.PostSend(old(State()), answers)
      ensures sendPool.live == old(sendPool.live) && Leaving().others == old(Leaving()).others
      ensures sendPool.recycle + Blocks() == old(sendPool.recycle + Blocks())
      ensures RxValid() && Arriving() == old(Arriving()) && hist.received == old(hist).received
    {
      hide Valid, RxValid, Arriving, Line, Leaving, SendLoop, RxAll, RxOk, TxOk;
      CurOfLeaving();
      if msgSend == null && queSend == [] {
        ShutDown();
        return;
      }
      if sendOver || !status.Running? || !wrReady {
        return;
      }
      WriteSocket(answers);
    }

    /** `Send`; only a running session accepts anything. */
    method Send(p: seq<byte>)
      requires Valid()
      modifies `queSend, `hist, sendPool`recycle, sendPool`out, sendPool`live, sendPool.live
      ensures Valid() && State() == LinuxSession.Send(old(State()), p, AsWritten)
      ensures fresh(sendPool.live - old(sendPool.live)) && old(sendPool.live) <= sendPool.live && Leaving().others == old(Leaving()).others
      ensures Arriving() == old(Arriving())
      ensures old(queSend + sendPool.recycle) <= queSend + sendPool.recycle
    {
      hide RxValid, Arriving, Line, TxValid, Leaving, RxAll, RxOk, QueueOk, SendFrame, Stored, Room, Faithful;
      if !status.Running? {
        return;
      }
      ghost var q := Leaving().tx.queue;
      StoreFrame(p);
      TxMembers();
      hist := hist.(accepted := hist.accepted + [p], stored := hist.stored + Stored(Room(q), p),
                    faithful := hist.faithful && Faithful(q, p, AsWritten));
    }

    method Disconnect()
      requires Valid()
      modifies `disconnect
      ensures Valid() && State() == LinuxSession.Disconnect(old(State()))
    {
      hide Valid, Arriving, Line, Leaving;
      if !disconnect {
        disconnect := true;
      }
    }

    /** `Attach` to a connected socket. */
    method Attach()
      requires Valid()
      modifies `status
      ensures Valid() && State() == old(State()).(status := Running)
    {
      hide Valid, State;
      SetStatus(Running);
    }

    /** The readiness word, read and cleared. */
    method TakeEvents() returns (shouldClose: bool)
      requires Valid()
      modifies `rdReady, `wrReady, `events
      ensures Valid() && State() == Ready(old(State()), old(events)) && events == NO_EVENTS
      ensures shouldClose == Closing(old(events))
    {
      hide Valid, State, Ready;
      shouldClose := false;
      if events == NO_EVENTS {
        ReadyNothing(State());
      } else {
        shouldClose := NoteEvents();
        events := NO_EVENTS;
      }
    }

    method NoteEvents() returns (shouldClose: bool)
      requires Valid()
      modifies `rdReady, `wrReady
      ensures Valid() && State() == Ready(old(State()), events) && shouldClose == Closing(events)
    {
      hide Valid, State, Ready;
      StatusOfState();
      var rd, wr;
      rd, wr, shouldClose := ReadEvents(events, rdReady, wrReady);
      ReadyAs(State(), events, rd, wr);
      SetReady(rd, wr);
    }

    method SetReady(rd: bool, wr: bool)
      requires Valid()
      modifies `rdReady, `wrReady
      ensures Valid() && State() == old(State()).(rdReady := rd, wrReady := wr)
    {
      hide Valid, Arriving, Line, Leaving;
      rdReady, wrReady := rd, wr;
    }

    /** The close machine at the end of `Update`; `idle` is the outcome of the activity check. */
    method Close(shouldClose: bool, idle: bool)
      requires Valid()
      modifies `status, `disconnect, `closings
      ensures Valid() && State() == Finish(old(State()), shouldClose, idle)
    {
      hide Valid, State;
      if shouldClose {
        SetStatus(Error);
      }
      Advance(idle);
    }

    method Advance(idle: bool)
      requires Valid()
      modifies `status, `disconnect, `closings
      ensures Valid() && State() == Finish(old(State()), false, idle)
    {
      hide Valid, State;
      StatusOfState();
      match status
      case Running => Watch(idle);
      case Error =>
        SetStatus(PreClosed);
      case PreClosed =>
        OnClosed();
        SetStatus(Closed);
      case _ =>
    }

    /** A running session: both directions over, or nothing happening. */
    method Watch(idle: bool)
      requires Valid() && status.Running?
      modifies `status, `disconnect
      ensures Valid() && State() == Finish(old(State()), false, idle)
    {
      hide Valid, State;
      StatusOfState();
      if sendOver && recvOver {
        SetStatus(PreClosed);
      }
      if idle {
        Disconnect();
      }
    }

    method SetStatus(st: Status)
      requires Valid()
      modifies `status
      ensures Valid() && State() == old(State()).(status := st)
    {
      hide Valid, Arriving, Line, Leaving;
      status := st;
    }

    method OnClosed()
      requires Valid()
      modifies `closings
      ensures Valid() && State() == old(State()).(closings := old(closings) + 1) && closings == old(closings) + 1
    {
      hide Valid, Arriving, Line, Leaving;
      closings := closings + 1;
    }

    /** Receiving and sending. */
    method Transfer(recvs: seq<RecvAnswer>, sends: seq<SendAnswer>)
      requires Valid() && RxValid() && RxOk(Arriving().rx)
      modifies `msgRecv, `pushed, `disconnect, `recvOver, `sendOver, `rdReady, `wrReady, `status, `hist
      modifies `queSend, `msgSend, `sendLen, header, recvPool, recvPool.live, sendPool`recycle, sendPool`out
      ensures Valid() && State() == LinuxSession.PostSend(LinuxSession.PostRecv(old(State()), recvs), sends)
      ensures fresh(recvPool.live - old(recvPool.live)) && old(recvPool.live) <= recvPool.live && sendPool.live == old(sendPool.live)
      ensures RxValid() && Leaving().others == old(Leaving()).others
      ensures sendPool.recycle + Blocks() == old(sendPool.recycle + Blocks())
      ensures old(hist).received <= hist.received
      ensures Arriving() == Receive(old(Arriving()), this, hist.received[|old(hist).received|..])
      ensures old(Line()) <= Line()
    {
      hide Valid, State, LinuxSession.PostRecv, LinuxSession.PostSend, RxValid, RxOk, Arriving, Line, Leaving, Receive;
      Parts();
      PostRecv(recvs);
      PostSend(sends);
    }

    /** The calls of `Update` that change what the logic thread alone holds. */
    method Work(recvs: seq<RecvAnswer>, sends: seq<SendAnswer>, shouldClose: bool, idle: bool)
      requires Valid() && RxValid() && RxOk(Arriving().rx)
      modifies `msgRecv, `pushed, `disconnect, `recvOver, `sendOver, `rdReady, `wrReady, `status, `hist, `closings
      modifies `queSend, `msgSend, `sendLen, header, recvPool, recvPool.live, sendPool`recycle, sendPool`out
      ensures Valid() && State() == Body(old(State()), shouldClose, recvs, sends, idle)
      ensures fresh(recvPool.live - old(recvPool.live)) && old(recvPool.live) <= recvPool.live && sendPool.live == old(sendPool.live)
      ensures RxValid() && Leaving().others == old(Leaving()).others
      ensures sendPool.recycle + Blocks() == old(sendPool.recycle + Blocks())
      ensures old(hist).received <= hist.received
      ensures Arriving() == Receive(old(Arriving()), this, hist.received[|old(hist).received|..])
      ensures old(Line()) <= Line()
    {
      hide Valid, State, LinuxSession.PostRecv, LinuxSession.PostSend, Finish, RxValid, RxOk, Arriving, Line, Leaving, Receive;
      Transfer(recvs, sends);
      Close(shouldClose, idle);
    }

    /** A running session that is not armed is registered with epoll. */
    method Arm()
      requires Valid()
      modifies `inEpoll, `registrations
      ensures Valid() && State() == old(State()) && inEpoll == (old(inEpoll) || status.Running?)
      ensures registrations == old(registrations) + (if !old(inEpoll) && status.Running? then 1 else 0)
    {
      hide Valid, State;
      if !inEpoll && status.Running? {
        registrations := registrations + 1;
        inEpoll := true;
      }
    }

    /** `Update` under the mutex, up to arming. */
    method Turn(recvs: seq<RecvAnswer>, sends: seq<SendAnswer>, idle: bool)
      requires Valid() && RxValid() && RxOk(Arriving().rx)
      modifies this, header, recvPool, recvPool.live, sendPool`recycle, sendPool`out
      ensures Valid() && events == NO_EVENTS && inEpoll == old(inEpoll) && registrations == old(registrations)
      ensures State() == Body(Ready(old(State()), old(events)), Closing(old(events)), recvs, sends, idle)
      ensures fresh(recvPool.live - old(recvPool.live)) && old(recvPool.live) <= recvPool.live && sendPool.live == old(sendPool.live)
      ensures RxValid() && Leaving().others == old(Leaving()).others
      ensures sendPool.recycle + Blocks() == old(sendPool.recycle + Blocks())
      ensures old(hist).received <= hist.received
      ensures Arriving() == Receive(old(Arriving()), this, hist.received[|old(hist).received|..])
      ensures old(Line()) <= Line()
    {
      hide Valid, State, Body, Ready, Closing, RxValid, RxOk, Arriving, Line, Leaving, Receive;
      var shouldClose := TakeEvents();
      Work(recvs, sends, shouldClose, idle);
    }

    /** `Update` under the mutex. */
    method UpdateLocked(recvs: seq<RecvAnswer>, sends: seq<SendAnswer>, idle: bool)
      requires Valid() && RxValid() && RxOk(Arriving().rx)
      modifies this, header, recvPool, recvPool.live, sendPool`recycle, sendPool`out
      ensures Valid() && events == NO_EVENTS
      ensures var c := Body(Ready(old(State()), old(events)), Closing(old(events)), recvs, sends, idle);
              && State() == c && inEpoll == (old(inEpoll) || c.status.Running?)
              && registrations == old(registrations) + (if !old(inEpoll) && c.status.Running? then 1 else 0)
      ensures fresh(recvPool.live - old(recvPool.live)) && old(recvPool.live) <= recvPool.live && sendPool.live == old(sendPool.live)
      ensures RxValid() && Leaving().others == old(Leaving()).others
      ensures sendPool.recycle + Blocks() == old(sendPool.recycle + Blocks())
      ensures old(hist).received <= hist.received
      ensures Arriving() == Receive(old(Arriving()), this, hist.received[|old(hist).received|..])
      ensures old(Line()) <= Line()
    {
      hide Valid, State, Body, Ready, Closing, RxValid, RxOk, Arriving, Line, Leaving, Receive;
      Turn(recvs, sends, idle);
      StatusOfState();
      Arm();
    }

    /** `Update`: nothing when the mutex is taken, and otherwise one run of the state machine's update; the
        socket is armed again exactly when the session is still running and not armed. Only what the socket
        delivers is added to the packets waiting, and nothing others hold of the pools is touched. */
    method Update(gotLock: bool, recvs: seq<RecvAnswer>, sends: seq<SendAnswer>, idle: bool)
      requires Valid()
      modifies this, header, recvPool, recvPool.live, sendPool`recycle, sendPool`out
      ensures Valid()
      ensures !gotLock ==> State() == old(State()) && events == old(events) && inEpoll == old(inEpoll)
      ensures gotLock ==>
                var c := Body(Ready(old(State()), old(events)), Closing(old(events)), recvs, sends, idle);
                && State() == c && events == NO_EVENTS && inEpoll == (old(inEpoll) || c.status.Running?)
                && registrations == old(registrations) + (if !old(inEpoll) && c.status.Running? then 1 else 0)
      ensures fresh(recvPool.live - old(recvPool.live)) && old(recvPool.live) <= recvPool.live && sendPool.live == old(sendPool.live)
      ensures RxValid() && RxOk(old(Arriving()).rx)
      ensures Leaving().others == old(Leaving()).others
      ensures sendPool.recycle + Blocks() == old(sendPool.recycle + Blocks())
      ensures old(hist).received <= hist.received
      ensures Arriving() == Receive(old(Arriving()), this, hist.received[|old(hist).received|..])
      ensures old(Line()) <= Line()
    {
      hide Valid, State, Body, Ready, Closing, RxValid, Arriving, Line, Leaving, Receive;
      Parts();
      if !gotLock {
        ReceiveNothing(Arriving(), this);
        assert hist.received[|hist.received|..] == [];
        return;
      }
      UpdateLocked(recvs, sends, idle);
    }

    lemma StatusOfState()
      requires Valid()
      ensures State().status == status && State().sendOver == sendOver && State().recvOver == recvOver
      ensures State().closings == closings && State().disconnect == disconnect
      ensures State().rdReady == rdReady && State().wrReady == wrReady
    {
    }

    /** The callback of the poller thread. */
    method SessionCallback(ev: Events)
      requires Valid()
      modifies `events, `inEpoll
      ensures Valid() && State() == old(State()) && events == ev && !inEpoll
    {
      hide Valid, State;
      events := ev;
      inEpoll := false;
    }

    /** A packet under construction is deleted. */
    method DropPacket()
      requires RxValid()
      modifies `msgRecv, recvPool`out, recvPool`live
      ensures RxValid() && msgRecv == null && recvPool.Others(this) == old(recvPool.Others(this))
      ensures recvPool.live == old(recvPool.live) - (if old(msgRecv) == null then {} else {old(msgRecv)})
    {
      hide MessageQueue.Valid, MessageQueue.Others;
      RxMembers();
      if msgRecv != null {
        recvPool.Discard(msgRecv);
        msgRecv := null;
      }
    }

    /** The block being sent goes back to the pool. */
    method ReturnBlock()
      requires TxValid()
      modifies `msgSend, `sendLen, sendPool`recycle, sendPool`out
      ensures TxValid() && msgSend == null && sendPool.Others(this) == old(sendPool.Others(this))
      ensures sendPool.live == old(sendPool.live)
      ensures sendPool.recycle == old(sendPool.recycle) + (if old(msgSend) == null then [] else [old(msgSend)])
    {
      hide TxValid, Packets;
      if msgSend != null {
        FinishBlock();
      }
    }

    /** The destructor. Queued blocks stay where they are: they are what the session still holds of either
        pool when it is gone. */
    method Destroy()
      requires Valid()
      modifies `msgRecv, `msgSend, `sendLen, recvPool`out, recvPool`live, sendPool`recycle, sendPool`out
      ensures recvPool.Valid() && sendPool.Valid()
      ensures recvPool.live == old(recvPool.live) - (if old(msgRecv) == null then {} else {old(msgRecv)})
      ensures sendPool.live == old(sendPool.live)
      ensures sendPool.recycle == old(sendPool.recycle) + (if old(msgSend) == null then [] else [old(msgSend)])
      ensures recvPool.Others(this) == old(recvPool.Others(this)) && sendPool.Others(this) == old(sendPool.Others(this))
      ensures Letters(recvPool.waiting) == old(Letters(recvPool.waiting))
      ensures forall m | m in recvPool.out :: recvPool.out[m] != this
      ensures forall m :: m in sendPool.out && sendPool.out[m] == this <==> m in queSend
    {
      hide MessageQueue.Valid, MessageQueue.Others, Letters, NoDup, QueueOk, RxOk, Packets;
      Parts();
      hide Valid;
      DropPacket();
      TxMembers();
      ReturnBlock();
    }

    lemma CurOfLeaving()
      ensures Leaving().tx.cur.None? <==> msgSend == null
      ensures Leaving().tx.queue == [] <==> queSend == []
    {
    }

    lemma Parts()
      requires Valid()
      ensures RxValid() && RxOk(Arriving().rx) && TxValid()
      ensures recvPool != sendPool && recvPool.live !! sendPool.live && header !in sendPool.live
      ensures (forall m | m in queSend :: m in sendPool.live) && (msgSend != null ==> msgSend in sendPool.live)
      ensures (forall m | m in recvPool.waiting :: m in recvPool.live) && (msgRecv != null ==> msgRecv in recvPool.live)
      ensures State() == Core(status, rdReady, wrReady, disconnect, sendOver, recvOver, Leaving().tx, Arriving().rx, hist, closings)
    {
    }

    lemma RxMembers(open: bool := true)
      requires RxValid(open)
      ensures forall m | m in recvPool.waiting :: m in recvPool.live
      ensures forall m | m in recvPool.recycle :: m in recvPool.live
      ensures msgRecv != null ==> msgRecv in recvPool.live
    {
    }

    lemma TxMembers()
      requires TxValid()
      ensures forall m | m in queSend :: m in sendPool.live && m !in sendPool.recycle
      ensures forall m | m in sendPool.recycle :: m in sendPool.live
      ensures msgSend != null ==> msgSend in sendPool.live && msgSend !in sendPool.recycle
    {
    }
  }

  lemma ParsedBy(v: RxSide, sender: object?, bytes: seq<byte>)
    requires RxOk(v.rx)
    ensures Receive(v, sender, bytes).rx == RxAll(v.rx, bytes)
  {
  }

  /** What a loop did that had been given `got` before. */
  function Before(got: seq<byte>, r: Got): Got { r.(bytes := got + r.bytes) }

  /** One turn of the loop of `_post_recv`. */
  lemma RecvLoopStep(rx: Rx, answers: seq<RecvAnswer>, got: seq<byte>)
    requires RxOk(rx)
    ensures Before(got, RecvLoop(rx, answers)) ==
              if answers == [] then Got(rx, got, Blocked)
              else match answers[0]
                case Data(bytes) =>
                  if |bytes| == BLOCK then Before(got + bytes, RecvLoop(RxAll(rx, bytes), answers[1..]))
                  else Got(RxAll(rx, bytes), got + bytes, Done)
                case RecvBlocked => Got(rx, got, Blocked)
                case RecvInterrupted => Before(got, RecvLoop(rx, answers[1..]))
                case RecvFailed => Got(rx, got, Failed)
                case EndOfStream => Got(rx, got, Ended)
  {
    assert got + [] == got;
    if answers != [] && answers[0].Data? {
      var rest := RecvLoop(RxAll(rx, answers[0].bytes), answers[1..]);
      Assoc(got, answers[0].bytes, rest.bytes);
    }
  }

  /** What a loop did that had taken `taken` before. */
  function After(taken: seq<byte>, r: Drained): Drained { r.(bytes := taken + r.bytes) }

  /** One turn of the loop of `_post_send`. */
  lemma SendLoopStep(tx: Tx, answers: seq<SendAnswer>, taken: seq<byte>)
    requires TxOk(tx)
    ensures var picked := PickBlock(tx);
            After(taken, SendLoop(tx, answers)) ==
              if picked.cur.None? then Drained(picked, taken, Done)
              else if answers == [] then Drained(picked, taken, Blocked)
              else var s := SendOnce(picked, answers[0]);
                   if s.stop.Some? then Drained(s.tx, taken + s.bytes, s.stop.value)
                   else After(taken + s.bytes, SendLoop(s.tx, answers[1..]))
  {
    var picked := PickBlock(tx);
    assert taken + [] == taken;
    if picked.cur.Some? && answers != [] {
      var s := SendOnce(picked, answers[0]);
      if s.stop.None? {
        Assoc(taken, s.bytes, SendLoop(s.tx, answers[1..]).bytes);
      }
    }
  }

  lemma PacketsTail(ms: seq<Message>)
    requires ms != []
    ensures Packets(ms[1..]) == Packets(ms)[1..] && Packets(ms)[0] == ms[0].Contents()
  {
  }

  /** Filling the tail block, opened first when there is no room, is `FillTail`. */
  lemma TailFilled(q: seq<seq<byte>>, withTail: seq<seq<byte>>, bytes: seq<byte>)
    requires QueueOk(q) && bytes != []
    requires withTail == if q == [] || |q[|q| - 1]| == BLOCK then q + [[]] else q
    ensures var last := withTail[|withTail| - 1];
            && BLOCK - |last| == Room(q)
            && var k := Min(Room(q), |bytes|);
               FillTail(q, bytes[..k]) == withTail[..|withTail| - 1] + [last + bytes[..k]]
  {
    if withTail != q {
      assert (q + [[]])[..|q|] == q;
      assert forall x: seq<byte> :: [] + x == x;
    }
  }

  lemma AppendNothing(q: seq<seq<byte>>, data: seq<byte>)
    requires QueueOk(q)
    ensures Append(q, data, 0, AsWritten) == q
  {
  }

  lemma AppendStep(q: seq<seq<byte>>, data: seq<byte>, size: nat)
    requires QueueOk(q) && 0 < size <= |data|
    ensures var k := Min(Room(q), size);
            Append(q, data, size, AsWritten) == Append(FillTail(q, data[..size][..k]), data, size - k, AsWritten)
  {
    assert data[..size][..Min(Room(q), size)] == data[..Min(Room(q), size)];
  }

  lemma PacketsLast(ms: seq<Message>, m: Message)
    ensures Packets(ms + [m]) == Packets(ms) + [m.Contents()]
  {
    assert (ms + [m])[..|ms|] == ms;
  }
}
