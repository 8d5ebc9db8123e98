/** What the answers of a socket come to, told from the answers alone: which calls of `recv` and `send` are
    made, how many bytes cross, and from that what an update of a session does and when it closes. */
module SocketAnswers {
  import opened Bytes
  import opened Framing
  import opened LinuxSession

  // ---------- receiving ----------

  /** After a full block and after an interrupted call the next call is made. */
  predicate GoesOn(a: RecvAnswer) { a.RecvInterrupted? || (a.Data? && |a.bytes| == BLOCK) }

  /** How many calls are made. */
  function RecvCalls(answers: seq<RecvAnswer>): (n: nat)
    ensures n <= |answers| && (n == 0 <==> answers == [])
  {
    if answers == [] then 0
    else if GoesOn(answers[0]) then 1 + RecvCalls(answers[1..])
    else 1
  }

  /** All answers but the last one met go on, and the last one does only if it is the last there is. */
  lemma {:induction false} CallsMet(answers: seq<RecvAnswer>)
    ensures var n := RecvCalls(answers);
            && (forall i | 0 <= i < n - 1 :: GoesOn(answers[i]))
            && (n < |answers| ==> n > 0 && !GoesOn(answers[n - 1]))
  {
    if answers != [] && GoesOn(answers[0]) {
      CallsMet(answers[1..]);
      assert forall i | 0 < i < |answers| :: answers[i] == answers[1..][i - 1];
    }
  }

  /** The bytes that answers bring. */
  function Brought(answers: seq<RecvAnswer>): seq<byte> {
    if answers == [] then [] else (if answers[0].Data? then answers[0].bytes else []) + Brought(answers[1..])
  }

  /** How the calls end: as the last one met says, or as if the next would block when the answers run out. */
  function RecvEnd(answers: seq<RecvAnswer>): End {
    if answers == [] then Blocked
    else if GoesOn(answers[0]) then RecvEnd(answers[1..])
    else match answers[0]
      case Data(_) => Done
      case RecvBlocked => Blocked
      case RecvFailed => Failed
      case _ => Ended
  }

  lemma BroughtFirst(answers: seq<RecvAnswer>)
    requires answers != []
    ensures Brought(answers[..RecvCalls(answers)]) ==
              (if answers[0].Data? then answers[0].bytes else [])
              + (if GoesOn(answers[0]) then Brought(answers[1..][..RecvCalls(answers[1..])]) else [])
  {
    var n := RecvCalls(answers);
    assert answers[..n][0] == answers[0] && answers[..n][1..] == answers[1..][..n - 1];
  }

  /** The loop of `_post_recv` parses exactly what the calls it makes bring. */
  lemma {:induction false} RecvLoopExactly(rx: Rx, answers: seq<RecvAnswer>)
    requires RxOk(rx)
    ensures var r := RecvLoop(rx, answers);
            && r.bytes == Brought(answers[..RecvCalls(answers)]) && r.end == RecvEnd(answers)
            && r.rx == RxAll(rx, r.bytes)
    decreases |answers|
  {
    RecvLoopParses(rx, answers);
    if answers != [] {
      BroughtFirst(answers);
      hide RxOk, RxAll, Brought, RecvCalls;
      if GoesOn(answers[0]) {
        RecvLoopExactly(if answers[0].Data? then RxAll(rx, answers[0].bytes) else rx, answers[1..]);
      }
    }
  }

  // ---------- sending ----------

  function Lengths(q: seq<seq<byte>>): (r: seq<nat>)
    ensures |r| == |q| && forall i | 0 <= i < |q| :: r[i] == |q[i]|
  {
    seq(|q|, i requires 0 <= i < |q| => |q[i]|)
  }

  /** How much is left of each block, the current one first. */
  function Rests(tx: Tx): seq<nat>
    requires TxOk(tx)
  {
    (if tx.cur.Some? then [|tx.cur.value| - tx.sent] else []) + Lengths(tx.queue)
  }

  /** What the calls of `send` offer, as long as there is something to offer: the rest of a block; the next one
      when that was taken in full; the same after an interrupted call; and nothing after any other answer. */
  function Offers(rests: seq<nat>, answers: seq<SendAnswer>): (r: seq<nat>)
    ensures |r| <= |answers|
    decreases |answers|
  {
    if rests == [] || answers == [] then []
    else
      [rests[0]] + (match answers[0]
                    case Took(n) => if n >= rests[0] then Offers(rests[1..], answers[1..]) else []
                    case SendInterrupted => Offers(rests, answers[1..])
                    case _ => [])
  }

  /** What calls take: as many bytes as the socket reports, up to what was offered. */
  function Taken(offers: seq<nat>, answers: seq<SendAnswer>): nat
    requires |offers| <= |answers|
    decreases |offers|
  {
    if offers == [] then 0
    else (if answers[0].Took? then Min(answers[0].n, offers[0]) else 0) + Taken(offers[1..], answers[1..])
  }

  /** How the calls end. */
  function SendEnd(rests: seq<nat>, answers: seq<SendAnswer>): End
    decreases |answers|
  {
    if rests == [] then Done
    else if answers == [] then Blocked
    else match answers[0]
      case Took(n) => if n >= rests[0] then SendEnd(rests[1..], answers[1..]) else Done
      case SendBlocked => Blocked
      case SendInterrupted => SendEnd(rests, answers[1..])
      case SendFailed => Failed
  }

  /** One call takes what the socket reports of what it is offered, from the front, and any other answer
      takes nothing; a block taken in full gives way to the next, and a short count ends the loop. */
  lemma SendOnceExactly(tx: Tx, answer: SendAnswer)
    requires TxOk(tx) && tx.cur.Some?
    ensures var r, rest := SendOnce(tx, answer), |tx.cur.value| - tx.sent;
            match answer
            case Took(n) =>
              && r.bytes == Unsent(tx)[..Min(n, rest)] && |r.bytes| == Min(n, rest)
              && r.stop == (if n >= rest then None else Some(Done))
              && Rests(r.tx) == (if n >= rest then [] else [rest - n]) + Rests(tx)[1..]
            case SendBlocked => r == Sent(tx, [], Some(Blocked))
            case SendInterrupted => r == Sent(tx, [], None)
            case SendFailed => r == Sent(tx, [], Some(Failed))
  {
    assert Rests(tx)[1..] == Lengths(tx.queue);
  }

  lemma PickRests(tx: Tx)
    requires TxOk(tx)
    ensures Rests(PickBlock(tx)) == Rests(tx) && (PickBlock(tx).cur.None? <==> Rests(tx) == [])
  {
    if tx.cur.None? && tx.queue != [] {
      assert Lengths(tx.queue) == [|tx.queue[0]|] + Lengths(tx.queue[1..]);
    }
  }

  /** One turn of the loop, in numbers. */
  lemma OfferFirst(rests: seq<nat>, answers: seq<SendAnswer>, k: nat, rests': seq<nat>, stop: Option<End>)
    requires rests != [] && answers != []
    requires match answers[0]
             case Took(n) =>
               && k == Min(n, rests[0]) && stop == (if n >= rests[0] then None else Some(Done))
               && (n >= rests[0] ==> rests' == rests[1..])
             case SendBlocked => k == 0 && stop == Some(Blocked)
             case SendInterrupted => k == 0 && stop == None && rests' == rests
             case SendFailed => k == 0 && stop == Some(Failed)
    ensures Taken(Offers(rests, answers), answers)
              == k + (if stop.None? then Taken(Offers(rests', answers[1..]), answers[1..]) else 0)
    ensures SendEnd(rests, answers) == if stop.None? then SendEnd(rests', answers[1..]) else stop.value
  {
    var offers := Offers(rests, answers);
    assert offers[0] == rests[0];
    assert offers[1..] == if stop.None? then Offers(rests', answers[1..]) else [];
  }

  lemma {:induction false} SendLoopCounts(tx: Tx, answers: seq<SendAnswer>)
    requires TxOk(tx)
    ensures var r := SendLoop(tx, answers);
            |r.bytes| == Taken(Offers(Rests(tx), answers), answers) && r.end == SendEnd(Rests(tx), answers)
    decreases |answers|
  {
    PickRests(tx);
    var picked := PickBlock(tx);
    if picked.cur.Some? && answers != [] {
      hide PickBlock, Unsent, SendEnd, Taken, Offers;
      SendOnceExactly(picked, answers[0]);
      var s := SendOnce(picked, answers[0]);
      assert Rests(tx)[0] == |picked.cur.value| - picked.sent;
      OfferFirst(Rests(tx), answers, |s.bytes|, Rests(s.tx), s.stop);
      if s.stop.None? {
        SendLoopCounts(s.tx, answers[1..]);
      }
    }
  }

  /** The loop of `_post_send` takes exactly what its calls take, from the front of what is unsent. */
  lemma SendLoopExactly(tx: Tx, answers: seq<SendAnswer>)
    requires TxOk(tx)
    ensures var r, n := SendLoop(tx, answers), Taken(Offers(Rests(tx), answers), answers);
            && n <= |Unsent(tx)| && r.bytes == Unsent(tx)[..n] && Unsent(r.tx) == Unsent(tx)[n..]
            && r.end == SendEnd(Rests(tx), answers)
  {
    SendLoopCounts(tx, answers);
    var r := SendLoop(tx, answers);
    assert Unsent(tx) == r.bytes + Unsent(r.tx);
  }

  /** All that answers report, an upper bound of what is taken. */
  function Reported(answers: seq<SendAnswer>): nat {
    if answers == [] then 0 else (if answers[0].Took? then answers[0].n else 0) + Reported(answers[1..])
  }

  lemma {:induction false} TakenReported(offers: seq<nat>, answers: seq<SendAnswer>)
    requires |offers| <= |answers|
    ensures Taken(offers, answers) <= Reported(answers)
    decreases |offers|
  {
    if offers != [] {
      TakenReported(offers[1..], answers[1..]);
    }
  }

  // ---------- an update, told from the readiness word and the answers ----------

  predicate Reads(c: Core, ev: Events) { c.status.Running? && !c.recvOver && (c.rdReady || ev.rd || ev.hup) }

  /** The bytes an update receives. */
  function Heard(c: Core, ev: Events, recvs: seq<RecvAnswer>): seq<byte> {
    if Reads(c, ev) then Brought(recvs[..RecvCalls(recvs)]) else []
  }

  predicate RecvBreaks(c: Core, ev: Events, recvs: seq<RecvAnswer>) { Reads(c, ev) && RecvEnd(recvs).Failed? }

  /** Whether the session is to be shut down: it was before, the peer is done, or what it sent makes no sense. */
  predicate HangsUp(c: Core, ev: Events, recvs: seq<RecvAnswer>)
    requires RxOk(c.rx)
  {
    || c.disconnect
    || (Reads(c, ev) && (RecvEnd(recvs).Ended? || (Heard(c, ev, recvs) != [] && Dead(RxAll(c.rx, Heard(c, ev, recvs))))))
  }

  predicate Writes(c: Core, ev: Events, recvs: seq<RecvAnswer>)
    requires TxOk(c.tx)
  {
    && c.status.Running? && !RecvBreaks(c, ev, recvs) && !c.sendOver && (c.wrReady || ev.wr) && Rests(c.tx) != []
  }

  /** How many bytes an update sends. */
  function Gone(c: Core, ev: Events, recvs: seq<RecvAnswer>, sends: seq<SendAnswer>): nat
    requires TxOk(c.tx)
  {
    if Writes(c, ev, recvs) then Taken(Offers(Rests(c.tx), sends), sends) else 0
  }

  predicate SendBreaks(c: Core, ev: Events, recvs: seq<RecvAnswer>, sends: seq<SendAnswer>)
    requires TxOk(c.tx)
  {
    Writes(c, ev, recvs) && SendEnd(Rests(c.tx), sends).Failed?
  }

  /** Receiving. */
  lemma UpdateReceives(c: Core, ev: Events, recvs: seq<RecvAnswer>, sends: seq<SendAnswer>, idle: bool)
    requires TxOk(c.tx) && RxOk(c.rx)
    ensures var r := Body(Ready(c, ev), Closing(ev), recvs, sends, idle);
            && r.hist.received == c.hist.received + Heard(c, ev, recvs) && r.rx == RxAll(c.rx, Heard(c, ev, recvs))
            && r.recvOver == (c.recvOver || (Reads(c, ev) && RecvEnd(recvs).Ended?))
            && r.rdReady == ((c.rdReady || ev.rd || ev.hup) && !(Reads(c, ev) && RecvEnd(recvs).Blocked?))
  {
    PostRecvExactly(c, ev, recvs);
    hide RecvEnd, Brought, RecvCalls, PostRecv, SendLoop, TxOk, RxOk, RxAll, Dead, Reads;
  }

  /** `_post_recv` after the readiness word was read. */
  lemma PostRecvExactly(c: Core, ev: Events, recvs: seq<RecvAnswer>)
    requires TxOk(c.tx) && RxOk(c.rx)
    ensures var r := PostRecv(Ready(c, ev), recvs);
            && r.hist == c.hist.(received := c.hist.received + Heard(c, ev, recvs)) && r.rx == RxAll(c.rx, Heard(c, ev, recvs))
            && r.recvOver == (c.recvOver || (Reads(c, ev) && RecvEnd(recvs).Ended?))
            && r.rdReady == ((c.rdReady || ev.rd || ev.hup) && !(Reads(c, ev) && RecvEnd(recvs).Blocked?))
            && r.wrReady == (c.wrReady || ev.wr) && r.disconnect == HangsUp(c, ev, recvs)
            && r.status == (if RecvBreaks(c, ev, recvs) then Error else c.status)
            && r.tx == c.tx && r.sendOver == c.sendOver && r.closings == c.closings
  {
    RecvLoopExactly(c.rx, recvs);
    hide RecvEnd, Brought, RecvCalls, RecvLoop, TxOk, RxOk, Dead;
    assert c.hist.received + [] == c.hist.received;
  }

  /** Sending: bytes leave from the front of what is unsent; with nothing unsent a session that is to be shut
      down is, once. */
  lemma UpdateSends(c: Core, ev: Events, recvs: seq<RecvAnswer>, sends: seq<SendAnswer>, idle: bool)
    requires TxOk(c.tx) && RxOk(c.rx)
    ensures var r, n := Body(Ready(c, ev), Closing(ev), recvs, sends, idle), Gone(c, ev, recvs, sends);
            var shut := Rests(c.tx) == [] && HangsUp(c, ev, recvs) && !c.sendOver;
            && n <= |Unsent(c.tx)| && r.hist.taken == c.hist.taken + Unsent(c.tx)[..n] && Unsent(r.tx) == Unsent(c.tx)[n..]
            && r.hist.shutdowns == c.hist.shutdowns + (if shut then 1 else 0) && r.sendOver == (c.sendOver || shut)
            && r.wrReady == ((c.wrReady || ev.wr) && !(Writes(c, ev, recvs) && SendEnd(Rests(c.tx), sends).Blocked?))
            && r.hist.accepted == c.hist.accepted && r.hist.stored == c.hist.stored
  {
    PostRecvExactly(c, ev, recvs);
    PostSendExactly(PostRecv(Ready(c, ev), recvs), sends);
    hide PostRecv, PostSend, SendEnd, Taken, Offers, Rests, TxOk, RxOk, RxAll, Unsent, Ready, Heard, HangsUp, RecvBreaks;
  }

  lemma PostSendExactly(c: Core, sends: seq<SendAnswer>)
    requires TxOk(c.tx)
    ensures var r, none := PostSend(c, sends), Rests(c.tx) == [];
            var writes := c.status.Running? && !c.sendOver && c.wrReady && !none;
            var n, shut := if writes then Taken(Offers(Rests(c.tx), sends), sends) else 0, none && c.disconnect && !c.sendOver;
            && n <= |Unsent(c.tx)| && r.hist.taken == c.hist.taken + Unsent(c.tx)[..n]
            && Unsent(r.tx) == Unsent(c.tx)[n..]
            && r.hist.shutdowns == c.hist.shutdowns + (if shut then 1 else 0) && r.sendOver == (c.sendOver || shut)
            && r.wrReady == (c.wrReady && !(writes && SendEnd(Rests(c.tx), sends).Blocked?))
            && r.status == (if writes && SendEnd(Rests(c.tx), sends).Failed? then Error else c.status)
            && r.hist.accepted == c.hist.accepted && r.hist.stored == c.hist.stored
            && r.disconnect == c.disconnect && r.recvOver == c.recvOver && r.rdReady == c.rdReady && r.closings == c.closings
  {
    hide SendLoop, SendEnd, Taken, Offers, Unsent, QueueOk;
    PickRests(c.tx);
    SendLoopExactly(c.tx, sends);
    assert Unsent(c.tx)[..0] == [] && Unsent(c.tx)[0..] == Unsent(c.tx) && c.hist.taken + [] == c.hist.taken;
    assert Rests(c.tx) == [] <==> c.tx.cur.None? && c.tx.queue == [];
  }

  /** Closing: a running session goes on unless a closing event came in, a call failed, or both directions are
      over; a pre-closed one is closed unless a closing event came in. */
  lemma UpdateCloses(c: Core, ev: Events, recvs: seq<RecvAnswer>, sends: seq<SendAnswer>, idle: bool)
    requires TxOk(c.tx) && RxOk(c.rx) && !c.status.Error?
    ensures var r := Body(Ready(c, ev), Closing(ev), recvs, sends, idle);
            var closing, broken := ev.err || ev.hup || ev.rdhup, RecvBreaks(c, ev, recvs) || SendBreaks(c, ev, recvs, sends);
            && (c.status.Running? ==>
                  r.status == if closing || broken || (r.sendOver && r.recvOver) then PreClosed else Running)
            && (c.status.PreClosed? ==> r.status == if closing then PreClosed else Closed)
            && r.closings == c.closings + (if c.status.PreClosed? && !closing then 1 else 0)
            && r.disconnect == (HangsUp(c, ev, recvs) || (c.status.Running? && !closing && !broken && idle))
  {
    PostRecvExactly(c, ev, recvs);
    PostSendExactly(PostRecv(Ready(c, ev), recvs), sends);
    hide PostRecv, PostSend, SendEnd, Taken, Offers, Rests, TxOk, RxOk, RxAll, Unsent, Ready, Heard, HangsUp, RecvBreaks, Reads;
  }
}
