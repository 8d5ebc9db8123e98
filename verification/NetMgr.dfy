/** The sessions of a server on the two pools they share, with the driver that updates and deletes them and
    the logic loop that takes their packets. However their calls interleave, every session does what it
    would do alone. */
module NetMgrs {
  import opened Bytes
  import opened Framing
  import opened LinuxSession
  import opened Messages
  import opened Servers
  import opened Sessions

  // ---------- what others do to a session: nothing ----------

  /** What a message holds, as its holder sees it. */
  ghost function PacketOf(h: Holding): seq<byte> { if h.currLen <= |h.block| then h.block[..h.currLen] else h.block }

  ghost predicate HeldBy(held: map<Message, Holding>, m: Message, holder: object?) {
    m in held && held[m].holder == holder && held[m].currLen <= held[m].dataLen <= |held[m].block|
  }

  /** The messages of `holder` are among those that `caller` does not hold. */
  lemma HeldByOthers(pool: MessageQueue, caller: object?, holder: object?, m: Message)
    requires caller != holder
    ensures var held := pool.Others(caller);
            && HeldBy(held, m, holder) == (m in pool.live && m in pool.out && pool.out[m] == holder && m.Valid())
            && (HeldBy(held, m, holder) ==>
                  && m in held && PacketOf(held[m]) == m.Contents()
                  && held[m].dataLen == m.dataLen && held[m].currLen == m.currLen)
  {
  }

  /** All a holder has of a pool is seen by anybody else. */
  lemma AllHeld(pool: MessageQueue, caller: object?, holder: object?)
    requires pool.Valid() && caller != holder
    ensures forall m | m in pool.Others(caller) && pool.Others(caller)[m].holder == holder :: m in pool.out && pool.out[m] == holder
    ensures forall m | m in pool.out && pool.out[m] == holder :: m in pool.Others(caller) && pool.Others(caller)[m].holder == holder
  {
    hide NoDup, Message.Valid, Message.Bounded;
  }

  ghost function PacketsIn(held: map<Message, Holding>, ms: seq<Message>): (ps: seq<seq<byte>>)
    requires forall m | m in ms :: m in held
    ensures |ps| == |ms| && forall i | 0 <= i < |ms| :: ps[i] == PacketOf(held[ms[i]])
  {
    seq(|ms|, i requires 0 <= i < |ms| => PacketOf(held[ms[i]]))
  }

  /** The receive side of a session told from its header and what is held of the pool. */
  ghost predicate RxFits(s: Session, held: map<Message, Holding>)
    reads s`msgRecv, s.header
  {
    && s.header.Valid() && s.header.dataLen == HEADER
    && (s.msgRecv != null ==>
          && s.header.Full() && HeldBy(held, s.msgRecv, s)
          && 2 <= held[s.msgRecv].dataLen <= MAX_PACKET && held[s.msgRecv].dataLen != held[s.msgRecv].currLen)
    && (forall m | m in held && held[m].holder == s :: m == s.msgRecv)
  }

  ghost function RxIn(s: Session, held: map<Message, Holding>): Rx
    requires RxFits(s, held)
    reads s`msgRecv, s`pushed, s.header
  {
    Rx(s.header.Contents(),
       if s.msgRecv == null then None else Some(Partial(held[s.msgRecv].dataLen, PacketOf(held[s.msgRecv]))), s.pushed)
  }

  lemma RxTold(s: Session, caller: object?)
    requires s.recvPool.Valid() && s.header !in s.recvPool.live && caller != s
    ensures s.RxValid() <==> RxFits(s, s.recvPool.Others(caller))
    ensures s.RxValid() ==> s.Arriving().rx == RxIn(s, s.recvPool.Others(caller))
  {
    hide MessageQueue.Valid, MessageQueue.Others, Letters, HeldBy, PacketOf;
    AllHeld(s.recvPool, caller, s);
    if s.msgRecv != null {
      HeldByOthers(s.recvPool, caller, s, s.msgRecv);
    }
  }

  /** The send side, likewise. */
  ghost predicate TxFits(s: Session, held: map<Message, Holding>)
    reads s`queSend, s`msgSend, s`sendLen
  {
    && NoDup(s.queSend)
    && (forall m | m in s.queSend :: m in held && HeldBy(held, m, s) && held[m].dataLen == BLOCK)
    && (forall i | 0 <= i < |s.queSend| - 1 :: s.queSend[i] in held && held[s.queSend[i]].currLen == BLOCK)
    && (s.queSend != [] ==>
          s.queSend[|s.queSend| - 1] in held && held[s.queSend[|s.queSend| - 1]].currLen > 0)
    && (s.msgSend == null ==> s.sendLen == 0)
    && (s.msgSend != null ==> HeldBy(held, s.msgSend, s) && s.msgSend !in s.queSend && s.sendLen < held[s.msgSend].currLen)
    && (forall m | m in held && held[m].holder == s :: m in s.queSend || m == s.msgSend)
  }

  ghost function TxIn(s: Session, held: map<Message, Holding>): Tx
    requires TxFits(s, held)
    reads s`queSend, s`msgSend, s`sendLen
  {
    Tx(PacketsIn(held, s.queSend), if s.msgSend == null then None else Some(PacketOf(held[s.msgSend])), s.sendLen)
  }

  lemma TxTold(s: Session, caller: object?)
    requires s.sendPool.Valid() && caller != s
    ensures s.TxValid() <==> TxFits(s, s.sendPool.Others(caller))
    ensures s.TxValid() ==> s.Leaving().tx == TxIn(s, s.sendPool.Others(caller))
  {
    hide MessageQueue.Valid, MessageQueue.Others, HeldBy, PacketOf, Packets, TxOk, NoDup, Message.Contents;
    AllHeld(s.sendPool, caller, s);
    forall m | m in s.queSend
      ensures var held := s.sendPool.Others(caller);
              && HeldBy(held, m, s) == s.Holds(s.sendPool, m)
              && (HeldBy(held, m, s) ==>
                    && m in held && PacketOf(held[m]) == m.Contents()
                    && held[m].dataLen == m.dataLen && held[m].currLen == m.currLen)
    {
      HeldByOthers(s.sendPool, caller, s, m);
    }
    if s.msgSend != null {
      HeldByOthers(s.sendPool, caller, s, s.msgSend);
    }
    assert forall i | 0 <= i < |s.queSend| :: s.queSend[i] in s.queSend;
    if s.TxValid() {
      assert Packets(s.queSend) == PacketsIn(s.sendPool.Others(caller), s.queSend);
    }
  }

  /** Both sides. */
  ghost predicate Fits(s: Session, r: map<Message, Holding>, t: map<Message, Holding>)
    reads s, s.header
  {
    RxFits(s, r) && RxOk(RxIn(s, r)) && TxFits(s, t)
  }

  ghost function ViewIn(s: Session, r: map<Message, Holding>, t: map<Message, Holding>): View
    requires Fits(s, r, t)
    reads s, s.header
  {
    View(Core(s.status, s.rdReady, s.wrReady, s.disconnect, s.sendOver, s.recvOver, TxIn(s, t), RxIn(s, r), s.hist, s.closings),
         s.events, s.inEpoll)
  }

  /** The two pools, seen from one session. */
  ghost predicate Apart(s: Session)
    reads s.recvPool, s.recvPool.live, s.sendPool, s.sendPool.live
  {
    && s.recvPool.Valid() && s.sendPool.Valid() && s.recvPool != s.sendPool && s.recvPool.live !! s.sendPool.live
    && s.header !in s.recvPool.live && s.header !in s.sendPool.live
  }

  /** Whether a session is valid, and how it looks, is told by what anybody but itself does not hold. */
  lemma Told(s: Session, caller: object?)
    requires Apart(s) && caller != s
    ensures var r, t := s.recvPool.Others(caller), s.sendPool.Others(caller);
            && s.Valid() == Fits(s, r, t)
            && (s.Valid() ==> ViewIn(s, r, t) == View(s.State(), s.events, s.inEpoll))
  {
    hide MessageQueue.Valid, MessageQueue.Others, RxFits, TxFits, RxIn, TxIn, RxOk, TxOk,
         Session.RxValid, Session.TxValid, Session.Arriving, Session.Leaving;
    RxTold(s, caller);
    TxTold(s, caller);
    if s.RxValid() {
      s.RxMembers();
    }
    if s.TxValid() {
      s.TxMembers();
    }
  }

  /** ... so it does not matter who tells. */
  lemma ToldAlike(s: Session, caller: object?, other: object?)
    requires Apart(s) && caller != s && other != s
    ensures var r, t := s.recvPool.Others(caller), s.sendPool.Others(caller);
            var r', t' := s.recvPool.Others(other), s.sendPool.Others(other);
            Fits(s, r, t) == Fits(s, r', t') && (Fits(s, r, t) ==> ViewIn(s, r, t) == ViewIn(s, r', t'))
  {
    hide MessageQueue.Others, Fits, ViewIn, Apart, Session.Valid, Session.State;
    Told(s, caller);
    Told(s, other);
  }

  // ---------- packets on their way to the logic loop ----------

  /** The packets of one session among those of all. */
  ghost function From(log: seq<Letter>, sender: object?): seq<seq<byte>> {
    if log == [] then []
    else From(log[..|log| - 1], sender) + (if log[|log| - 1].sender == sender then [log[|log| - 1].packet] else [])
  }

  lemma FromLast(log: seq<Letter>, l: Letter, other: object?)
    ensures From(log + [l], other) == From(log, other) + (if l.sender == other then [l.packet] else [])
  {
    assert (log + [l])[..|log|] == log;
  }

  lemma {:induction false} FromTagged(log: seq<Letter>, sender: object?, ps: seq<seq<byte>>, other: object?)
    ensures From(log + Tagged(sender, ps), other) == From(log, other) + (if other == sender then ps else [])
    decreases |ps|
  {
    hide From;
    if ps == [] {
      assert log + Tagged(sender, ps) == log;
    } else {
      var init, last := ps[..|ps| - 1], ps[|ps| - 1];
      FromTagged(log, sender, init, other);
      FromLast(log + Tagged(sender, init), Letter(sender, last), other);
      assert ps == init + [last];
      TaggedLast(sender, init, last);
      Assoc(log, Tagged(sender, init), [Letter(sender, last)]);
      if other == sender {
        Assoc(From(log, other), init, [last]);
      }
    }
  }

  lemma TaggedLast(sender: object?, ps: seq<seq<byte>>, last: seq<byte>)
    ensures Tagged(sender, ps + [last]) == Tagged(sender, ps) + [Letter(sender, last)]
  {
  }

  class NetMgr {
    const recvPool: MessageQueue
    const sendPool: MessageQueue
    var sessions: seq<Session>
    // the packet the logic loop is handling
    var held: Message?
    // history: packets pushed by all sessions, packets the logic loop took, sessions there ever were, blocks
    // that were queued in sessions when these were deleted
    ghost var log: seq<Letter>
    ghost var popped: seq<Letter>
    ghost var known: set<object?>
    ghost var lost: set<Message>

    ghost function Headers(): set<Message>
      reads this
    {
      set s | s in sessions :: s.header
    }

    ghost predicate PoolsOk()
      reads this, recvPool, recvPool.live, sendPool, sendPool.live
    {
      && recvPool.Valid() && sendPool.Valid() && recvPool != sendPool && recvPool.live !! sendPool.live
      && sendPool.waiting == []
      && (held != null ==> held in recvPool.out && recvPool.out[held] == null)
    }

    ghost function Members(): set<object?>
      reads `sessions
    {
      set s | s in sessions
    }

    /** Whatever is out is with somebody who is there: the logic loop, which has no more than the packet it is
        handling, or a session of the list; but for the blocks lost with deleted sessions. */
    ghost predicate HoldersOk()
      reads `sessions, `held, `lost, recvPool, sendPool
    {
      HoldersIn(Members())
    }

    ghost predicate HoldersIn(members: set<object?>)
      reads `held, `lost, recvPool, sendPool
    {
      && (forall m | m in recvPool.out :: if recvPool.out[m] == null then m == held else recvPool.out[m] in members)
      && (forall m | m in sendPool.out :: sendPool.out[m] != null && (m in lost <==> sendPool.out[m] !in members))
      && lost <= sendPool.out.Keys
    }

    /** The same told by what `caller` does not hold. */
    ghost predicate Accounted(r: map<Message, Holding>, t: map<Message, Holding>)
      reads `sessions, `held, `lost
    {
      && (forall m | m in r :: if r[m].holder == null then m == held else r[m].holder in Members())
      && (forall m | m in t :: t[m].holder != null && (m in lost <==> t[m].holder !in Members()))
      && lost <= t.Keys
    }

    ghost predicate SessionsOk()
      reads `sessions, recvPool, sendPool
    {
      && (forall i, j | 0 <= i < j < |sessions| :: sessions[i] != sessions[j] && sessions[i].header != sessions[j].header)
      && (forall s | s in sessions ::
            && s.recvPool == recvPool && s.sendPool == sendPool
            && s.header !in recvPool.live && s.header !in sendPool.live)
    }

    /** Every session is valid with what it holds of the shared pools. */
    ghost predicate AllFit()
      reads this, sessions, Headers(), recvPool, recvPool.live, sendPool, sendPool.live
    {
      forall s | s in sessions :: Fits(s, recvPool.Others(null), sendPool.Others(null))
    }

    /** What the sessions pushed has been taken by the logic loop or is waiting, in order; each session's
        packets are among it, in order. */
    ghost predicate MailOk()
      reads this, sessions, recvPool, recvPool.live, recvPool.waiting
    {
      && log == popped + Letters(recvPool.waiting)
      && (forall s: Session | s in sessions :: s in known && From(log, s) == s.pushed)
      && (forall i | 0 <= i < |log| :: log[i].sender in known)
    }

    ghost predicate Valid()
      reads this, sessions, Headers(), recvPool, recvPool.live, recvPool.waiting, sendPool, sendPool.live
    {
      PoolsOk() && SessionsOk() && HoldersOk() && AllFit() && MailOk()
    }

    ghost function Views(): (vs: seq<View>)
      requires AllFit()
      reads this, sessions, Headers(), recvPool, recvPool.live, sendPool, sendPool.live
      ensures |vs| == |sessions|
      ensures forall i | 0 <= i < |sessions| :: vs[i] == ViewIn(sessions[i], recvPool.Others(null), sendPool.Others(null))
    {
      seq(|sessions|, i requires 0 <= i < |sessions| && AllFit()
                        reads this, sessions, Headers(), recvPool, recvPool.live, sendPool, sendPool.live
                      => ViewIn(sessions[i], recvPool.Others(null), sendPool.Others(null)))
    }

    constructor ()
      ensures Valid() && sessions == [] && fresh(recvPool) && fresh(sendPool)
    {
      recvPool := new MessageQueue();
      sendPool := new MessageQueue();
      sessions, held, log, popped, known, lost := [], null, [], [], {}, {};
    }

    /** What a session's own contracts speak of, in terms of the pools. */
    lemma Faces(s: Session)
      requires s.Valid() && s.recvPool == recvPool && s.sendPool == sendPool
      ensures Apart(s) && s.RxValid() && RxOk(s.Arriving().rx) && s.Arriving().rx.pushed == s.pushed
      ensures s.Arriving().queue == Letters(recvPool.waiting) && s.Arriving().others == recvPool.Others(s)
      ensures s.Leaving().others == sendPool.Others(s)
    {
      hide MessageQueue.Valid, MessageQueue.Others, Letters, RxOk, Packets, TxOk;
    }

    ghost function Besides(i: nat): set<object>
      reads `sessions
    {
      (set j: nat | j < |sessions| && j != i :: sessions[j]) + (set j: nat | j < |sessions| && j != i :: sessions[j].header)
    }

    /** The sessions besides `i`, and the logic loop, as `was` and the mail `log0` have it; `r` and `t` are what
        session `i` does not hold of the pools. */
    ghost predicate Rest(i: nat, was: seq<View>, log0: seq<Letter>, r: map<Message, Holding>, t: map<Message, Holding>)
      reads `sessions, `held, `lost, Besides(i)
    {
      && i < |sessions| == |was| && Accounted(r, t) && (held != null ==> HeldBy(r, held, null))
      && (forall j | 0 <= j < |sessions| && j != i ::
            Fits(sessions[j], r, t) && ViewIn(sessions[j], r, t) == was[j] && From(log0, sessions[j]) == sessions[j].pushed)
    }

    /** Before a call of session `i`: it is valid, and the others are told by what it does not hold. */
    lemma Disassemble(i: nat)
      requires Valid() && i < |sessions|
      ensures var s := sessions[i];
              var r, t := recvPool.Others(s), sendPool.Others(s);
              && s.Valid() && View(s.State(), s.events, s.inEpoll) == Views()[i]
              && Rest(i, Views(), log, r, t)
    {
      hide MessageQueue.Valid, MessageQueue.Others, Fits, ViewIn, Session.Valid, Session.State, HoldersOk, Accounted,
           From, Letters;
      var s := sessions[i];
      Account(s);
      Told(s, null);
      forall j | 0 <= j < |sessions| && j != i
        ensures Fits(sessions[j], recvPool.Others(s), sendPool.Others(s))
        ensures ViewIn(sessions[j], recvPool.Others(s), sendPool.Others(s)) == Views()[j]
        ensures From(log, sessions[j]) == sessions[j].pushed
      {
        assert sessions[j] in sessions;
        ToldAlike(sessions[j], null, s);
      }
      if held != null {
        HeldInPool();
        HeldByOthers(recvPool, s, null, held);
      }
    }

    lemma NotBesides(i: nat)
      requires SessionsOk() && i < |sessions|
      ensures sessions[i] !in Besides(i) && sessions[i].header !in Besides(i)
      ensures this !in Besides(i) && recvPool !in Besides(i) && sendPool !in Besides(i)
      ensures (forall m | m in recvPool.live :: m !in Besides(i)) && (forall m | m in sendPool.live :: m !in Besides(i))
    {
    }

    lemma Account(s: Session)
      requires PoolsOk() && HoldersOk() && s in sessions
      ensures Accounted(recvPool.Others(s), sendPool.Others(s))
    {
      hide NoDup;
    }

    lemma Recount(s: Session)
      requires recvPool.Valid() && sendPool.Valid() && s in sessions
      requires Accounted(recvPool.Others(s), sendPool.Others(s))
      ensures HoldersOk()
    {
      hide NoDup, Message.Valid, Message.Bounded;
      var r, t := recvPool.Others(s), sendPool.Others(s);
      assert s in Members();
      forall m | m in recvPool.out
        ensures if recvPool.out[m] == null then m == held else recvPool.out[m] in Members()
      {
        assert recvPool.out[m] != s ==> m in r && r[m].holder == recvPool.out[m];
      }
      forall m | m in sendPool.out
        ensures sendPool.out[m] != null && (m in lost <==> sendPool.out[m] !in Members())
      {
        assert if sendPool.out[m] == s then m !in t else m in t && t[m].holder == sendPool.out[m];
      }
    }

    lemma HeldInPool()
      requires PoolsOk() && held != null
      ensures held in recvPool.live && held.Valid()
    {
    }

    /** After a call of session `i` that left alone what others hold. */
    lemma Reassemble(i: nat, was: seq<View>, log0: seq<Letter>, r: map<Message, Holding>, t: map<Message, Holding>)
      requires SessionsOk() && sendPool.waiting == [] && Rest(i, was, log0, r, t)
      requires r == recvPool.Others(sessions[i]) && t == sendPool.Others(sessions[i]) && sessions[i].Valid()
      ensures PoolsOk() && HoldersOk() && AllFit()
      ensures Views() == was[i := View(sessions[i].State(), sessions[i].events, sessions[i].inEpoll)]
    {
      hide MessageQueue.Valid, MessageQueue.Others, Fits, ViewIn, Session.Valid, Session.State, MailOk, HoldersOk, Accounted,
           From;
      var s := sessions[i];
      Faces(s);
      Recount(s);
      if held != null {
        HeldByOthers(recvPool, s, null, held);
      }
      Told(s, null);
      forall j | 0 <= j < |sessions| && j != i
        ensures Fits(sessions[j], recvPool.Others(null), sendPool.Others(null))
        ensures ViewIn(sessions[j], recvPool.Others(null), sendPool.Others(null)) == was[j]
      {
        ToldAlike(sessions[j], s, null);
      }
      assert forall b | b in sessions :: Fits(b, recvPool.Others(null), sendPool.Others(null));
    }

    /** The packets of session `j` after session `i` pushed some. */
    lemma Credited(i: nat, j: nat, log0: seq<Letter>, pushed0: seq<seq<byte>>)
      requires SessionsOk() && i < |sessions| && j < |sessions| && pushed0 <= sessions[i].pushed
      requires From(log0, sessions[j]) == if j == i then pushed0 else sessions[j].pushed
      ensures From(log0 + Tagged(sessions[i], sessions[i].pushed[|pushed0|..]), sessions[j]) == sessions[j].pushed
    {
      hide From, Tagged;
      assert j != i ==> sessions[j] != sessions[i];
      hide SessionsOk;
      FromTagged(log0, sessions[i], sessions[i].pushed[|pushed0|..], sessions[j]);
    }

    /** Packets a session pushed are put at the end of what is waiting. */
    lemma Delivered(i: nat, was: seq<View>, log0: seq<Letter>, queue0: seq<Letter>, pushed0: seq<seq<byte>>,
                    r: map<Message, Holding>, t: map<Message, Holding>)
      requires SessionsOk() && i < |sessions| && (forall s | s in sessions :: s in known)
      requires pushed0 <= sessions[i].pushed && log0 == popped + queue0
      requires var more := Tagged(sessions[i], sessions[i].pushed[|pushed0|..]);
               log == log0 + more && Letters(recvPool.waiting) == queue0 + more
      requires From(log0, sessions[i]) == pushed0 && Rest(i, was, log0, r, t)
      requires forall k | 0 <= k < |log0| :: log0[k].sender in known
      ensures MailOk()
    {
      hide Letters, From, Tagged, SessionsOk, Accounted, Fits, ViewIn, HeldBy;
      var s := sessions[i];
      var more := s.pushed[|pushed0|..];
      Assoc(popped, queue0, Tagged(s, more));
      forall b: Session | b in sessions
        ensures From(log, b) == b.pushed
      {
        var j :| 0 <= j < |sessions| && sessions[j] == b;
        Credited(i, j, log0, pushed0);
      }
      SendersKnown(log0, s, more);
    }

    lemma SendersKnown(log0: seq<Letter>, s: Session, more: seq<seq<byte>>)
      requires s in known && forall k | 0 <= k < |log0| :: log0[k].sender in known
      ensures forall k | 0 <= k < |log0 + Tagged(s, more)| :: (log0 + Tagged(s, more))[k].sender in known
    {
    }

    lemma ViewsOk()
      requires AllFit()
      ensures forall i | 0 <= i < |sessions| :: ViewOk(Views()[i])
    {
      hide RxFits, TxFits, RxIn, MessageQueue.Others;
      forall i | 0 <= i < |sessions|
        ensures ViewOk(Views()[i])
      {
        assert sessions[i] in sessions;
        TxInOk(sessions[i], sendPool.Others(null));
      }
    }

    /** `Update` of one session, before what it pushed is noted. */
    method UpdateOne(i: nat, a: Args)
      requires Valid() && i < |sessions|
      modifies sessions[i], sessions[i].header, recvPool, recvPool.live, sendPool
      ensures SessionsOk() && sendPool.waiting == [] && sessions[i].Valid()
      ensures ViewOk(old(Views())[i])
      ensures var s := sessions[i]; View(s.State(), s.events, s.inEpoll) == Updated(old(Views())[i], a)
      ensures Rest(i, old(Views()), log, recvPool.Others(sessions[i]), sendPool.Others(sessions[i]))
      ensures old(sessions[i].pushed) <= sessions[i].pushed
      ensures Letters(recvPool.waiting)
                == old(Letters(recvPool.waiting)) + Tagged(sessions[i], sessions[i].pushed[|old(sessions[i].pushed)|..])
      ensures fresh(recvPool.live - old(recvPool.live)) && old(recvPool.live) <= recvPool.live
      ensures sendPool.live == old(sendPool.live)
      ensures sendPool.recycle + sessions[i].Blocks() == old(sendPool.recycle + sessions[i].Blocks())
    {
      hide MessageQueue.Valid, MessageQueue.Others, Letters, Fits, ViewIn, Session.Valid, Session.State, Session.RxValid,
           Session.Arriving, Session.Leaving, RxOk, TxOk, HoldersOk, Accounted, Rest, From, Body, Ready, Closing, Views, AllFit;
      var s := sessions[i];
      FitOfValid();
      NotBesides(i);
      Disassemble(i);
      Faces(s);
      ViewsOk();
      s.Update(a.gotLock, a.recvs, a.sends, a.idle);
      Faces(s);
    }

    /** `Update` of one session, under the driver. */
    method UpdateAt(i: nat, a: Args)
      requires Valid() && i < |sessions|
      modifies `log, sessions[i], sessions[i].header, recvPool, recvPool.live, sendPool
      ensures Valid() && ViewOk(old(Views())[i]) && Views() == old(Views())[i := Updated(old(Views())[i], a)]
      ensures fresh(recvPool.live - old(recvPool.live)) && old(recvPool.live) <= recvPool.live
      ensures sendPool.live == old(sendPool.live)
      ensures sendPool.recycle + sessions[i].Blocks() == old(sendPool.recycle + sessions[i].Blocks())
    {
      hide MessageQueue.Valid, MessageQueue.Others, Letters, Session.Valid, Session.State, HoldersOk, Rest, From, Updated, ViewOk,
           Views, AllFit, PoolsOk, SessionsOk;
      FitOfValid();
      ghost var was, log0, queue0, pushed0 := Views(), log, Letters(recvPool.waiting), sessions[i].pushed;
      assert sessions[i] in sessions;
      UpdateOne(i, a);
      ghost var r, t := recvPool.Others(sessions[i]), sendPool.Others(sessions[i]);
      NotBesides(i);
      log := log + Tagged(sessions[i], sessions[i].pushed[|pushed0|..]);
      Reassemble(i, was, log0, r, t);
      Delivered(i, was, log0, queue0, pushed0, r, t);
    }

    /** `Send` of one session. */
    method SendAt(i: nat, p: seq<byte>)
      requires Valid() && i < |sessions|
      modifies sessions[i], sendPool, sendPool.live
      ensures Valid() && ViewOk(old(Views())[i])
      ensures var v := old(Views())[i];
              Views() == old(Views())[i := v.(core := LinuxSession.Send(v.core, p, AsWritten))]
      ensures fresh(sendPool.live - old(sendPool.live)) && old(sendPool.live) <= sendPool.live
    {
      hide MessageQueue.Valid, MessageQueue.Others, Letters, Fits, ViewIn, Session.Valid, Session.State, Session.RxValid,
           Session.Arriving, Session.Leaving, RxOk, TxOk, HoldersOk, Accounted, Rest, From, LinuxSession.Send;
      var s := sessions[i];
      NotBesides(i);
      Disassemble(i);
      Faces(s);
      ViewsOk();
      ghost var was, r, t := Views(), recvPool.Others(s), sendPool.Others(s);
      s.Send(p);
      Faces(s);
      Reassemble(i, was, log, r, t);
    }

    /** `Disconnect` of one session. */
    method DisconnectAt(i: nat)
      requires Valid() && i < |sessions|
      modifies sessions[i]
      ensures Valid()
      ensures var v := old(Views())[i];
              Views() == old(Views())[i := v.(core := LinuxSession.Disconnect(v.core))]
    {
      hide MessageQueue.Valid, MessageQueue.Others, Letters, Fits, ViewIn, Session.Valid, Session.State, Session.RxValid,
           Session.Arriving, Session.Leaving, HoldersOk, Accounted, Rest, From;
      var s := sessions[i];
      NotBesides(i);
      Disassemble(i);
      Faces(s);
      ghost var was, r, t := Views(), recvPool.Others(s), sendPool.Others(s);
      s.Disconnect();
      Faces(s);
      Reassemble(i, was, log, r, t);
    }

    /** The poller thread calls back for one session. */
    method PollAt(i: nat, ev: Events)
      requires Valid() && i < |sessions|
      modifies sessions[i]
      ensures Valid()
      ensures Views() == old(Views())[i := old(Views())[i].(events := ev, inEpoll := false)]
    {
      hide MessageQueue.Valid, MessageQueue.Others, Letters, Fits, ViewIn, Session.Valid, Session.State, Session.RxValid,
           Session.Arriving, Session.Leaving, HoldersOk, Accounted, Rest, From;
      var s := sessions[i];
      NotBesides(i);
      Disassemble(i);
      Faces(s);
      ghost var was, r, t := Views(), recvPool.Others(s), sendPool.Others(s);
      s.SessionCallback(ev);
      Faces(s);
      Reassemble(i, was, log, r, t);
    }

    /** After a call of somebody who is not among the sessions. */
    lemma Remaining(caller: object?, was: seq<View>, r: map<Message, Holding>, t: map<Message, Holding>)
      requires PoolsOk() && SessionsOk() && |sessions| == |was|
      requires forall s | s in sessions :: s != caller
      requires r == recvPool.Others(caller) && t == sendPool.Others(caller)
      requires forall j | 0 <= j < |sessions| :: Fits(sessions[j], r, t) && ViewIn(sessions[j], r, t) == was[j]
      ensures AllFit() && Views() == was
    {
      hide MessageQueue.Valid, MessageQueue.Others, Fits, ViewIn, MailOk;
      forall j | 0 <= j < |sessions|
        ensures Fits(sessions[j], recvPool.Others(null), sendPool.Others(null))
        ensures ViewIn(sessions[j], recvPool.Others(null), sendPool.Others(null)) == was[j]
      {
        assert sessions[j] in sessions;
        ToldAlike(sessions[j], caller, null);
      }
      assert forall b | b in sessions :: Fits(b, recvPool.Others(null), sendPool.Others(null));
    }

    /** A connected session joins. */
    method Accept()
      requires Valid()
      modifies `sessions, `known
      ensures Valid() && Views() == old(Views()) + [VIEW_START]
      ensures |sessions| == |old(sessions)| + 1 && sessions[..|old(sessions)|] == old(sessions)
      ensures fresh(sessions[|old(sessions)|]) && fresh(sessions[|old(sessions)|].header)
    {
      hide MessageQueue.Valid, MessageQueue.Others, Letters, Fits, ViewIn, Session.Valid, Session.State, From,
           Views;
      var s := NewSession();
      Faces(s);
      assert forall m | m in sendPool.out :: sendPool.out[m] != s;
      Join(s);
    }

    method Join(s: Session)
      requires Valid() && s.Valid() && Apart(s) && s.recvPool == recvPool && s.sendPool == sendPool
      requires s !in known && s !in sessions && (forall b | b in sessions :: b.header != s.header)
      requires View(s.State(), s.events, s.inEpoll) == VIEW_START && s.pushed == []
      requires forall m | m in sendPool.out :: sendPool.out[m] != s
      modifies `sessions, `known
      ensures Valid() && sessions == old(sessions) + [s] && Views() == old(Views()) + [VIEW_START]
    {
      hide MessageQueue.Valid, MessageQueue.Others, Letters, Fits, ViewIn, Session.Valid, Session.State, From, HoldersIn,
           AllFit, Views;
      ghost var was, members, all := Views(), Members(), sessions;
      FitsNow();
      Told(s, null);
      FromNobody(log, s);
      MoreMembers(members, s);
      sessions, known := sessions + [s], known + {s};
      assert forall b | b in sessions :: b in all || b == s;
      assert Members() == members + {s} by {
        assert s in sessions && forall b | b in all :: b in sessions;
      }
      FitsJoined(s, all, was);
    }

    lemma MoreMembers(members: set<object?>, s: Session)
      requires HoldersIn(members) && forall m | m in sendPool.out :: sendPool.out[m] != s
      ensures HoldersIn(members + {s})
    {
    }

    lemma FitsJoined(s: Session, all: seq<Session>, was: seq<View>)
      requires sessions == all + [s] && |was| == |all|
      requires var r, t := recvPool.Others(null), sendPool.Others(null);
               && Fits(s, r, t) && ViewIn(s, r, t) == VIEW_START
               && forall j | 0 <= j < |all| :: Fits(all[j], r, t) && ViewIn(all[j], r, t) == was[j]
      ensures AllFit() && Views() == was + [VIEW_START]
    {
      hide Fits, ViewIn, MessageQueue.Others;
      assert forall j | 0 <= j < |sessions| :: sessions[j] == if j < |all| then all[j] else s;
    }

    method NewSession() returns (s: Session)
      requires PoolsOk()
      ensures fresh(s) && fresh(s.header) && s.recvPool == recvPool && s.sendPool == sendPool
      ensures s.Valid() && View(s.State(), s.events, s.inEpoll) == VIEW_START && s.pushed == []
    {
      hide MessageQueue.Valid, MessageQueue.Others, Letters;
      InPool();
      s := new Session(recvPool, sendPool);
      s.Attach();
    }

    lemma InPool()
      requires PoolsOk()
      ensures forall m | m in recvPool.waiting :: m in recvPool.live
    {
    }

    /** What session `i` still holds is what it has queued. */
    ghost predicate Emptied(i: nat)
      requires i < |sessions|
      reads this, recvPool, sendPool, sessions
    {
      && (forall m | m in recvPool.out :: recvPool.out[m] != sessions[i])
      && (forall m | m in sessions[i].queSend :: m in sendPool.out && sendPool.out[m] == sessions[i])
      && (forall m | m in sendPool.out && sendPool.out[m] == sessions[i] :: m in sessions[i].queSend)
    }

    /** Without session `i`. */
    lemma Bereft(s: Session, members: set<object?>, lost0: set<Message>, r: map<Message, Holding>, t: map<Message, Holding>)
      requires recvPool.Valid() && sendPool.Valid() && r == recvPool.Others(s) && t == sendPool.Others(s)
      requires forall m | m in recvPool.out :: recvPool.out[m] != s
      requires forall m | m in s.queSend :: m in sendPool.out && sendPool.out[m] == s
      requires forall m | m in sendPool.out && sendPool.out[m] == s :: m in s.queSend
      requires forall m | m in r :: if r[m].holder == null then m == held else r[m].holder in members
      requires forall m | m in t :: t[m].holder != null && (m in lost0 <==> t[m].holder !in members)
      requires lost0 <= t.Keys && Members() == members - {s} && lost == lost0 + (set b | b in s.queSend)
      ensures HoldersOk()
    {
      hide NoDup, Message.Valid, Message.Bounded;
      forall m | m in recvPool.out
        ensures if recvPool.out[m] == null then m == held else recvPool.out[m] in Members()
      {
        assert m in r && r[m].holder == recvPool.out[m];
      }
      forall m | m in sendPool.out
        ensures sendPool.out[m] != null && (m in lost <==> sendPool.out[m] !in Members())
      {
        if sendPool.out[m] != s {
          assert m in t && t[m].holder == sendPool.out[m];
        }
      }
    }

    lemma Without(i: nat, all: seq<Session>)
      requires i < |all| && sessions == all[..i] + all[i + 1..] && forall j, k | 0 <= j < k < |all| :: all[j] != all[k]
      ensures forall s | s in sessions :: s != all[i] && s in all
      ensures Members() == (set s | s in all) - {all[i]}
    {
      forall b | b in all && b != all[i]
        ensures b in sessions
      {
        var k :| 0 <= k < |all| && all[k] == b;
        assert sessions[if k < i then k else k - 1] == b;
      }
    }

    method Leave(i: nat)
      requires PoolsOk() && SessionsOk() && MailOk() && i < |sessions| && Emptied(i)
      requires Accounted(recvPool.Others(sessions[i]), sendPool.Others(sessions[i]))
      modifies `sessions, `lost
      ensures SessionsOk() && MailOk() && HoldersOk() && sessions == old(sessions)[..i] + old(sessions)[i + 1..]
      ensures forall s | s in sessions :: s != old(sessions)[i] && s in old(sessions)
      ensures lost == old(lost) + (set b | b in old(sessions[i].queSend))
    {
      hide From, Letters, MessageQueue.Valid, MessageQueue.Others, HoldersOk;
      ghost var all, members, lost0 := sessions, Members(), lost;
      sessions := sessions[..i] + sessions[i + 1..];
      lost := lost + (set b | b in all[i].queSend);
      Without(i, all);
      Bereft(all[i], members, lost0, recvPool.Others(all[i]), sendPool.Others(all[i]));
    }

    /** The destructor. */
    method DestroyAt(i: nat)
      requires Valid() && i < |sessions|
      modifies sessions[i], recvPool, sendPool
      ensures PoolsOk() && SessionsOk() && MailOk()
      ensures Rest(i, old(Views()), log, recvPool.Others(sessions[i]), sendPool.Others(sessions[i]))
      ensures Emptied(i) && sessions[i].queSend == old(sessions[i].queSend)
      ensures recvPool.live == old(recvPool.live) - (if old(sessions[i].msgRecv) == null then {} else {old(sessions[i].msgRecv)})
      ensures sendPool.live == old(sendPool.live) && recvPool.recycle == old(recvPool.recycle)
      ensures sendPool.recycle == old(sendPool.recycle) + (if old(sessions[i].msgSend) == null then [] else [old(sessions[i].msgSend)])
    {
      hide MessageQueue.Valid, MessageQueue.Others, Letters, Fits, ViewIn, Session.Valid, Session.State, Session.RxValid,
           Session.Arriving, Session.Leaving, HoldersOk, Accounted, Rest, From;
      var s := sessions[i];
      NotBesides(i);
      Disassemble(i);
      Faces(s);
      ghost var was, r, t := Views(), recvPool.Others(s), sendPool.Others(s);
      s.Destroy();
      RestParts(i, was, log, r, t);
      if held != null {
        HeldByOthers(recvPool, s, null, held);
      }
    }

    lemma RestParts(i: nat, was: seq<View>, log0: seq<Letter>, r: map<Message, Holding>, t: map<Message, Holding>)
      requires Rest(i, was, log0, r, t)
      ensures Accounted(r, t) && (held != null ==> HeldBy(r, held, null))
    {
      hide Accounted, HeldBy;
    }

    /** The others after session `i` has left the list. */
    lemma Departed(i: nat, all: seq<Session>, was: seq<View>, r: map<Message, Holding>, t: map<Message, Holding>)
      requires PoolsOk() && SessionsOk() && i < |all| == |was| && sessions == all[..i] + all[i + 1..]
      requires forall s | s in sessions :: s != all[i]
      requires r == recvPool.Others(all[i]) && t == sendPool.Others(all[i])
      requires forall k | 0 <= k < |all| && k != i :: Fits(all[k], r, t) && ViewIn(all[k], r, t) == was[k]
      ensures AllFit() && Views() == was[..i] + was[i + 1..]
    {
      hide MessageQueue.Valid, MessageQueue.Others, Fits, ViewIn, PoolsOk, SessionsOk, AllFit, Views;
      var left := was[..i] + was[i + 1..];
      forall j | 0 <= j < |sessions|
        ensures Fits(sessions[j], r, t) && ViewIn(sessions[j], r, t) == left[j]
      {
        var k := if j < i then j else j + 1;
        assert sessions[j] == all[k] && left[j] == was[k];
      }
      Remaining(all[i], left, r, t);
    }

    /** `delete` of a session, which leaves the list: its packet under construction is deleted, the block it
        was sending recycled, and the blocks in its queue are lost. */
    method RemoveAt(i: nat)
      requires Valid() && i < |sessions|
      modifies `sessions, `lost, sessions[i], recvPool, sendPool
      ensures Valid() && sessions == old(sessions)[..i] + old(sessions)[i + 1..]
      ensures Views() == old(Views())[..i] + old(Views())[i + 1..]
      ensures recvPool.live == old(recvPool.live) - (if old(sessions[i].msgRecv) == null then {} else {old(sessions[i].msgRecv)})
      ensures sendPool.live == old(sendPool.live) && recvPool.recycle == old(recvPool.recycle)
      ensures sendPool.recycle == old(sendPool.recycle) + (if old(sessions[i].msgSend) == null then [] else [old(sessions[i].msgSend)])
      ensures lost == old(lost) + (set b | b in old(sessions[i].queSend))
    {
      hide MessageQueue.Valid, MessageQueue.Others, Letters, Fits, ViewIn, From, Views, AllFit, SessionsOk, Accounted, HoldersOk,
           HeldBy, Emptied, MailOk;
      ghost var all, was := sessions, Views();
      DestroyAt(i);
      ghost var r, t := recvPool.Others(all[i]), sendPool.Others(all[i]);
      assert forall k | 0 <= k < |all| && k != i :: Fits(all[k], r, t) && ViewIn(all[k], r, t) == was[k];
      RestParts(i, was, log, r, t);
      Leave(i);
      Departed(i, all, was, r, t);
    }

    lemma FitsNow()
      requires AllFit()
      ensures var r, t := recvPool.Others(null), sendPool.Others(null);
              forall j | 0 <= j < |sessions| :: Fits(sessions[j], r, t) && ViewIn(sessions[j], r, t) == Views()[j]
    {
      hide Fits, ViewIn, MessageQueue.Others;
      assert forall j | 0 <= j < |sessions| :: sessions[j] in sessions;
    }

    method TakeOldest()
      requires PoolsOk() && SessionsOk() && HoldersOk() && MailOk() && held == null
      modifies `held, `popped, recvPool
      ensures PoolsOk() && SessionsOk() && HoldersOk() && MailOk() && recvPool.live == old(recvPool.live)
      ensures recvPool.Others(null) == old(recvPool.Others(null))
      ensures if old(Letters(recvPool.waiting)) == [] then held == null && popped == old(popped)
              else held != null && popped == old(popped) + [old(Letters(recvPool.waiting))[0]]
    {
      hide MessageQueue.Valid, MessageQueue.Others, Letters, From;
      ghost var queue := Letters(recvPool.waiting);
      held := recvPool.PopMessage();
      if held != null {
        popped := popped + [queue[0]];
        assert queue == [queue[0]] + queue[1..];
        Assoc(popped[..|popped| - 1], [queue[0]], queue[1..]);
      }
    }

    /** The logic loop takes the oldest packet. */
    method Pop()
      requires Valid() && held == null
      modifies `held, `popped, recvPool
      ensures Valid() && Views() == old(Views()) && sessions == old(sessions) && recvPool.live == old(recvPool.live)
      ensures if old(Letters(recvPool.waiting)) == [] then held == null && popped == old(popped)
              else held != null && popped == old(popped) + [old(Letters(recvPool.waiting))[0]]
    {
      hide MessageQueue.Valid, MessageQueue.Others, Letters, Fits, ViewIn, Session.Valid, Session.State, Session.RxValid,
           Session.Arriving, Session.Leaving, From, AllFit, Views;
      FitsNow();
      ghost var was, r, t := Views(), recvPool.Others(null), sendPool.Others(null);
      TakeOldest();
      Remaining(null, was, r, t);
    }

    /** ... and gives its message back when it has handled it. */
    method Release()
      requires Valid() && held != null
      modifies `held, recvPool
      ensures Valid() && Views() == old(Views()) && held == null && recvPool.live == old(recvPool.live)
      ensures recvPool.recycle == old(recvPool.recycle) + [old(held)] && recvPool.waiting == old(recvPool.waiting)
    {
      hide MessageQueue.Valid, MessageQueue.Others, Letters, Fits, ViewIn, Session.Valid, Session.State, Session.RxValid,
           Session.Arriving, Session.Leaving, From;
      recvPool.FreeMessage(held);
      held := null;
    }

    /** One turn of the driver's loop: the session is updated, and deleted when it is disposable then. */
    method VisitAt(i: nat, a: Args) returns (gone: bool)
      requires Valid() && i < |sessions|
      modifies `sessions, `lost, `log, sessions[i], sessions[i].header, recvPool, recvPool.live, sendPool
      ensures Valid() && ViewOk(old(Views())[i])
      ensures var vs, v := old(Views()), Updated(old(Views())[i], a);
              && gone == v.core.status.Closed?
              && Views() == (if gone then vs[..i] + vs[i + 1..] else vs[i := v])
      ensures sessions == if gone then old(sessions)[..i] + old(sessions)[i + 1..] else old(sessions)
      ensures fresh(recvPool.live - old(recvPool.live)) && sendPool.live == old(sendPool.live)
      ensures old(lost) <= lost
      ensures lost == old(lost) <==> !(gone && Updated(old(Views())[i], a).core.tx.queue != [])
    {
      hide Valid, PoolsOk, SessionsOk, AllFit, Views, MailOk, HoldersOk, Updated, ViewOk;
      FitOfValid();
      UpdateAt(i, a);
      FitOfValid();
      StatusAt(i);
      QueueAt(i);
      gone := sessions[i].status.Closed?;
      ghost var queue := sessions[i].queSend;
      if gone {
        RemoveAt(i);
        assert queue != [] ==> queue[0] in lost;
      }
    }

    /** The blocks a session has queued are not lost yet. */
    lemma QueueAt(i: nat)
      requires Valid() && i < |sessions|
      ensures Views()[i].core.tx.queue == [] <==> sessions[i].queSend == []
      ensures forall b | b in sessions[i].queSend :: b !in lost
    {
      hide RxFits, RxIn, From, Letters, MessageQueue.Valid, MessageQueue.Others, NoDup, RxOk, MailOk;
      assert sessions[i] in sessions;
      forall b | b in sessions[i].queSend
        ensures b !in lost
      {
        NotLost(i, b);
      }
    }

    lemma NotLost(i: nat, b: Message)
      requires Valid() && i < |sessions| && b in sessions[i].queSend
      ensures b !in lost
    {
      hide AllFit, MailOk, SessionsOk, PoolsOk;
      Sends(i, b);
      assert sessions[i] in Members();
    }

    lemma FitOfValid()
      requires Valid()
      ensures AllFit() && PoolsOk()
    {
    }

    lemma StatusAt(i: nat)
      requires AllFit() && i < |sessions|
      ensures Views()[i].core.status == sessions[i].status
    {
      hide RxFits, TxFits, RxIn, TxIn;
      assert sessions[i] in sessions;
    }

    /** What the pass comes to when it has got to position `it`, where the session is that was number `n`. */
    ghost function Pending(args: nat -> Args, it: nat, n: nat): seq<View>
      requires Valid() && it <= |sessions|
      reads this, sessions, Headers(), recvPool, recvPool.live, recvPool.waiting, sendPool, sendPool.live
    {
      ViewsOk();
      Views()[..it] + Driven(Views()[it..], args, n)
    }

    /** Whether it is going to lose blocks. */
    ghost predicate Losing(args: nat -> Args, it: nat, n: nat)
      requires Valid() && it <= |sessions|
      reads this, sessions, Headers(), recvPool, recvPool.live, recvPool.waiting, sendPool, sendPool.live
    {
      ViewsOk();
      Lossy(Views()[it..], args, n)
    }

    lemma PendingEnds(args: nat -> Args, n: nat)
      requires Valid()
      ensures AllFit() && Pending(args, |sessions|, n) == Views()
      ensures (forall i | 0 <= i < |sessions| :: ViewOk(Views()[i])) && Pending(args, 0, 0) == Driven(Views(), args, 0)
      ensures Losing(args, 0, 0) == Lossy(Views(), args, 0) && !Losing(args, |sessions|, n)
    {
      hide PoolsOk, SessionsOk, Views, MailOk, Updated, ViewOk;
      ViewsOk();
      assert Views()[..|sessions|] == Views() == Views()[0..];
    }

    /** One turn of the driver's loop. */
    method Turn(args: nat -> Args, it: nat, n: nat) returns (next: nat)
      requires Valid() && it < |sessions|
      modifies `sessions, `lost, `log, sessions[it], sessions[it].header, recvPool, recvPool.live, sendPool
      ensures Valid() && next <= |sessions| && |sessions| - next < |old(sessions)| - it
      ensures Pending(args, next, n + 1) == old(Pending(args, it, n))
      ensures old(lost) <= lost
      ensures (lost != old(lost) || Losing(args, next, n + 1)) == old(Losing(args, it, n))
      ensures forall s | s in sessions :: s in old(sessions)
      ensures fresh(recvPool.live - old(recvPool.live)) && sendPool.live == old(sendPool.live)
    {
      hide Valid, PoolsOk, SessionsOk, AllFit, Views, MailOk, Updated, ViewOk;
      FitOfValid();
      ViewsOk();
      DrivenStep(Views(), it, args, n);
      LossyStep(Views(), it, args, n);
      var gone := VisitAt(it, args(n));
      FitOfValid();
      ViewsOk();
      next := if gone then it else it + 1;
    }

    /** The pass of `CNetMgr::Update` over its sessions, which erases while it goes on. */
    method UpdateAll(args: nat -> Args)
      requires Valid()
      modifies `sessions, `lost, `log, sessions, Headers(), recvPool, recvPool.live, sendPool
      ensures Valid() && (forall i | 0 <= i < |old(sessions)| :: ViewOk(old(Views())[i]))
      ensures Views() == Driven(old(Views()), args, 0)
      ensures old(lost) <= lost && (lost != old(lost)) == Lossy(old(Views()), args, 0)
      ensures forall s | s in sessions :: s in old(sessions)
      ensures fresh(recvPool.live - old(recvPool.live)) && sendPool.live == old(sendPool.live)
    {
      hide Valid, AllFit, Views, Pending, Losing, ViewOk, Driven, Lossy;
      PendingEnds(args, 0);
      var it: nat := 0;
      var n: nat := 0;
      while it != |sessions|
        invariant Valid() && it <= |sessions| && Pending(args, it, n) == old(Pending(args, 0, 0))
        invariant old(lost) <= lost && (lost != old(lost) || Losing(args, it, n)) == old(Losing(args, 0, 0))
        invariant forall s | s in sessions :: s in old(sessions)
        invariant fresh(recvPool.live - old(recvPool.live)) && sendPool.live == old(sendPool.live)
        decreases |sessions| - it
      {
        assert sessions[it] in sessions;
        it := Turn(args, it, n);
        n := n + 1;
      }
      PendingEnds(args, n);
    }

    /** A call for one session. */
    method PerformAt(c: Call)
      requires Valid() && (c.Send? || c.Disconnect? || c.Poll?)
      modifies sessions, sendPool, sendPool.live
      ensures Valid() && (forall i | 0 <= i < |sessions| :: ViewOk(old(Views())[i]))
      ensures Views() == Called(old(Views()), c) && fresh(sendPool.live - old(sendPool.live))
    {
      hide Valid, AllFit, Views, ViewOk;
      FitOfValid();
      ViewsOk();
      if c.i < |sessions| {
        match c
        case Send(i, p) => SendAt(i, p);
        case Disconnect(i) => DisconnectAt(i);
        case Poll(i, ev) => PollAt(i, ev);
      }
    }

    /** What the logic loop does with packets. */
    method Handle(c: Call)
      requires Valid() && (c.Pop? || c.Release?)
      modifies `held, `popped, recvPool
      ensures Valid() && Views() == old(Views()) && recvPool.live == old(recvPool.live)
    {
      hide Valid, AllFit, Views;
      FitOfValid();
      if c.Pop? {
        if held == null {
          Pop();
        }
      } else if held != null {
        Release();
      }
    }

    /** One call, whichever it is. */
    method Perform(c: Call)
      requires Valid()
      modifies this, sessions, Headers(), recvPool, recvPool.live, sendPool, sendPool.live
      ensures Valid() && (forall i | 0 <= i < |old(sessions)| :: ViewOk(old(Views())[i]))
      ensures Views() == Called(old(Views()), c)
      ensures old(lost) <= lost && (lost != old(lost)) == (c.Drive? && Lossy(old(Views()), c.args, 0))
      ensures forall s | s in sessions :: s in old(sessions) || (fresh(s) && fresh(s.header))
      ensures fresh(recvPool.live - old(recvPool.live)) && fresh(sendPool.live - old(sendPool.live))
    {
      hide Valid, AllFit, Views, ViewOk, Driven, Lossy;
      FitOfValid();
      ViewsOk();
      if c.Drive? {
        UpdateAll(c.args);
      } else if c.Accept? {
        Accept();
      } else if c.Pop? || c.Release? {
        Handle(c);
      } else {
        PerformAt(c);
      }
    }

    /** Any interleaving of calls: every session does what it would do alone, every message stays in one place
        with one holder and within its bound, and the logic loop gets the packets of all in the order in which
        they were pushed. */
    method Run(calls: seq<Call>)
      requires Valid()
      modifies this, sessions, Headers(), recvPool, recvPool.live, sendPool, sendPool.live
      ensures Valid() && (forall i | 0 <= i < |old(sessions)| :: ViewOk(old(Views())[i]))
      ensures Views() == CalledAll(old(Views()), calls)
      ensures old(lost) <= lost && (lost != old(lost)) == LossyAll(old(Views()), calls)
    {
      hide Valid, AllFit, Views, ViewOk, Called, Lossy;
      FitOfValid();
      ViewsOk();
      ghost var was := Views();
      for k := 0 to |calls|
        invariant Valid() && AllFit() && (forall i | 0 <= i < |sessions| :: ViewOk(Views()[i]))
        invariant CalledAll(was, calls) == CalledAll(Views(), calls[k..])
        invariant old(lost) <= lost && (lost != old(lost) || LossyAll(Views(), calls[k..])) == LossyAll(was, calls)
        invariant forall s | s in sessions :: s in old(sessions) || (fresh(s) && fresh(s.header))
        invariant fresh(recvPool.live - old(recvPool.live)) && fresh(sendPool.live - old(sendPool.live))
      {
        assert calls[k..][0] == calls[k] && calls[k..][1..] == calls[k + 1..];
        Perform(calls[k]);
        FitOfValid();
        ViewsOk();
      }
    }

    // ---------- what validity means for the pools ----------

    /** Session `k` has a message under construction exactly if the receive pool gave it to it. */
    lemma Receives(k: nat, m: Message)
      requires Valid() && k < |sessions|
      ensures sessions[k].msgRecv == m <==> m in recvPool.out && recvPool.out[m] == sessions[k]
    {
      hide TxFits, Letters, From, NoDup, RxOk, RxIn, MessageQueue.Valid, MessageQueue.Others, MailOk, HoldersOk, SessionsOk;
      assert sessions[k] in sessions;
      HeldByOthers(recvPool, null, sessions[k], m);
      AllHeld(recvPool, null, sessions[k]);
    }

    /** ... and has a block queued or is sending it exactly if the send pool gave it to it. */
    lemma Sends(k: nat, b: Message)
      requires Valid() && k < |sessions|
      ensures b in sessions[k].Blocks() <==> b in sendPool.out && sendPool.out[b] == sessions[k]
      ensures NoDup(sessions[k].Blocks())
    {
      hide RxFits, Letters, From, RxOk, RxIn, MessageQueue.Valid, MessageQueue.Others, MailOk, HoldersOk, SessionsOk;
      var s := sessions[k];
      assert s in sessions;
      HeldByOthers(sendPool, null, s, b);
      AllHeld(sendPool, null, s);
      assert b in s.Blocks() <==> b in s.queSend || b == s.msgSend;
    }

    /** The sessions that have a message under construction, or a block to send. */
    ghost function Receivers(m: Message): set<nat>
      reads this, sessions
    {
      set k: nat | k < |sessions| && sessions[k].msgRecv == m
    }

    ghost function Senders(b: Message): set<nat>
      reads this, sessions
    {
      set k: nat | k < |sessions| && b in sessions[k].Blocks()
    }

    /** How many places there are for a message of the receive pool. */
    ghost function Places(m: Message): nat
      reads this, sessions, recvPool
    {
      (if m in recvPool.waiting then 1 else 0) + (if m in recvPool.recycle then 1 else 0)
      + (if m == held then 1 else 0) + |Receivers(m)|
    }

    /** ... and for a block of the send pool. */
    ghost function PlacesSending(b: Message): nat
      reads this, sessions, sendPool
    {
      (if b in sendPool.recycle then 1 else 0) + (if b in lost then 1 else 0) + |Senders(b)|
    }

    /** Every message of the receive pool is in exactly one place, once: waiting, recycled, with the logic loop
        or with one session; and it has not outgrown the bound. */
    lemma OnePlace(m: Message)
      requires Valid() && m in recvPool.live
      ensures Places(m) == 1 && NoDup(recvPool.waiting) && NoDup(recvPool.recycle)
      ensures m.currLen <= m.dataLen <= |m.block|
      ensures |m.block| % UNIT == 0 && UNIT <= |m.block| <= 0x8000 && m.growths <= 2
    {
      hide AllFit, MailOk, NoDup, Session.Blocks;
      forall k: nat | k < |sessions|
        ensures k in Receivers(m) <==> m in recvPool.out && recvPool.out[m] == sessions[k]
      {
        Receives(k, m);
      }
      if k: nat :| k in Receivers(m) {
        OnlyHolder(k, Receivers(m), recvPool.out[m]);
      } else {
        assert Receivers(m) == {};
        assert forall o | o in Members() :: exists k :: 0 <= k < |sessions| && sessions[k] == o;
      }
    }

    /** Every block of the send pool is in exactly one place, once: recycled, with one session, or lost. */
    lemma OnePlaceSending(b: Message)
      requires Valid() && b in sendPool.live
      ensures PlacesSending(b) == 1 && NoDup(sendPool.recycle) && sendPool.waiting == []
      ensures forall k | 0 <= k < |sessions| :: NoDup(sessions[k].Blocks())
      ensures |b.block| % UNIT == 0 && UNIT <= |b.block| <= 0x8000 && b.growths <= 2
    {
      hide AllFit, MailOk, NoDup, Session.Blocks;
      forall k: nat | k < |sessions|
        ensures NoDup(sessions[k].Blocks()) && (k in Senders(b) <==> b in sendPool.out && sendPool.out[b] == sessions[k])
      {
        Sends(k, b);
      }
      if k: nat :| k in Senders(b) {
        OnlyHolder(k, Senders(b), sendPool.out[b]);
      } else {
        assert Senders(b) == {};
        assert forall o | o in Members() :: exists k :: 0 <= k < |sessions| && sessions[k] == o;
      }
    }

    lemma OnlyHolder(k: nat, holders: set<nat>, holder: object?)
      requires SessionsOk() && k in holders && forall j | j in holders :: j < |sessions| && sessions[j] == holder
      ensures |holders| == 1
    {
      assert holders == {k};
    }

    /** The packets of each session reach the logic loop in order: what it took and what is waiting are a merge
        of what the sessions pushed. */
    lemma MailInOrder(i: nat)
      requires Valid() && i < |sessions|
      ensures From(popped + Letters(recvPool.waiting), sessions[i]) == Views()[i].core.rx.pushed
    {
      hide Letters, From, RxOk, TxFits, MessageQueue.Others;
      assert sessions[i] in sessions;
    }
  }

  lemma {:induction false} FromNobody(log: seq<Letter>, sender: object?)
    requires forall k | 0 <= k < |log| :: log[k].sender != sender
    ensures From(log, sender) == []
    decreases |log|
  {
    if log != [] {
      FromNobody(log[..|log| - 1], sender);
    }
  }

  lemma TxInOk(s: Session, held: map<Message, Holding>)
    requires TxFits(s, held)
    ensures TxOk(TxIn(s, held))
  {
  }
}
