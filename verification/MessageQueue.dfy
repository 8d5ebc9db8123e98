/** Messages and the pool they are recycled through. */
module Messages {
  import opened Bytes

  const UNIT := 0x1000

  /** The capacity of a message after a `Reset` to `size`. */
  function Grown(capacity: nat, size: nat): nat {
    if size > capacity then capacity + (size / UNIT + 1) * UNIT else capacity
  }

  /** Growths still possible: none from 0x4000 on, one from 0x3000, two from the initial size. */
  function GrowthsLeft(capacity: nat): nat {
    if capacity >= 0x4000 then 0 else if capacity == 0x3000 then 1 else 2
  }

  predicate Reachable(capacity: nat) {
    capacity % UNIT == 0 && (capacity == UNIT || 0x3000 <= capacity <= 0x8000)
  }

  /** A message owns a block of memory: `block` is its content and `|block|` its size. `ptr` is the session a
      complete packet came from. `growths` is history: how often the block was replaced by a larger one. */
  class Message {
    var block: seq<byte>
    var currLen: nat
    var dataLen: nat
    var ptr: object?
    ghost var growths: nat

    ghost predicate Valid()
      reads this
    {
      currLen <= dataLen <= |block|
    }

    function Contents(): (c: seq<byte>)
      reads this
      ensures currLen <= |block| ==> |c| == currLen
    {
      if currLen <= |block| then block[..currLen] else block
    }

    predicate Full()
      reads this
    {
      dataLen == currLen
    }

    /** The bound on what a message of the pool can have become. */
    ghost predicate Bounded()
      reads this
    {
      Reachable(|block|) && growths + GrowthsLeft(|block|) <= 2
    }

    constructor (size: nat)
      ensures Valid() && |block| == size && currLen == dataLen == 0 && ptr == null && growths == 0
    {
      block := seq(size, _ => 0);
      currLen, dataLen, ptr, growths := 0, 0, null, 0;
    }

    /** Empties the message and sets the length it is to be filled to; the block is replaced when too small. */
    method Reset(size: nat)
      requires Valid()
      modifies this
      ensures Valid() && dataLen == size && Contents() == [] && ptr == null
      ensures |block| == Grown(old(|block|), size)
      ensures growths == old(growths) + (if size > old(|block|) then 1 else 0)
    {
      if size > |block| {
        block := seq(|block| + (size / UNIT + 1) * UNIT, _ => 0);
        growths := growths + 1;
      }
      currLen := 0;
      dataLen := size;
      ptr := null;
    }

    /** `memcpy` behind what is there. */
    method Copy(bytes: seq<byte>)
      requires Valid() && |bytes| <= dataLen - currLen
      modifies this`currLen, this`block
      ensures Valid() && |block| == old(|block|) && Contents() == old(Contents()) + bytes
    {
      block := block[..currLen] + bytes + block[currLen + |bytes|..];
      currLen := currLen + |bytes|;
    }

    /** Takes as many of the bytes as there is room for and returns the others. */
    method Fill(bytes: seq<byte>) returns (rest: seq<byte>)
      requires Valid()
      modifies this`currLen, this`block
      ensures Valid() && |block| == old(|block|)
      ensures var k := Min(dataLen - old(currLen), |bytes|);
              Contents() == old(Contents()) + bytes[..k] && rest == bytes[k..]
    {
      rest := bytes;
      if dataLen == 0 {
        return;
      }
      ghost var c0, d := Contents(), 0;
      assert bytes[..0] == [] && bytes[0..] == bytes;
      while !Full() && rest != []
        invariant Valid() && |block| == old(|block|) && d <= |bytes|
        invariant rest == bytes[d..] && Contents() == c0 + bytes[..d]
        decreases |rest|
      {
        var n := Min(dataLen - currLen, |rest|);
        SliceStep(bytes, d, n);
        Assoc(c0, bytes[..d], rest[..n]);
        Copy(rest[..n]);
        rest := rest[n..];
        d := d + n;
      }
    }
  }

  lemma SliceStep(s: seq<byte>, d: nat, n: nat)
    requires d + n <= |s|
    ensures s[..d] + s[d..][..n] == s[..d + n] && s[d..][n..] == s[d + n..]
  {
  }

  /** The contents of messages. */
  ghost function Packets(ms: seq<Message>): (ps: seq<seq<byte>>)
    reads ms
    ensures |ps| == |ms| && forall i | 0 <= i < |ms| :: ps[i] == ms[i].Contents()
  {
    if ms == [] then [] else Packets(ms[..|ms| - 1]) + [ms[|ms| - 1].Contents()]
  }

  /** A packet with the session it came from. */
  datatype Letter = Letter(sender: object?, packet: seq<byte>)

  ghost function Letters(ms: seq<Message>): (ls: seq<Letter>)
    reads ms
    ensures |ls| == |ms| && forall i | 0 <= i < |ms| :: ls[i] == Letter(ms[i].ptr, ms[i].Contents())
  {
    if ms == [] then [] else Letters(ms[..|ms| - 1]) + [Letter(ms[|ms| - 1].ptr, ms[|ms| - 1].Contents())]
  }

  lemma LettersLast(ms: seq<Message>, m: Message)
    ensures Letters(ms + [m]) == Letters(ms) + [Letter(m.ptr, m.Contents())]
  {
  }

  /** No message occurs twice. */
  ghost predicate NoDup(ms: seq<Message>) {
    forall i, j | 0 <= i < j < |ms| :: ms[i] != ms[j]
  }

  lemma NoDupLast(ms: seq<Message>, m: Message)
    requires NoDup(ms) && m !in ms
    ensures NoDup(ms + [m])
  {
  }

  /** A message somebody holds: the holder, and all there is to the message. */
  datatype Holding = Holding(holder: object?, block: seq<byte>, currLen: nat, dataLen: nat)

  /** The pool all sessions share. Each of the messages it has made is in exactly one place: waiting,
      recycled, or out with one holder, a session or (null) the logic loop. */
  class MessageQueue {
    var waiting: seq<Message>
    var recycle: seq<Message>
    ghost var out: map<Message, object?>
    ghost var live: set<Message>

    /** Each message is in one place, and none has outgrown the bound. */
    ghost predicate Valid()
      reads this, live
    {
      && NoDup(waiting) && NoDup(recycle) && out.Keys <= live
      && (forall m | m in waiting :: m in live && m !in out && m !in recycle)
      && (forall m | m in recycle :: m in live && m !in out)
      && (forall m | m in live :: m in out || m in waiting || m in recycle)
      && (forall m | m in live :: m.Valid() && m.Bounded())
    }

    /** What everybody but `holder` holds. */
    ghost function Others(holder: object?): map<Message, Holding>
      reads this, live
    {
      map m | m in live && m in out && out[m] != holder :: Holding(out[m], m.block, m.currLen, m.dataLen)
    }

    constructor ()
      ensures Valid() && waiting == [] && recycle == [] && live == {}
    {
      waiting, recycle, out, live := [], [], map[], {};
    }

    /** The oldest recycled message. */
    method TakeRecycled(ghost holder: object?) returns (msg: Message)
      requires Valid() && recycle != []
      modifies this`recycle, this`out
      ensures Valid() && msg == old(recycle)[0] && recycle == old(recycle)[1..]
      ensures msg !in old(out) && out == old(out)[msg := holder] && msg in live
      ensures Others(holder) == old(Others(holder))
    {
      hide Message.Bounded, Message.Valid;
      msg := recycle[0];
      recycle := recycle[1..];
      assert old(recycle) == [msg] + recycle;
      out := out[msg := holder];
    }

    /** A message made for somebody joins the pool. */
    ghost method Adopt(msg: Message, holder: object?)
      requires Valid() && msg !in live && msg.Valid() && msg.Bounded()
      modifies this`out, this`live
      ensures Valid() && out == old(out)[msg := holder] && live == old(live) + {msg}
      ensures Others(holder) == old(Others(holder))
    {
      hide NoDup, Message.Valid, Message.Bounded;
      live := live + {msg};
      out := out[msg := holder];
    }

    method MakeMessage(ghost holder: object?) returns (msg: Message)
      requires Valid()
      modifies this`out, this`live
      ensures Valid() && fresh(msg)
      ensures out == old(out)[msg := holder] && live == old(live) + {msg}
      ensures Others(holder) == old(Others(holder))
    {
      hide NoDup, Others, MessageQueue.Valid;
      msg := NewBlock();
      Adopt(msg, holder);
    }

    method NewBlock() returns (msg: Message)
      requires Valid()
      ensures Valid() && fresh(msg) && msg !in live && msg.Valid() && msg.Bounded()
    {
      msg := new Message(UNIT);
    }

    method ApplyMessage(ghost holder: object?) returns (msg: Message)
      requires Valid()
      modifies this`recycle, this`out, this`live
      ensures Valid() && msg !in old(out) && out == old(out)[msg := holder] && live == old(live) + {msg}
      ensures if old(recycle) != [] then msg == old(recycle)[0] && recycle == old(recycle)[1..]
              else fresh(msg) && recycle == []
      ensures Others(holder) == old(Others(holder)) && msg in live
    {
      if recycle != [] {
        msg := TakeRecycled(holder);
      } else {
        msg := MakeMessage(holder);
      }
    }

    method FreeMessage(msg: Message)
      requires Valid() && msg in out
      modifies this`recycle, this`out
      ensures Valid() && recycle == old(recycle) + [msg] && out == old(out) - {msg}
      ensures Others(old(out)[msg]) == old(Others(out[msg])) && Letters(waiting) == old(Letters(waiting))
    {
      hide Message.Valid, Message.Bounded, NoDup, Letters;
      NoDupLast(recycle, msg);
      recycle := recycle + [msg];
      out := out - {msg};
    }

    method PushMessage(msg: Message)
      requires Valid() && msg in out
      modifies this`waiting, this`out
      ensures Valid() && waiting == old(waiting) + [msg] && out == old(out) - {msg}
      ensures Others(old(out)[msg]) == old(Others(out[msg]))
      ensures Letters(waiting) == old(Letters(waiting)) + [old(Letter(msg.ptr, msg.Contents()))]
    {
      hide Message.Valid, Message.Bounded, NoDup, Letters;
      NoDupLast(waiting, msg);
      LettersLast(waiting, msg);
      waiting := waiting + [msg];
      out := out - {msg};
    }

    /** The logic loop takes the oldest packet. */
    method PopMessage() returns (msg: Message?)
      requires Valid()
      modifies this`waiting, this`out
      ensures Valid() && Others(null) == old(Others(null))
      ensures old(waiting) != [] ==> Letters(waiting) == old(Letters(waiting))[1..]
      ensures if old(waiting) == [] then msg == null && waiting == [] && out == old(out)
              else msg == old(waiting)[0] && waiting == old(waiting)[1..] && out == old(out)[msg := null]
    {
      hide Message.Valid, Message.Bounded;
      msg := null;
      if waiting != [] {
        msg := waiting[0];
        waiting := waiting[1..];
        assert old(waiting) == [msg] + waiting;
        out := out[msg := null];
      }
    }

    /** A message that is deleted leaves the pool for good. */
    method Discard(msg: Message)
      requires Valid() && msg in out
      modifies this`out, this`live
      ensures Valid() && out == old(out) - {msg} && live == old(live) - {msg}
      ensures Others(old(out)[msg]) == old(Others(out[msg])) && waiting == old(waiting)
    {
      out := out - {msg};
      live := live - {msg};
    }

    /** `ApplyMessage` and the `Reset` that follows every call of it; nothing in use is touched, and the
        bound on capacities is kept. */
    method NewMessage(size: nat, ghost holder: object?) returns (msg: Message)
      requires Valid() && size <= 0x4000
      modifies this`recycle, this`out, this`live, set m | m in recycle
      ensures Valid() && msg !in old(out) && out == old(out)[msg := holder] && live == old(live) + {msg}
      ensures msg in old(live) || fresh(msg)
      ensures old(recycle) <= [msg] + recycle
      ensures msg.Valid() && msg.Bounded() && msg.dataLen == size && msg.Contents() == []
      ensures forall m | m in old(out) || m in waiting :: unchanged(m)
      ensures Others(holder) == old(Others(holder)) && Letters(waiting) == old(Letters(waiting))
    {
      hide NoDup, Reachable, GrowthsLeft, Grown, Letters, Others;
      msg := ApplyMessage(holder);
      assert forall m | m in old(out) || m in waiting :: m != msg;
      ResetHeld(msg, size);
    }

    /** A holder's message is emptied. */
    method ResetHeld(msg: Message, size: nat)
      requires Valid() && size <= 0x4000 && msg in live && msg in out
      modifies msg
      ensures Valid() && msg.Valid() && msg.Bounded() && msg.dataLen == size && msg.Contents() == []
      ensures Others(out[msg]) == old(Others(out[msg])) && Letters(waiting) == old(Letters(waiting))
    {
      hide NoDup, Reachable, GrowthsLeft, Grown, Letters;
      BoundKept(|msg.block|, size, msg.growths);
      msg.Reset(size);
    }

    /** A holder fills its message; the rest of the pool does not change. The loop is that around every call
        of `Fill`. */
    method FillHeld(msg: Message, bytes: seq<byte>) returns (rest: seq<byte>)
      requires Valid() && msg in live && msg in out && msg.Valid()
      modifies msg`currLen, msg`block
      ensures Valid() && msg.Valid() && Others(out[msg]) == old(Others(out[msg]))
      ensures Letters(waiting) == old(Letters(waiting))
      ensures var k := Min(msg.dataLen - |old(msg.Contents())|, |bytes|);
              msg.Contents() == old(msg.Contents()) + bytes[..k] && rest == bytes[k..]
    {
      hide NoDup, Reachable, GrowthsLeft, Letters;
      rest := FillAll(msg, bytes);
    }

    /** A holder signs its message. */
    method SignHeld(msg: Message, ptr: object?)
      requires Valid() && msg in live && msg in out
      modifies msg`ptr
      ensures Valid() && msg.ptr == ptr && Others(out[msg]) == old(Others(out[msg]))
      ensures Letters(waiting) == old(Letters(waiting))
    {
      hide NoDup, Reachable, GrowthsLeft, Letters;
      msg.ptr := ptr;
    }
  }

  method FillAll(msg: Message, bytes: seq<byte>) returns (rest: seq<byte>)
    requires msg.Valid()
    modifies msg`currLen, msg`block
    ensures msg.Valid() && |msg.block| == old(|msg.block|)
    ensures var k := Min(msg.dataLen - |old(msg.Contents())|, |bytes|);
            msg.Contents() == old(msg.Contents()) + bytes[..k] && rest == bytes[k..]
  {
    rest := bytes;
    ghost var k := Min(msg.dataLen - |msg.Contents()|, |bytes|);
    while rest != [] && !msg.Full()
      invariant msg.Valid() && |msg.block| == old(|msg.block|)
      invariant (rest == bytes && msg.Contents() == old(msg.Contents()))
                || (rest == bytes[k..] && msg.Contents() == old(msg.Contents()) + bytes[..k])
      decreases |rest|
    {
      rest := msg.Fill(rest);
    }
  }

  /** A reset to an admissible size keeps the bound. */
  lemma BoundKept(capacity: nat, size: nat, growths: nat)
    requires size <= 0x4000 && Reachable(capacity) && growths + GrowthsLeft(capacity) <= 2
    ensures var c := Grown(capacity, size);
            && Reachable(c) && UNIT <= c <= 0x8000 && c % UNIT == 0
            && growths + (if size > capacity then 1 else 0) + GrowthsLeft(c) <= 2
  {
  }
}
