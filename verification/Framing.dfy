/** Length-prefixed framing over a byte stream: the sender's queue of blocks and the receiver's parser. */
module Framing {
  import opened Bytes

  const HEADER := 4
  const BLOCK := 0x1000
  const MAX_PACKET := 0x4000

  /** A payload the receiver accepts. */
  predicate Sendable(p: seq<byte>) { 2 <= |p| <= MAX_PACKET }

  function Frame(p: seq<byte>): seq<byte> { Le(|p|, HEADER) + p }

  function Frames(ps: seq<seq<byte>>): seq<byte> {
    if ps == [] then [] else Frame(ps[0]) + Frames(ps[1..])
  }

  lemma {:induction false} FramesLast(ps: seq<seq<byte>>, p: seq<byte>)
    ensures Frames(ps + [p]) == Frames(ps) + Frame(p)
  {
    if ps == [] {
      assert (ps + [p])[1..] == [];
    } else {
      FramesLast(ps[1..], p);
      assert (ps + [p])[1..] == ps[1..] + [p];
    }
  }

  // ---------- receiving ----------

  /** A packet under construction. */
  datatype Partial = Partial(len: nat, got: seq<byte>)

  datatype Rx = Rx(header: seq<byte>, body: Option<Partial>, pushed: seq<seq<byte>>)

  const RX_START := Rx([], None, [])

  predicate RxShape(rx: Rx) {
    && |rx.header| <= HEADER
    && (|rx.header| < HEADER ==> rx.body.None?)
    && (rx.body.Some? ==> 2 <= rx.body.value.len <= MAX_PACKET && |rx.body.value.got| < rx.body.value.len)
  }

  /** A full header without a packet: its length was out of range, and the session is given up. */
  predicate Dead(rx: Rx) { |rx.header| == HEADER && rx.body.None? }

  predicate BadLength(len: nat) { len > MAX_PACKET || len < 2 }

  /** Between two calls a full header has been looked at. */
  predicate RxOk(rx: Rx) {
    RxShape(rx) && (Dead(rx) ==> BadLength(UnLe(rx.header)))
  }

  /** What a just completed header leads to. */
  function Settle(rx: Rx): (r: Rx)
    requires RxShape(rx) && Dead(rx)
    ensures RxOk(r)
  {
    var len := UnLe(rx.header);
    if BadLength(len) then rx else rx.(body := Some(Partial(len, [])))
  }

  /** The reference parser takes the stream one byte at a time. */
  function RxByte(rx: Rx, b: byte): (r: Rx)
    requires RxOk(rx)
    ensures RxOk(r)
  {
    if |rx.header| < HEADER then
      var rx' := rx.(header := rx.header + [b]);
      if |rx'.header| == HEADER then Settle(rx') else rx'
    else if rx.body.None? then rx
    else
      var body := rx.body.value;
      var got := body.got + [b];
      if |got| == body.len then Rx([], None, rx.pushed + [got]) else rx.(body := Some(Partial(body.len, got)))
  }

  function RxAll(rx: Rx, bytes: seq<byte>): (r: Rx)
    requires RxOk(rx)
    ensures RxOk(r)
    decreases |bytes|
  {
    if bytes == [] then rx else RxAll(RxByte(rx, bytes[0]), bytes[1..])
  }

  /** Where the stream is cut into chunks makes no difference. */
  lemma {:induction false} ChunkIndependence(rx: Rx, a: seq<byte>, b: seq<byte>)
    requires RxOk(rx)
    ensures RxAll(RxAll(rx, a), b) == RxAll(rx, a + b)
    decreases |a|
  {
    if a == [] {
      assert a + b == b;
    } else {
      ChunkIndependence(RxByte(rx, a[0]), a[1..], b);
      assert (a + b)[1..] == a[1..] + b;
    }
  }

  /** A run of bytes that at most completes the header. */
  lemma {:induction false} HeaderRun(rx: Rx, bytes: seq<byte>)
    requires RxOk(rx) && |rx.header| < HEADER && |rx.header| + |bytes| <= HEADER
    ensures var rx' := rx.(header := rx.header + bytes);
            RxAll(rx, bytes) == if |rx'.header| == HEADER then Settle(rx') else rx'
    decreases |bytes|
  {
    if bytes == [] {
      assert rx.header + bytes == rx.header;
    } else {
      var next := RxByte(rx, bytes[0]);
      assert rx.header + bytes == rx.header + [bytes[0]] + bytes[1..];
      if |bytes| == 1 {
        assert rx.header + bytes == rx.header + [bytes[0]];
      } else {
        HeaderRun(next, bytes[1..]);
      }
    }
  }

  /** The limits of a packet: a length below 2 or above 0x4000 makes the receiver give the stream up, with any
      other the next so many bytes are its payload. */
  lemma LengthLimits(pushed: seq<seq<byte>>, n: nat, payload: seq<byte>)
    requires n < 0x1_0000_0000 && |payload| == n
    ensures var rx := Rx([], None, pushed);
            && (n < 2 || n > 0x4000 ==> Dead(RxAll(rx, Le(n, 4))) && RxAll(rx, Le(n, 4) + payload).pushed == pushed)
            && (2 <= n <= 0x4000 ==> RxAll(rx, Le(n, 4) + payload) == Rx([], None, pushed + [payload]))
  {
    var rx := Rx([], None, pushed);
    var rx' := RxAll(rx, Le(n, 4));
    PowValues();
    UnLeOfLe(n, 4);
    HeaderRun(rx, Le(n, 4));
    assert [] + Le(n, 4) == Le(n, 4) && [] + payload == payload;
    ChunkIndependence(rx, Le(n, 4), payload);
    if n < 2 || n > 0x4000 {
      DeadForever(rx', payload);
    } else {
      BodyRun(rx', payload);
    }
  }

  /** A run of bytes that at most completes the packet. */
  lemma {:induction false} BodyRun(rx: Rx, bytes: seq<byte>)
    requires RxOk(rx) && rx.body.Some? && |rx.body.value.got| + |bytes| <= rx.body.value.len
    ensures var got := rx.body.value.got + bytes;
            RxAll(rx, bytes) == if |got| == rx.body.value.len then Rx([], None, rx.pushed + [got])
                                else rx.(body := Some(Partial(rx.body.value.len, got)))
    decreases |bytes|
  {
    var got := rx.body.value.got;
    if bytes == [] {
      assert got + bytes == got;
    } else {
      assert got + bytes == got + [bytes[0]] + bytes[1..];
      if |bytes| == 1 {
        assert got + bytes == got + [bytes[0]];
      } else {
        BodyRun(RxByte(rx, bytes[0]), bytes[1..]);
      }
    }
  }

  /** Once given up, nothing is pushed any more. */
  lemma {:induction false} DeadForever(rx: Rx, bytes: seq<byte>)
    requires RxOk(rx) && Dead(rx)
    ensures RxAll(rx, bytes) == rx
    decreases |bytes|
  {
    if bytes != [] {
      DeadForever(rx, bytes[1..]);
    }
  }

  /** How many of the frames lie completely within the first `n` bytes of their stream. */
  function Arrived(ps: seq<seq<byte>>, n: nat): (k: nat)
    ensures k <= |ps|
  {
    if ps == [] || n < HEADER + |ps[0]| then 0 else 1 + Arrived(ps[1..], n - HEADER - |ps[0]|)
  }

  lemma RxFrame(rx: Rx, p: seq<byte>)
    requires RxOk(rx) && rx.header == [] && Sendable(p)
    ensures RxAll(rx, Frame(p)) == rx.(pushed := rx.pushed + [p])
  {
    PowValues();
    UnLeOfLe(|p|, HEADER);
    HeaderRun(rx, Le(|p|, HEADER));
    var mid := RxAll(rx, Le(|p|, HEADER));
    assert rx.header + Le(|p|, HEADER) == Le(|p|, HEADER);
    BodyRun(mid, p);
    assert [] + p == p;
    ChunkIndependence(rx, Le(|p|, HEADER), p);
  }

  /** A strict prefix of a frame pushes nothing and is no reason to give up. */
  lemma RxPartialFrame(rx: Rx, p: seq<byte>, n: nat)
    requires RxOk(rx) && rx.header == [] && Sendable(p) && n < HEADER + |p|
    ensures RxAll(rx, Frame(p)[..n]).pushed == rx.pushed && !Dead(RxAll(rx, Frame(p)[..n]))
  {
    PowValues();
    UnLeOfLe(|p|, HEADER);
    var head := Le(|p|, HEADER);
    if n <= HEADER {
      HeaderRun(rx, head[..n]);
      assert Frame(p)[..n] == head[..n];
      assert n == HEADER ==> head[..n] == head;
      assert rx.header + head[..n] == head[..n];
    } else {
      HeaderRun(rx, head);
      assert rx.header + head == head;
      BodyRun(RxAll(rx, head), p[..n - HEADER]);
      ChunkIndependence(rx, head, p[..n - HEADER]);
      assert Frame(p)[..n] == head + p[..n - HEADER];
    }
  }

  /** The packets pushed after any prefix of a stream of frames are exactly the payloads whose frames
      have arrived in full, in order and byte for byte. */
  lemma {:induction false} RxFrames(rx: Rx, ps: seq<seq<byte>>, bytes: seq<byte>)
    requires RxOk(rx) && rx.header == [] && bytes <= Frames(ps)
    requires forall p | p in ps :: Sendable(p)
    ensures RxAll(rx, bytes).pushed == rx.pushed + ps[..Arrived(ps, |bytes|)]
    ensures !Dead(RxAll(rx, bytes))
    decreases |ps|
  {
    if ps == [] {
    } else {
      var n := |Frame(ps[0])|;
      if |bytes| < n {
        RxPartialFrame(rx, ps[0], |bytes|);
        assert bytes == Frame(ps[0])[..|bytes|];
      } else {
        var tail := bytes[n..];
        assert bytes == Frame(ps[0]) + tail;
        assert tail <= Frames(ps[1..]);
        assert ps == [ps[0]] + ps[1..];
        RxFrame(rx, ps[0]);
        ChunkIndependence(rx, Frame(ps[0]), tail);
        RxFrames(RxAll(rx, Frame(ps[0])), ps[1..], tail);
        assert ps[..Arrived(ps, |bytes|)] == [ps[0]] + ps[1..][..Arrived(ps[1..], |tail|)];
      }
    }
  }

  // ---------- sending ----------

  /** Every queued block holds something, and only the last may have room left. */
  predicate QueueOk(q: seq<seq<byte>>) {
    forall i | 0 <= i < |q| :: 0 < |q[i]| <= BLOCK && (i < |q| - 1 ==> |q[i]| == BLOCK)
  }

  /** The room left for the next byte: in the tail block, or in the new block that will be opened. */
  function Room(q: seq<seq<byte>>): (f: nat)
    requires QueueOk(q)
    ensures 1 <= f <= BLOCK
  {
    if q == [] || |q[|q| - 1]| == BLOCK then BLOCK else BLOCK - |q[|q| - 1]|
  }

  /** One `Fill` of the tail block. */
  function FillTail(q: seq<seq<byte>>, bytes: seq<byte>): (r: seq<seq<byte>>)
    requires QueueOk(q) && 0 < |bytes| <= Room(q)
    ensures QueueOk(r) && Flat(r) == Flat(q) + bytes
    ensures Room(r) == if |bytes| == Room(q) then BLOCK else Room(q) - |bytes|
  {
    if q == [] || |q[|q| - 1]| == BLOCK then
      FlatLast(q, bytes);
      q + [bytes]
    else
      FlatTail(q, bytes);
      q[..|q| - 1] + [q[|q| - 1] + bytes]
  }

  lemma FlatTail(q: seq<seq<byte>>, bytes: seq<byte>)
    requires q != []
    ensures Flat(q[..|q| - 1] + [q[|q| - 1] + bytes]) == Flat(q) + bytes
  {
    hide Flat;
    FlatTwo(q[..|q| - 1], q[|q| - 1], bytes);
    assert q[..|q| - 1] + [q[|q| - 1]] == q;
  }

  lemma FlatTwo(init: seq<seq<byte>>, last: seq<byte>, bytes: seq<byte>)
    ensures Flat(init + [last + bytes]) == Flat(init + [last]) + bytes
  {
    FlatLast(init, last);
    FlatLast(init, last + bytes);
    Assoc(Flat(init), last, bytes);
  }

  /** How `_send` moves on after a block is full: not at all, as the code is written, or past the
      bytes it has stored. */
  datatype Sender = AsWritten | Advancing

  /** `_send`: `size` bytes are still to be stored, starting at `data`. */
  function Append(q: seq<seq<byte>>, data: seq<byte>, size: nat, how: Sender): (r: seq<seq<byte>>)
    requires QueueOk(q) && size <= |data|
    ensures QueueOk(r)
    decreases size
  {
    if size == 0 then q
    else
      var k := Min(Room(q), size);
      Append(FillTail(q, data[..k]), if how.Advancing? then data[k..] else data, size - k, how)
  }

  /** The bytes the code as written stores for a piece: each further block starts over at its first byte. */
  function Repeated(room: nat, data: seq<byte>, size: nat): (r: seq<byte>)
    requires size <= |data|
    ensures |r| == size
  {
    seq(size, i requires 0 <= i < size => if i < room then data[i] else data[(i - room) % BLOCK])
  }

  lemma RepeatedSplit(room: nat, data: seq<byte>, size: nat)
    requires size <= |data| && room <= BLOCK
    ensures var k := Min(room, size);
            Repeated(room, data, size) == data[..k] + Repeated(BLOCK, data, size - k)
  {
    var k := Min(room, size);
    forall i | k <= i < size ensures Repeated(room, data, size)[i] == Repeated(BLOCK, data, size - k)[i - k] {
      var j := i - k;
      if j >= BLOCK { assert (j - BLOCK) % BLOCK == j % BLOCK; }
    }
  }

  lemma {:induction false} AppendAsWritten(q: seq<seq<byte>>, data: seq<byte>, size: nat)
    requires QueueOk(q) && size <= |data|
    ensures Flat(Append(q, data, size, AsWritten)) == Flat(q) + Repeated(Room(q), data, size)
    decreases size
  {
    if size > 0 {
      var k := Min(Room(q), size);
      AppendAsWritten(FillTail(q, data[..k]), data, size - k);
      RepeatedSplit(Room(q), data, size);
      if k == size {
        assert Repeated(Room(FillTail(q, data[..k])), data, 0) == Repeated(BLOCK, data, 0);
      }
      Assoc(Flat(q), data[..k], Repeated(BLOCK, data, size - k));
    } else {
      assert Flat(q) + Repeated(Room(q), data, 0) == Flat(q);
    }
  }

  /** The room left by a piece that fits. */
  lemma RoomAfterPiece(q: seq<seq<byte>>, data: seq<byte>, size: nat, how: Sender)
    requires QueueOk(q) && 0 < size <= |data| && size <= Room(q)
    ensures Room(Append(q, data, size, how)) == if size == Room(q) then BLOCK else Room(q) - size
  {
    var q1 := FillTail(q, data[..size]);
    assert Append(q1, if how.Advancing? then data[size..] else data, 0, how) == q1;
  }

  lemma {:induction false} AppendAdvancing(q: seq<seq<byte>>, data: seq<byte>)
    requires QueueOk(q)
    ensures Flat(Append(q, data, |data|, Advancing)) == Flat(q) + data
    decreases |data|
  {
    hide Flat, QueueOk;
    if data != [] {
      var k := Min(Room(q), |data|);
      AppendAdvancing(FillTail(q, data[..k]), data[k..]);
      assert data[..k] + data[k..] == data;
      Assoc(Flat(q), data[..k], data[k..]);
    } else {
      assert Flat(q) + data == Flat(q);
    }
  }

  predicate RepeatsAt(room: nat, data: seq<byte>, i: nat)
    requires room <= i < |data|
  {
    data[i] == data[(i - room) % BLOCK]
  }

  /** The code as written stores a given piece faithfully exactly when the part beyond the tail block
      happens to repeat the piece from its start. */
  lemma PieceExact(room: nat, data: seq<byte>)
    ensures Repeated(room, data, |data|) == data <==> forall i | room <= i < |data| :: RepeatsAt(room, data, i)
  {
    var r := Repeated(room, data, |data|);
    if r == data {
      forall i | room <= i < |data| ensures RepeatsAt(room, data, i) {
        assert r[i] == data[i];
      }
    } else {
      var i :| 0 <= i < |data| && r[i] != data[i];
      assert room <= i && !RepeatsAt(room, data, i);
    }
  }

  /** It stores every piece of a given size faithfully exactly when the piece fits the tail block. */
  lemma PieceExactForSize(room: nat, n: nat)
    requires 1 <= room <= BLOCK
    ensures (forall d: seq<byte> | |d| == n :: Repeated(room, d, n) == d) <==> n <= room
  {
    if n > room {
      var d: seq<byte> := seq(n, i => if i == room then 1 else 0);
      assert Repeated(room, d, n)[room] == 0 && d[room] == 1;
      assert |d| == n && Repeated(room, d, n) != d;
    } else {
      forall d: seq<byte> | |d| == n ensures Repeated(room, d, n) == d {
        PieceExact(room, d);
      }
    }
  }

  /** `Send`: the length as one piece, the payload as another. */
  function SendFrame(q: seq<seq<byte>>, p: seq<byte>, how: Sender): (r: seq<seq<byte>>)
    requires QueueOk(q)
    ensures QueueOk(r)
  {
    var h := Le(|p|, HEADER);
    Append(Append(q, h, |h|, how), p, |p|, how)
  }

  /** The room left once the four length bytes are stored. */
  function RoomAfterHeader(room: nat): (r: nat)
    requires 1 <= room <= BLOCK
    ensures 1 <= r <= BLOCK
  {
    if room > HEADER then room - HEADER else if room == HEADER then BLOCK else BLOCK - (HEADER - room)
  }

  /** When the code as written is safe for a payload of `n` bytes: the length fits the tail block - or only
      its last byte spills over, and that byte equals the first - and then the payload fits what is left. */
  predicate FrameFits(room: nat, n: nat)
    requires 1 <= room <= BLOCK
  {
    && (room >= HEADER || (room == HEADER - 1 && n % 256 == 0))
    && n <= RoomAfterHeader(room)
  }

  lemma HeadBytes(n: nat)
    requires 2 <= n <= MAX_PACKET
    ensures var h := Le(n, HEADER);
            h[0] == n % 256 && h[1] == n / 256 && h[2] == 0 && h[3] == 0 && (h[0] > 0 || h[1] > 0)
  {
    assert Le(n, 4) == [n % 256] + Le(n / 256, 3);
    assert Le(n / 256, 3) == [(n / 256) % 256] + Le(n / 256 / 256, 2);
    assert Le(0, 2) == [0] + Le(0, 1);
  }

  lemma SpilledHead(room: nat, h: seq<byte>)
    requires 1 <= room <= BLOCK && |h| == HEADER && h[2] == h[3] == 0 && (h[0] > 0 || h[1] > 0)
    ensures Repeated(room, h, HEADER) == h <==> room >= HEADER || (room == HEADER - 1 && h[0] == 0)
  {
    PieceExact(room, h);
    if room == 1 {
      assert RepeatsAt(1, h, 1) == (h[1] == h[0]) && RepeatsAt(1, h, 2) == (h[2] == h[1]);
    } else if room == 2 {
      assert RepeatsAt(2, h, 2) == (h[2] == h[0]) && RepeatsAt(2, h, 3) == (h[3] == h[1]);
    } else if room == 3 {
      assert RepeatsAt(3, h, 3) == (h[3] == h[0]);
    }
  }

  /** The length bytes survive exactly in the cases `FrameFits` names. */
  lemma HeadExact(room: nat, n: nat)
    requires 1 <= room <= BLOCK && 2 <= n <= MAX_PACKET
    ensures Repeated(room, Le(n, HEADER), HEADER) == Le(n, HEADER) <==> room >= HEADER || (room == HEADER - 1 && n % 256 == 0)
  {
    HeadBytes(n);
    SpilledHead(room, Le(n, HEADER));
  }

  /** What `Send` as written adds to the stream. */
  function Stored(room: nat, p: seq<byte>): seq<byte>
    requires 1 <= room <= BLOCK
  {
    Repeated(room, Le(|p|, HEADER), HEADER) + Repeated(RoomAfterHeader(room), p, |p|)
  }

  lemma SendAsWritten(q: seq<seq<byte>>, p: seq<byte>)
    requires QueueOk(q)
    ensures Flat(SendFrame(q, p, AsWritten)) == Flat(q) + Stored(Room(q), p)
  {
    StoredTwice(q, Le(|p|, HEADER), p);
  }

  lemma StoredTwice(q: seq<seq<byte>>, h: seq<byte>, p: seq<byte>)
    requires QueueOk(q) && |h| == HEADER
    ensures Flat(Append(Append(q, h, |h|, AsWritten), p, |p|, AsWritten))
            == Flat(q) + (Repeated(Room(q), h, |h|) + Repeated(RoomAfterHeader(Room(q)), p, |p|))
  {
    var q1 := Append(q, h, |h|, AsWritten);
    AppendAsWritten(q, h, |h|);
    AppendAsWritten(q1, p, |p|);
    HeaderRoom(q, h);
    Assoc(Flat(q), Repeated(Room(q), h, |h|), Repeated(Room(q1), p, |p|));
  }

  lemma HeaderRoom(q: seq<seq<byte>>, h: seq<byte>)
    requires QueueOk(q) && |h| == HEADER
    ensures Room(Append(q, h, |h|, AsWritten)) == RoomAfterHeader(Room(q))
  {
    var k := Room(q);
    if k < HEADER {
      RoomAfterPiece(FillTail(q, h[..k]), h, |h| - k, AsWritten);
    } else {
      RoomAfterPiece(q, h, |h|, AsWritten);
    }
  }

  lemma SendAdvancing(q: seq<seq<byte>>, p: seq<byte>)
    requires QueueOk(q)
    ensures Flat(SendFrame(q, p, Advancing)) == Flat(q) + Frame(p)
  {
    var h := Le(|p|, HEADER);
    AppendAdvancing(q, h);
    AppendAdvancing(Append(q, h, |h|, Advancing), p);
    Assoc(Flat(q), h, p);
  }

  /** `Send` as written puts the right frame on the stream for every payload of `n` bytes exactly when
      `FrameFits` holds of the room in the tail block, which a caller can see beforehand. */
  lemma SendExact(room: nat, n: nat)
    requires 1 <= room <= BLOCK && 2 <= n <= MAX_PACKET
    ensures (forall p: seq<byte> | |p| == n :: Stored(room, p) == Frame(p)) <==> FrameFits(room, n)
  {
    var room' := RoomAfterHeader(room);
    HeadExact(room, n);
    PieceExactForSize(room', n);
    if FrameFits(room, n) {
      forall p: seq<byte> | |p| == n ensures Stored(room, p) == Frame(p) {
        assert Repeated(room', p, n) == p;
      }
    } else if n > room' {
      var p: seq<byte> :| |p| == n && Repeated(room', p, n) != p;
      assert Stored(room, p)[HEADER..] == Repeated(room', p, n) && Frame(p)[HEADER..] == p;
      assert Stored(room, p) != Frame(p);
    } else {
      var p: seq<byte> := seq(n, _ => 0);
      assert |p| == n;
      assert Stored(room, p)[..HEADER] == Repeated(room, Le(n, HEADER), HEADER) && Frame(p)[..HEADER] == Le(n, HEADER);
      assert Stored(room, p) != Frame(p);
    }
  }

  /** A payload `Send` as written corrupts: one byte more than an empty block has room for after the length. */
  lemma SendExample()
    ensures var p: seq<byte> := seq(4093, i => if i == 4092 then 1 else 0);
            Sendable(p) && !FrameFits(BLOCK, |p|) && Stored(BLOCK, p) != Frame(p)
  {
    var p: seq<byte> := seq(4093, i => if i == 4092 then 1 else 0);
    assert Stored(BLOCK, p)[HEADER..][4092] == p[0];
    assert Frame(p)[HEADER..][4092] == p[4092];
  }
}
