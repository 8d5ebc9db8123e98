/** The owned byte buffer: a fixed block of memory with a read and a write cursor.

    Seen from outside it is a byte log (`Written`) with a read cursor; `Pending` is the part not
    read yet. Sizes stay below 2^31, so no cursor computation of the original wraps. */
module Buffers {
  import opened Bytes

  const MAX_SIZE: int := 0x8000_0000

  /** Reading a `w`-byte integer off the front of the pending bytes. */
  function TakeInt(b: seq<byte>, w: nat): Option<(nat, seq<byte>)> {
    if w <= |b| then Some((UnLe(b[..w]), b[w..])) else None
  }

  /** Reading a NUL-terminated string off the front of the pending bytes. */
  function TakeText(b: seq<byte>): Option<(seq<byte>, seq<byte>)> {
    var s := Cut(b);
    if |s| < |b| then Some((s, b[|s| + 1..])) else None
  }

  lemma TakeIntOfLe(n: nat, w: nat, rest: seq<byte>)
    requires n < Pow256(w)
    ensures TakeInt(Le(n, w) + rest, w) == Some((n, rest))
  {
    UnLeOfLe(n, w);
    assert (Le(n, w) + rest)[..w] == Le(n, w);
  }

  lemma TakeTextOfTerminated(s: seq<byte>, rest: seq<byte>)
    requires 0 !in s
    ensures TakeText(s + [0] + rest) == Some((s, rest))
  {
    CutTerminated(s, rest);
  }

  /** A scan that stopped at position `n`. */
  lemma TakeTextAt(b: seq<byte>, n: nat)
    requires forall i | 0 <= i < n && i < |b| :: b[i] != 0
    requires n < |b| ==> b[n] == 0
    ensures TakeText(b) == if n < |b| then Some((b[..n], b[n + 1..])) else None
  {
    if n < |b| {
      TakeTextOfTerminated(b[..n], b[n + 1..]);
      assert b == b[..n] + [0] + b[n + 1..];
    } else {
      assert 0 !in b;
    }
  }

  class ByteBuffer {
    var buffer: array<byte>
    var rd: nat
    var wr: nat

    ghost predicate Valid()
      reads this
    {
      rd <= wr <= buffer.Length < MAX_SIZE
    }

    ghost function Written(): seq<byte>
      requires Valid()
      reads this, buffer
    {
      buffer[..wr]
    }

    ghost function Pending(): seq<byte>
      requires Valid()
      reads this, buffer
    {
      buffer[rd..wr]
    }

    function Avail(): nat
      requires Valid()
      reads this
    {
      wr - rd
    }

    function Free(): nat
      requires Valid()
      reads this
    {
      buffer.Length - wr
    }

    constructor (size: nat)
      requires size < MAX_SIZE
      ensures Valid() && fresh(buffer)
      ensures buffer.Length == size && Written() == [] && rd == 0
    {
      buffer := new byte[size](_ => 0);
      rd, wr := 0, 0;
    }

    /** Appends all of `data`, or nothing at all when it does not fit. */
    method In(data: seq<byte>) returns (ok: bool)
      requires Valid()
      modifies this`wr, buffer
      ensures Valid()
      ensures ok == (|data| <= old(Free()))
      ensures ok ==> Written() == old(Written()) + data && Pending() == old(Pending()) + data
      ensures ok ==> buffer[wr..] == old(buffer[wr..])[|data|..]
      ensures !ok ==> wr == old(wr) && buffer[..] == old(buffer[..])
    {
      if buffer.Length - wr >= |data| {
        forall i | 0 <= i < |data| {
          buffer[wr + i] := data[i];
        }
        wr := wr + |data|;
        return true;
      }
      return false;
    }

    /** Hands out the next `n` pending bytes, or nothing at all when there are fewer. */
    method Out(n: nat) returns (ok: bool, data: seq<byte>)
      requires Valid()
      modifies this`rd
      ensures Valid()
      ensures ok == (n <= old(Avail()))
      ensures ok ==> data == old(Pending())[..n] && Pending() == old(Pending())[n..]
      ensures !ok ==> rd == old(rd) && data == []
    {
      if wr - rd >= n {
        assert Pending()[..n] == buffer[rd..rd + n] && Pending()[n..] == buffer[rd + n..wr];
        data := buffer[rd..rd + n];
        rd := rd + n;
        return true, data;
      }
      return false, [];
    }

    /** `<<` of an integer type of `w` bytes: the value is converted to the type first. */
    method PutInt(v: int, w: nat)
      requires Valid()
      modifies this`wr, buffer
      ensures Valid()
      ensures w <= old(Free()) ==> Written() == old(Written()) + Le(Unsigned(v, w), w)
      ensures w <= old(Free()) ==> Pending() == old(Pending()) + Le(Unsigned(v, w), w)
      ensures w > old(Free()) ==> wr == old(wr) && buffer[..] == old(buffer[..])
    {
      var _ := In(Le(Unsigned(v, w), w));
    }

    /** `>>` of an integer type of `w` bytes; when too few bytes are pending the variable keeps `prev`. */
    method GetInt(w: nat, prev: nat) returns (v: nat)
      requires Valid()
      modifies this`rd
      ensures Valid()
      ensures match TakeInt(old(Pending()), w)
              case Some(t) => v == t.0 && Pending() == t.1
              case None => v == prev && rd == old(rd)
    {
      var ok, data := Out(w);
      v := if ok then UnLe(data) else prev;
    }

    /** `>>` of a signed integer type of `w` bytes. */
    method GetSigned(w: nat, prev: int) returns (v: int)
      requires Valid()
      modifies this`rd
      ensures Valid()
      ensures match TakeInt(old(Pending()), w)
              case Some(t) => v == Signed(t.0, w) && Pending() == t.1
              case None => v == prev && rd == old(rd)
    {
      var ok, data := Out(w);
      v := if ok then Signed(UnLe(data), w) else prev;
    }

    /** `<<` of a string: the bytes up to the first NUL, and a NUL. */
    method PutText(s: seq<byte>)
      requires Valid()
      modifies this`wr, buffer
      ensures Valid()
      ensures |Cut(s)| + 1 <= old(Free()) ==> Written() == old(Written()) + (Cut(s) + [0])
      ensures |Cut(s)| + 1 <= old(Free()) ==> Pending() == old(Pending()) + (Cut(s) + [0])
      ensures |Cut(s)| + 1 > old(Free()) ==> wr == old(wr) && buffer[..] == old(buffer[..])
    {
      var _ := In(Cut(s) + [0]);
    }

    /** `strlen` at the read cursor. */
    method TextLength() returns (n: nat)
      requires Valid()
      requires 0 in buffer[rd..]
      ensures rd + n < buffer.Length && buffer[rd + n] == 0
      ensures forall i | rd <= i < rd + n :: buffer[i] != 0
    {
      ghost var nul :| rd <= nul < buffer.Length && buffer[nul] == 0;
      n := 0;
      while buffer[rd + n] != 0
        invariant rd + n <= nul
        invariant forall i | rd <= i < rd + n :: buffer[i] != 0
        decreases nul - n
      {
        n := n + 1;
      }
    }

    /** `>>` of a string. The original scans memory for a NUL from the read cursor, so one must exist
        in the block; when it lies behind the write cursor nothing is read. */
    method GetText(prev: seq<byte>) returns (s: seq<byte>)
      requires Valid()
      requires 0 in buffer[rd..]
      modifies this`rd
      ensures Valid()
      ensures match TakeText(old(Pending()))
              case Some(t) => s == t.0 && Pending() == t.1
              case None => s == prev && rd == old(rd)
    {
      var n := TextLength();
      TakeTextAt(Pending(), n);
      if rd + n + 1 > wr {
        return prev;
      } else {
        s := buffer[rd..rd + n];
        rd := rd + n + 1;
      }
    }

    /** Moves the read cursor, but never past the write cursor nor below zero. */
    method ReadOffset(offset: int)
      requires Valid() && -MAX_SIZE <= offset < MAX_SIZE
      modifies this`rd
      ensures Valid()
      ensures rd == if 0 <= old(rd) + offset <= wr then old(rd) + offset else old(rd)
    {
      if offset > 0 {
        if rd + offset <= wr {
          rd := rd + offset;
        }
      }
      if offset < 0 {
        if rd + offset >= 0 {
          rd := rd + offset;
        }
      }
    }

    /** Moves the write cursor, but never past the block nor below the read cursor. */
    method WriteOffset(offset: int)
      requires Valid() && -MAX_SIZE <= offset < MAX_SIZE
      modifies this`wr
      ensures Valid()
      ensures wr == if rd <= old(wr) + offset <= buffer.Length then old(wr) + offset else old(wr)
    {
      if offset > 0 {
        if wr + offset <= buffer.Length {
          wr := wr + offset;
        }
      }
      if offset < 0 {
        if wr + offset >= rd {
          wr := wr + offset;
        }
      }
    }

    method Reset()
      requires Valid()
      modifies this`rd, this`wr
      ensures Valid() && Written() == [] && rd == 0
    {
      rd, wr := 0, 0;
    }

    /** Grows the block, keeping its bytes and both cursors; never shrinks it. */
    method Resize(size: nat)
      requires Valid() && size < MAX_SIZE
      modifies this`buffer
      ensures Valid()
      ensures Written() == old(Written()) && Pending() == old(Pending())
      ensures buffer.Length == if size <= old(buffer.Length) then old(buffer.Length) else size
      ensures buffer == old(buffer) || fresh(buffer)
    {
      if size <= buffer.Length {
        return;
      }
      var bigger := new byte[size](_ => 0);
      forall i | 0 <= i < buffer.Length {
        bigger[i] := buffer[i];
      }
      buffer := bigger;
    }
  }

  /** One typed `<<`: an unsigned or signed integer of some width, a float as its bits, or a string. */
  datatype Item = Fixed(width: nat, n: nat) | Int(width: nat, v: int) | Float(bits: seq<byte>) | Text(s: seq<byte>)
  {
    /** The value is one of its type. */
    predicate Ok() {
      match this
      case Fixed(w, n) => n < Pow256(w)
      case Int(w, v) => 0 <= 2 * v + Pow256(w) && 2 * v < Pow256(w)
      case Float(_) => true
      case Text(s) => 0 !in s
    }

    function Put(): seq<byte> {
      match this
      case Fixed(w, n) => Le(n, w)
      case Int(w, v) => Le(Unsigned(v, w), w)
      case Float(bits) => bits
      case Text(s) => s + [0]
    }

    /** The `>>` of the same type. */
    function Get(b: seq<byte>): Option<(Item, seq<byte>)> {
      match this
      case Fixed(w, _) => (match TakeInt(b, w) case Some(t) => Some((Fixed(w, t.0), t.1)) case None => None)
      case Int(w, _) => (match TakeInt(b, w) case Some(t) => Some((Int(w, Signed(t.0, w)), t.1)) case None => None)
      case Float(bits) => if |bits| <= |b| then Some((Float(b[..|bits|]), b[|bits|..])) else None
      case Text(_) => (match TakeText(b) case Some(t) => Some((Text(t.0), t.1)) case None => None)
    }
  }

  function PutAll(items: seq<Item>): seq<byte> {
    if items == [] then [] else items[0].Put() + PutAll(items[1..])
  }

  /** Reading one item after the other, each with the type the shape gives. */
  function GetAll(shape: seq<Item>, b: seq<byte>): Option<(seq<Item>, seq<byte>)> {
    if shape == [] then Some(([], b))
    else match shape[0].Get(b)
      case None => None
      case Some(first) =>
        match GetAll(shape[1..], first.1)
        case None => None
        case Some(others) => Some(([first.0] + others.0, others.1))
  }

  /** Everything written is read back in order by reads of the same types, and nothing of what follows is touched. */
  lemma {:induction false} ReadBackInOrder(items: seq<Item>, rest: seq<byte>)
    requires forall i | 0 <= i < |items| :: items[i].Ok()
    ensures GetAll(items, PutAll(items) + rest) == Some((items, rest))
  {
    if items == [] {
      assert PutAll(items) + rest == rest;
    } else {
      var tail := PutAll(items[1..]) + rest;
      Assoc(items[0].Put(), PutAll(items[1..]), rest);
      GetOfPut(items[0], tail);
      ReadBackInOrder(items[1..], rest);
      assert [items[0]] + items[1..] == items;
    }
  }

  lemma GetOfPut(item: Item, rest: seq<byte>)
    requires item.Ok()
    ensures item.Get(item.Put() + rest) == Some((item, rest))
  {
    match item
    case Fixed(w, n) => TakeIntOfLe(n, w, rest);
    case Int(w, v) =>
      TakeIntOfLe(Unsigned(v, w), w, rest);
      SignedOfUnsigned(v, w);
    case Float(bits) => assert (bits + rest)[..|bits|] == bits;
    case Text(s) => TakeTextOfTerminated(s, rest);
  }

  /** One typed `<<`. */
  method PutItem(bb: ByteBuffer, item: Item)
    requires bb.Valid() && item.Ok() && |item.Put()| <= bb.Free()
    modifies bb`wr, bb.buffer
    ensures bb.Valid() && bb.Pending() == old(bb.Pending()) + item.Put() && bb.Free() == old(bb.Free()) - |item.Put()|
  {
    match item
    case Fixed(w, n) =>
      WrapOnce(n, Pow256(w));
      bb.PutInt(n, w);
    case Int(w, v) => bb.PutInt(v, w);
    case Float(bits) => var _ := bb.In(bits);
    case Text(s) => bb.PutText(s);
  }

  /** One typed `>>` into a variable that holds `prev`, which it keeps when the value is not there. */
  method GetItem(bb: ByteBuffer, prev: Item) returns (r: Item)
    requires bb.Valid() && (prev.Text? ==> 0 in bb.buffer[bb.rd..])
    modifies bb`rd
    ensures bb.Valid()
    ensures match prev.Get(old(bb.Pending()))
            case Some(t) => r == t.0 && bb.Pending() == t.1
            case None => r == prev && bb.rd == old(bb.rd)
  {
    match prev
    case Fixed(w, n) =>
      var v := bb.GetInt(w, n);
      r := Fixed(w, v);
    case Int(w, n) =>
      var v := bb.GetSigned(w, n);
      r := Int(w, v);
    case Float(bits) =>
      var ok, data := bb.Out(|bits|);
      r := if ok then Float(data) else prev;
    case Text(s) =>
      var t := bb.GetText(s);
      r := Text(t);
  }

  /** A run of typed `<<`. */
  method PutItems(bb: ByteBuffer, items: seq<Item>)
    requires bb.Valid() && (forall i | 0 <= i < |items| :: items[i].Ok()) && |PutAll(items)| <= bb.Free()
    modifies bb`wr, bb.buffer
    ensures bb.Valid() && bb.Pending() == old(bb.Pending()) + PutAll(items)
  {
    ghost var b := bb.Pending();
    var i := 0;
    while i < |items|
      invariant i <= |items| && bb.Valid() && |PutAll(items[i..])| <= bb.Free()
      invariant bb.Pending() + PutAll(items[i..]) == b + PutAll(items)
    {
      assert items[i..][1..] == items[i + 1..];
      Assoc(bb.Pending(), items[i].Put(), PutAll(items[i + 1..]));
      PutItem(bb, items[i]);
      i := i + 1;
    }
    assert bb.Pending() + PutAll([]) == bb.Pending();
  }

  /** Typed `>>` into variables of the same types. */
  method GetItems(bb: ByteBuffer, vars: seq<Item>) returns (r: seq<Item>)
    requires bb.Valid() && GetAll(vars, bb.Pending()).Some?
    modifies bb`rd
    ensures bb.Valid() && GetAll(vars, old(bb.Pending())) == Some((r, bb.Pending()))
  {
    hide Item.Get, GetAll;
    ghost var all := GetAll(vars, bb.Pending());
    r := [];
    assert vars[0..] == vars && [] + all.value.0 == all.value.0;
    var i := 0;
    while i < |vars|
      invariant i <= |vars| && bb.Valid()
      invariant match GetAll(vars[i..], bb.Pending()) case Some(t) => all == Some((r + t.0, t.1)) case None => false
    {
      GetAllFirst(vars, i, bb.Pending(), r);
      if vars[i].Text? {
        NulPending(bb);
      }
      var v := GetItem(bb, vars[i]);
      r := r + [v];
      i := i + 1;
    }
    GetAllNone(vars[i..], bb.Pending());
    assert r + [] == r;
  }

  lemma GetAllNone(vars: seq<Item>, b: seq<byte>)
    requires vars == []
    ensures GetAll(vars, b) == Some(([], b))
  {
  }

  /** One turn of the loop of `GetItems`, which has read `r` so far. */
  lemma GetAllFirst(vars: seq<Item>, i: nat, b: seq<byte>, r: seq<Item>)
    requires i < |vars| && GetAll(vars[i..], b).Some?
    ensures vars[i].Get(b).Some? && (vars[i].Text? ==> TakeText(b).Some?)
    ensures var t, all := vars[i].Get(b).value, GetAll(vars[i..], b).value;
            match GetAll(vars[i + 1..], t.1)
            case Some(others) => r + all.0 == (r + [t.0]) + others.0 && all.1 == others.1
            case None => false
  {
    assert vars[i..][1..] == vars[i + 1..] && vars[i..][0] == vars[i];
    var t := vars[i].Get(b).value;
    Assoc(r, [t.0], GetAll(vars[i + 1..], t.1).value.0);
  }

  /** A complete string has its NUL among the pending bytes. */
  lemma NulPending(bb: ByteBuffer)
    requires bb.Valid() && TakeText(bb.Pending()).Some?
    ensures 0 in bb.buffer[bb.rd..]
  {
    var n := |Cut(bb.Pending())|;
    CutStops(bb.Pending());
    assert bb.buffer[bb.rd..][n] == bb.Pending()[n];
  }

  /** On the buffer: values of any types written to it behind what is there come back in order when what was
      there has been taken out and they are read by the same types. */
  method Exchange(bb: ByteBuffer, items: seq<Item>, vars: seq<Item>) returns (older: seq<byte>, r: seq<Item>)
    requires bb.Valid() && |PutAll(items)| <= bb.Free()
    requires (forall i | 0 <= i < |items| :: items[i].Ok()) && SameTypes(items, vars)
    modifies bb`rd, bb`wr, bb.buffer
    ensures bb.Valid() && older == old(bb.Pending()) && r == items && bb.Pending() == []
  {
    var n := bb.Avail();
    PutItems(bb, items);
    var _, front := bb.Out(n);
    older := front;
    assert bb.Pending() == PutAll(items) + [];
    ReadBackInOrder(items, []);
    GetAllSame(items, vars, bb.Pending());
    r := GetItems(bb, vars);
  }

  predicate SameType(a: Item, b: Item) {
    match a
    case Fixed(w, _) => b.Fixed? && b.width == w
    case Int(w, _) => b.Int? && b.width == w
    case Float(bits) => b.Float? && |b.bits| == |bits|
    case Text(_) => b.Text?
  }

  predicate SameTypes(a: seq<Item>, b: seq<Item>) {
    |a| == |b| && forall i | 0 <= i < |a| :: SameType(a[i], b[i])
  }

  /** What is read depends on the types of the variables alone. */
  lemma {:induction false} GetAllSame(a: seq<Item>, b: seq<Item>, bytes: seq<byte>)
    requires SameTypes(a, b)
    ensures GetAll(a, bytes) == GetAll(b, bytes)
  {
    if a != [] {
      assert SameType(a[0], b[0]) && SameTypes(a[1..], b[1..]);
      assert a[0].Get(bytes) == b[0].Get(bytes);
      if a[0].Get(bytes).Some? {
        GetAllSame(a[1..], b[1..], a[0].Get(bytes).value.1);
      }
    }
  }
}
