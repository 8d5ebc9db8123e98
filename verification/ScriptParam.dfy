/** Script parameters: one encoded Lua table, kept as bytes so that it can wait in a timer or travel
    inside another buffer behind a length. */
module ScriptParams {
  import opened Bytes
  import opened LuaCodec
  import opened LuaMeaning
  import Buffers
  import LuaTable

  const DEFAULT_SIZE := 16 * 1024

  /** The bytes of a parameter inside a carrier. */
  function Envelope(p: seq<byte>): seq<byte> {
    Le(|p|, 4) + p
  }

  /** Taking a parameter off the front of a carrier. */
  function OpenEnvelope(b: seq<byte>): Option<(seq<byte>, seq<byte>)> {
    match Buffers.TakeInt(b, 4)
    case None => None
    case Some(t) => if t.0 <= |t.1| then Some((t.1[..t.0], t.1[t.0..])) else None
  }

  /** Pending bytes that `Push` may be called on: none, a complete table, or no table at all. */
  predicate Pushable(p: seq<byte>) {
    p != [] && (p[0] == ARR || p[0] == HASH) ==> Parse(p[0], p[1..]).Some?
  }

  /** The table `Push` leaves on the stack, and the bytes still pending afterwards. */
  function Pushed(p: seq<byte>): (Value, seq<byte>)
    requires Pushable(p)
  {
    if p == [] then (VTable(map[]), [])
    else if p[0] == ARR || p[0] == HASH then
      PrintOfParse(p[0], p[1..]);
      var t := Parse(p[0], p[1..]).value;
      (Meaning(t.0), t.1)
    else (VTable(map[]), p[1..])
  }

  class ScriptParam {
    const params: Buffers.ByteBuffer

    ghost predicate Valid()
      reads this, params
    {
      params.Valid()
    }

    constructor (size: nat)
      requires size < Buffers.MAX_SIZE
      ensures Valid() && fresh(params) && fresh(params.buffer)
      ensures params.buffer.Length == size && params.Pending() == []
    {
      params := new Buffers.ByteBuffer(size);
    }

    /** Stores the table on top of the stack; a buffer of no size is given the default one first. */
    method Init(g: Graph, top: Ref) returns (ok: bool)
      requires Valid()
      modifies params, params.buffer
      ensures Valid() && ok == top.Table?
      ensures params.buffer == old(params.buffer) || fresh(params.buffer)
      ensures params.buffer.Length == if old(params.buffer.Length) == 0 then DEFAULT_SIZE else old(params.buffer.Length)
      ensures !ok ==> params.Pending() == []
      ensures ok && |PrintItem(WireTable(g, top.id, 1))| <= params.buffer.Length
              ==> params.Pending() == PrintItem(WireTable(g, top.id, 1))
    {
      if params.buffer.Length == 0 {
        params.Resize(DEFAULT_SIZE);
      }
      params.Reset();
      ok := LuaTable.Serialize(g, top, params);
      assert ok ==> params.Pending() == params.Written();
    }

    method Push() returns (v: Value)
      requires Valid() && Pushable(params.Pending())
      modifies params`rd
      ensures Valid()
      ensures (v, params.Pending()) == Pushed(old(params.Pending()))
    {
      if params.Avail() == 0 {
        return VTable(map[]);
      }
      var r := LuaTable.Deserialize(params);
      v := match r case Some(t) => t case None => VTable(map[]);
    }

    /** Appends the pending bytes to a carrier behind their number; they stay pending here. */
    method Serialize(bb: Buffers.ByteBuffer)
      requires Valid() && bb.Valid() && bb != params && bb.buffer != params.buffer
      modifies bb`wr, bb.buffer
      ensures Valid() && bb.Valid() && params.Pending() == old(params.Pending())
      ensures 4 + |params.Pending()| <= old(bb.Free())
              ==> bb.Pending() == old(bb.Pending()) + Envelope(params.Pending())
      ensures old(bb.Written()) <= bb.Written()
    {
      ghost var p, w0 := params.Pending(), bb.Pending();
      PowValues();
      WrapOnce(params.Avail(), Pow256(4));
      bb.PutInt(params.Avail(), 4);
      var _ := bb.In(params.buffer[params.rd..params.wr]);
      assert w0 + Le(|p|, 4) + p == w0 + (Le(|p|, 4) + p);
    }

    /** Takes a parameter out of a carrier; one that does not fit this buffer is skipped. */
    method Deserialize(bb: Buffers.ByteBuffer)
      requires Valid() && bb.Valid() && bb != params && bb.buffer != params.buffer
      requires OpenEnvelope(bb.Pending()).Some?
      modifies params, params.buffer, bb`rd
      ensures Valid() && bb.Valid()
      ensures params.buffer == old(params.buffer) || fresh(params.buffer)
      ensures params.buffer.Length == if old(params.buffer.Length) == 0 then DEFAULT_SIZE else old(params.buffer.Length)
      ensures var (p, rest) := OpenEnvelope(old(bb.Pending())).value;
              && bb.Pending() == rest
              && params.Pending() == if |p| <= params.buffer.Length then p else []
    {
      if params.buffer.Length == 0 {
        params.Resize(DEFAULT_SIZE);
      }
      params.Reset();
      var size := bb.GetInt(4, 0);
      Load(bb, size);
    }

    method Load(bb: Buffers.ByteBuffer, size: nat)
      requires Valid() && bb.Valid() && bb != params && bb.buffer != params.buffer
      requires params.Pending() == [] && params.wr == 0 && size <= |bb.Pending()|
      modifies params`wr, params.buffer, bb`rd
      ensures Valid() && bb.Valid() && bb.Pending() == old(bb.Pending())[size..]
      ensures params.Pending() == if size <= params.buffer.Length then old(bb.Pending())[..size] else []
    {
      if size != 0 {
        ghost var b := bb.Pending();
        var p := bb.buffer[bb.rd..bb.rd + size];
        assert p == b[..size];
        var _ := params.In(p);
        bb.ReadOffset(size);
      }
    }
  }

  /** A parameter taken out of a carrier is, byte for byte, the one put in, and what follows it is left. */
  lemma EnvelopeRoundTrip(p: seq<byte>, rest: seq<byte>)
    requires |p| < Buffers.MAX_SIZE
    ensures OpenEnvelope(Envelope(p) + rest) == Some((p, rest))
  {
    PowValues();
    Buffers.TakeIntOfLe(|p|, 4, p + rest);
    assert Envelope(p) + rest == Le(|p|, 4) + (p + rest);
  }

  /** A stored table travels unchanged and is pushed once: a second push finds nothing and gives an empty table. */
  lemma TransportedTable(g: Graph, id: nat, rest: seq<byte>)
    requires |PrintItem(WireTable(g, id, 1))| < Buffers.MAX_SIZE
    ensures var p := PrintItem(WireTable(g, id, 1));
            && OpenEnvelope(Envelope(p) + rest) == Some((p, rest))
            && Pushable(p) && Pushed(p) == (NormTable(g, id, 1, Shift), [])
            && Pushed(Pushed(p).1).0 == VTable(map[])
  {
    var w := WireTable(g, id, 1);
    EnvelopeRoundTrip(PrintItem(w), rest);
    RoundTrip(g, id, []);
    assert PrintItem(w)[1..] == Print(w) + [];
  }
}
