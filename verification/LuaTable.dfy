/** The Lua table codec as it runs: the serializer appends to a byte buffer while it walks the tables,
    the deserializer consumes one while it builds them. */
module LuaTable {
  import opened Bytes
  import opened LuaCodec
  import opened LuaMeaning
  import Buffers

  /** `after` is `before` with `bytes` appended, provided they fit; in any case nothing already there
      was touched. */
  ghost predicate Appended(before: seq<byte>, free: nat, bytes: seq<byte>, after: seq<byte>) {
    && before <= after && |after| <= |before| + free
    && (|bytes| <= free ==> after == before + bytes)
  }

  lemma AppendedThen(b0: seq<byte>, free: nat, x: seq<byte>, b1: seq<byte>, y: seq<byte>, b2: seq<byte>)
    requires Appended(b0, free, x, b1) && Appended(b1, |b0| + free - |b1|, y, b2)
    ensures Appended(b0, free, x + y, b2)
  {
  }

  /** Appends one tag byte. */
  method PutTag(t: nat, bb: Buffers.ByteBuffer)
    requires bb.Valid() && t < 256
    modifies bb`wr, bb.buffer
    ensures bb.Valid() && Appended(old(bb.Written()), old(bb.Free()), [t], bb.Written())
  {
    PowValues();
    assert Le(Unsigned(t, 1), 1) == [t];
    bb.PutInt(t, 1);
  }

  /** `serialize_entity`: a value whose tag is already written. */
  method SerializeEntity(g: Graph, v: Ref, bb: Buffers.ByteBuffer, depth: nat)
    requires bb.Valid() && IsValue(g, v) && depth < MAX_DEPTH
    modifies bb`wr, bb.buffer
    ensures bb.Valid() && Appended(old(bb.Written()), old(bb.Free()), Print(WireOf(g, v, depth)), bb.Written())
    decreases MAX_DEPTH - depth, 0
  {
    match v
    case Int(n) => bb.PutInt(n, Width(IntTag(n)));
    case Whole(n) => bb.PutInt(n, Width(IntTag(n)));
    case Frac(bits) => var _ := bb.In(bits);
    case Str(s) => bb.PutText(s);
    case Bool(b) => PutTag(if b then 1 else 0, bb);
    case Table(id) => SerializeTable(g, id, bb, depth + 1);
  }

  method SerializeVal(g: Graph, v: Ref, bb: Buffers.ByteBuffer, depth: nat)
    requires bb.Valid() && depth < MAX_DEPTH
    modifies bb`wr, bb.buffer
    ensures bb.Valid()
    ensures Appended(old(bb.Written()), old(bb.Free()), ItemBytes(g, v, depth), bb.Written())
    decreases MAX_DEPTH - depth, 1
  {
    if !IsValueTag(TagOf(g, v)) {
      return;
    }
    ghost var w0, free := bb.Written(), bb.Free();
    PutTag(TagOf(g, v), bb);
    ghost var w1 := bb.Written();
    SerializeEntity(g, v, bb, depth);
    AppendedThen(w0, free, [TagOf(g, v)], w1, Print(WireOf(g, v, depth)), bb.Written());
  }

  /** A supported pair. */
  method SerializePair(g: Graph, key: Ref, v: Ref, bb: Buffers.ByteBuffer, depth: nat)
    requires bb.Valid() && depth < MAX_DEPTH && IsPair(g, (key, v))
    modifies bb`wr, bb.buffer
    ensures bb.Valid()
    ensures Appended(old(bb.Written()), old(bb.Free()), PairBytes(g, (key, v), depth), bb.Written())
    decreases MAX_DEPTH - depth, 1
  {
    var packed := TagOf(g, key) * 16 + TagOf(g, v);
    ghost var w0, free := bb.Written(), bb.Free();
    ghost var keyBytes, valBytes := Print(WireOf(g, key, depth)), Print(WireOf(g, v, depth));
    PairBytesParts(g, key, v, depth);
    hide Print, WireOf, PairBytes, TagOf;
    PutTag(packed, bb);
    ghost var w1 := bb.Written();
    SerializeEntity(g, key, bb, depth);
    ghost var w2 := bb.Written();
    SerializeEntity(g, v, bb, depth);
    AppendedThen(w0, free, [packed], w1, keyBytes, w2);
    AppendedThen(w0, free, [packed] + keyBytes, w2, valBytes, bb.Written());
  }

  method SerializeKeyVal(g: Graph, key: Ref, v: Ref, bb: Buffers.ByteBuffer, depth: nat)
    requires bb.Valid() && depth < MAX_DEPTH
    modifies bb`wr, bb.buffer
    ensures bb.Valid()
    ensures Appended(old(bb.Written()), old(bb.Free()), PairBytes(g, (key, v), depth), bb.Written())
    decreases MAX_DEPTH - depth, 2
  {
    if !IsKeyTag(TagOf(g, key)) {
      return;
    }
    if !IsValueTag(TagOf(g, v)) {
      return;
    }
    SerializePair(g, key, v, bb, depth);
  }

  lemma PairBytesParts(g: Graph, key: Ref, v: Ref, depth: nat)
    requires IsPair(g, (key, v)) && depth < MAX_DEPTH
    ensures PairBytes(g, (key, v), depth)
            == [TagOf(g, key) * 16 + TagOf(g, v)] + Print(WireOf(g, key, depth)) + Print(WireOf(g, v, depth))
  {
    assert WireOf(g, key, depth) == WireScalar(g, key);
  }

  ghost function ItemBytes(g: Graph, v: Ref, depth: nat): seq<byte>
    requires depth < MAX_DEPTH
  {
    if IsValue(g, v) then PrintItem(WireOf(g, v, depth)) else []
  }

  ghost function PairBytes(g: Graph, p: (Ref, Ref), depth: nat): seq<byte>
    requires depth < MAX_DEPTH
  {
    if IsPair(g, p) then PrintField(Field(WireScalar(g, p.0), WireOf(g, p.1, depth))) else []
  }

  lemma {:induction false} PrintItemsAppend(a: seq<Wire>, b: seq<Wire>)
    requires forall x | x in a + b :: WellFormed(x)
    ensures PrintItems(a + b) == PrintItems(a) + PrintItems(b)
  {
    if a == [] {
      assert a + b == b;
    } else {
      assert a + b == [a[0]] + (a[1..] + b);
      assert (a + b)[1..] == a[1..] + b;
      PrintItemsAppend(a[1..], b);
      Assoc(PrintItem(a[0]), PrintItems(a[1..]), PrintItems(b));
    }
  }

  lemma {:induction false} PrintFieldsAppend(a: seq<Field>, b: seq<Field>)
    requires forall x | x in a + b :: GoodField(x)
    ensures PrintFields(a + b) == PrintFields(a) + PrintFields(b)
  {
    if a == [] {
      assert a + b == b;
    } else {
      assert a + b == [a[0]] + (a[1..] + b);
      assert (a + b)[1..] == a[1..] + b;
      PrintFieldsAppend(a[1..], b);
      Assoc(PrintField(a[0]), PrintFields(a[1..]), PrintFields(b));
    }
  }

  lemma {:induction false} WireItemsLast(g: Graph, items: seq<Ref>, v: Ref, depth: nat)
    requires depth < MAX_DEPTH
    ensures WireItems(g, items + [v], depth)
            == WireItems(g, items, depth) + (if IsValue(g, v) then [WireOf(g, v, depth)] else [])
    decreases |items|
  {
    hide WireOf, TagOf, IsValue;
    if items == [] {
      assert (items + [v])[1..] == [];
      assert WireItems(g, [], depth) == [];
    } else {
      assert (items + [v])[1..] == items[1..] + [v] && (items + [v])[0] == items[0];
      WireItemsLast(g, items[1..], v, depth);
      Assoc(if IsValue(g, items[0]) then [WireOf(g, items[0], depth)] else [], WireItems(g, items[1..], depth),
            if IsValue(g, v) then [WireOf(g, v, depth)] else []);
    }
  }

  lemma {:induction false} WirePairsLast(g: Graph, pairs: seq<(Ref, Ref)>, p: (Ref, Ref), depth: nat)
    requires depth < MAX_DEPTH
    ensures WirePairs(g, pairs + [p], depth)
            == WirePairs(g, pairs, depth) + (if IsPair(g, p) then [Field(WireScalar(g, p.0), WireOf(g, p.1, depth))] else [])
    decreases |pairs|
  {
    hide WireOf, WireScalar, TagOf, IsPair;
    if pairs == [] {
      assert (pairs + [p])[1..] == [];
      assert WirePairs(g, [], depth) == [];
    } else {
      assert (pairs + [p])[1..] == pairs[1..] + [p] && (pairs + [p])[0] == pairs[0];
      WirePairsLast(g, pairs[1..], p, depth);
    }
  }

  /** The bytes of a run of elements end with those of its last element. */
  lemma LastItem(g: Graph, items: seq<Ref>, v: Ref, depth: nat)
    requires depth < MAX_DEPTH
    ensures PrintItems(WireItems(g, items + [v], depth)) == PrintItems(WireItems(g, items, depth)) + ItemBytes(g, v, depth)
  {
    WireItemsLast(g, items, v, depth);
    var ws := if IsValue(g, v) then [WireOf(g, v, depth)] else [];
    PrintItemsAppend(WireItems(g, items, depth), ws);
    assert ws != [] ==> ws[1..] == [];
  }

  /** ... and likewise for pairs. */
  lemma LastPair(g: Graph, pairs: seq<(Ref, Ref)>, p: (Ref, Ref), depth: nat)
    requires depth < MAX_DEPTH
    ensures PrintFields(WirePairs(g, pairs + [p], depth)) == PrintFields(WirePairs(g, pairs, depth)) + PairBytes(g, p, depth)
  {
    WirePairsLast(g, pairs, p, depth);
    var fs := if IsPair(g, p) then [Field(WireScalar(g, p.0), WireOf(g, p.1, depth))] else [];
    PrintFieldsAppend(WirePairs(g, pairs, depth), fs);
    assert fs != [] ==> fs[1..] == [];
  }

  method SerializeItems(g: Graph, items: seq<Ref>, bb: Buffers.ByteBuffer, depth: nat)
    requires bb.Valid() && depth < MAX_DEPTH
    modifies bb`wr, bb.buffer
    ensures bb.Valid()
    ensures Appended(old(bb.Written()), old(bb.Free()), PrintItems(WireItems(g, items, depth)) + [NIL], bb.Written())
    decreases MAX_DEPTH - depth, 3
  {
    ghost var w0, free := bb.Written(), bb.Free();
    for i := 0 to |items|
      invariant bb.Valid() && bb.wr + bb.Free() == |w0| + free
      invariant Appended(w0, free, PrintItems(WireItems(g, items[..i], depth)), bb.Written())
    {
      ghost var w1 := bb.Written();
      SerializeVal(g, items[i], bb, depth);
      assert items[..i + 1] == items[..i] + [items[i]];
      LastItem(g, items[..i], items[i], depth);
      AppendedThen(w0, free, PrintItems(WireItems(g, items[..i], depth)), w1, ItemBytes(g, items[i], depth), bb.Written());
    }
    assert items[..|items|] == items;
    ghost var w1 := bb.Written();
    PutTag(NIL, bb);
    AppendedThen(w0, free, PrintItems(WireItems(g, items, depth)), w1, [NIL], bb.Written());
  }

  method SerializePairs(g: Graph, pairs: seq<(Ref, Ref)>, bb: Buffers.ByteBuffer, depth: nat)
    requires bb.Valid() && depth < MAX_DEPTH
    modifies bb`wr, bb.buffer
    ensures bb.Valid()
    ensures Appended(old(bb.Written()), old(bb.Free()), PrintFields(WirePairs(g, pairs, depth)) + [NIL], bb.Written())
    decreases MAX_DEPTH - depth, 3
  {
    ghost var w0, free := bb.Written(), bb.Free();
    var i := 0;
    while i < |pairs|
      invariant i <= |pairs|
      invariant bb.Valid() && bb.wr + bb.Free() == |w0| + free
      invariant Appended(w0, free, PrintFields(WirePairs(g, pairs[..i], depth)), bb.Written())
    {
      ghost var w1 := bb.Written();
      SerializeKeyVal(g, pairs[i].0, pairs[i].1, bb, depth);
      assert pairs[i] == (pairs[i].0, pairs[i].1);
      assert pairs[..i + 1] == pairs[..i] + [pairs[i]];
      LastPair(g, pairs[..i], pairs[i], depth);
      AppendedThen(w0, free, PrintFields(WirePairs(g, pairs[..i], depth)), w1, PairBytes(g, pairs[i], depth), bb.Written());
      i := i + 1;
    }
    assert pairs[..|pairs|] == pairs;
    ghost var w1 := bb.Written();
    PutTag(NIL, bb);
    AppendedThen(w0, free, PrintFields(WirePairs(g, pairs, depth)), w1, [NIL], bb.Written());
  }

  /** `serialize_table`: the elements or the pairs and one nil byte; at the depth limit the nil byte alone. */
  method SerializeTable(g: Graph, id: nat, bb: Buffers.ByteBuffer, depth: nat)
    requires bb.Valid() && depth <= MAX_DEPTH
    modifies bb`wr, bb.buffer
    ensures bb.Valid() && Appended(old(bb.Written()), old(bb.Free()), Print(WireTable(g, id, depth)), bb.Written())
    decreases MAX_DEPTH - depth, 4
  {
    if depth < MAX_DEPTH {
      match g(id)
      case Arr(items) => SerializeItems(g, items, bb, depth);
      case Hash(pairs) => SerializePairs(g, pairs, bb, depth);
    } else {
      PutTag(NIL, bb);
      assert PrintItems([]) + [NIL] == [NIL] && PrintFields([]) + [NIL] == [NIL];
    }
  }

  /** `LuaTable::Serialize` for the value on top of the stack; anything but a table is refused. */
  method Serialize(g: Graph, top: Ref, bb: Buffers.ByteBuffer) returns (ok: bool)
    requires bb.Valid()
    modifies bb`wr, bb.buffer
    ensures bb.Valid() && ok == top.Table?
    ensures !ok ==> bb.wr == old(bb.wr) && bb.buffer[..] == old(bb.buffer[..])
    ensures ok ==> Appended(old(bb.Written()), old(bb.Free()), PrintItem(WireTable(g, top.id, 1)), bb.Written())
  {
    if !top.Table? {
      return false;
    }
    ghost var w0, free := bb.Written(), bb.Free();
    PutTag(TagOf(g, top), bb);
    ghost var w1 := bb.Written();
    SerializeTable(g, top.id, bb, 1);
    AppendedThen(w0, free, [TagOf(g, top)], w1, Print(WireTable(g, top.id, 1)), bb.Written());
    return true;
  }

  // ---------- reading ----------

  /** `>>` of a tag byte when one is pending. */
  method GetTag(bb: Buffers.ByteBuffer) returns (t: byte)
    requires bb.Valid() && bb.Pending() != []
    modifies bb`rd
    ensures bb.Valid() && t == old(bb.Pending())[0] && bb.Pending() == old(bb.Pending())[1..]
  {
    PowValues();
    ghost var b := bb.Pending()[..1];
    assert UnLe(b) == b[0] + 256 * UnLe(b[1..]) == b[0];
    var n := bb.GetInt(1, 0);
    t := n;
  }

  /** The scalar cases of `deserialize_entity`. */
  method DeserializeScalar(tag: nat, bb: Buffers.ByteBuffer) returns (v: Value)
    requires bb.Valid() && IsFixedTag(tag) && Width(tag) <= bb.Avail()
    modifies bb`rd
    ensures bb.Valid() && bb.Pending() == old(bb.Pending())[Width(tag)..]
    ensures v == FixedMeaning(tag, old(bb.Pending())[..Width(tag)])
  {
    if tag == FLT {
      var _, data := bb.Out(8);
      v := VFloat(data);
    } else if tag == BOOL {
      var t := GetTag(bb);
      v := VBool(t != 0);
    } else {
      var u := bb.GetInt(Width(tag), 0);
      v := VInt(if tag <= I64 || tag == U64 then Signed(u, Width(tag)) else u);
    }
  }

  /** `deserialize_entity`, on a complete encoding. */
  method DeserializeEntity(tag: nat, bb: Buffers.ByteBuffer) returns (v: Value)
    requires bb.Valid() && Parse(tag, bb.Pending()).Some?
    modifies bb`rd
    ensures bb.Valid()
    ensures var (w, rest) := Parse(tag, old(bb.Pending())).value;
            WellFormed(w) && v == Meaning(w) && bb.Pending() == rest
    decreases bb.wr - bb.rd, 1
  {
    if IsFixedTag(tag) {
      v := DeserializeScalar(tag, bb);
    } else if tag == STR {
      ghost var b := bb.Pending();
      assert 0 in bb.buffer[bb.rd..] by {
        CutStops(b);
        assert bb.buffer[bb.rd + |Cut(b)|] == 0;
      }
      var s := bb.GetText([]);
      v := VStr(s);
    } else if tag == ARR {
      var fields := DeserializeItems(bb);
      v := VTable(fields);
    } else {
      var fields := DeserializeFields(bb);
      v := VTable(fields);
    }
  }

  /** One step of `ParseItems`. */
  lemma NextItem(ty: byte, b: seq<byte>)
    requires ty != NIL && ParseItems(ty, b).Some?
    ensures Parse(ty, b).Some? && Parse(ty, b).value.1 != []
    ensures var (items, rest) := ParseItems(ty, b).value;
            var (w, after) := Parse(ty, b).value;
            && items != [] && items[0] == w && |after| <= |b|
            && ParseItems(after[0], after[1..]) == Some((items[1..], rest))
  {
  }

  /** `deserialize_table` for an array: elements are numbered from 1 until the nil tag. */
  method DeserializeItems(bb: Buffers.ByteBuffer) returns (fields: map<Key, Value>)
    requires bb.Valid() && Parse(ARR, bb.Pending()).Some?
    modifies bb`rd
    ensures bb.Valid()
    ensures var (w, rest) := Parse(ARR, old(bb.Pending())).value;
            WellFormed(w) && VTable(fields) == Meaning(w) && bb.Pending() == rest
    decreases bb.wr - bb.rd, 0
  {
    ghost var b := bb.Pending();
    PrintOfParse(ARR, b);
    ghost var (items, rest) := ParseItems(b[0], b[1..]).value;
    fields := map[];
    ghost var left := items;
    var idx := 1;
    var ty := GetTag(bb);
    while ty != NIL
      invariant bb.Valid() && old(bb.rd) < bb.rd
      invariant ParseItems(ty, bb.Pending()) == Some((left, rest))
      invariant forall x | x in left :: WellFormed(x)
      invariant SetItems(fields, idx, ItemMeanings(left)) == ArrayFields(ItemMeanings(items))
      decreases bb.wr - bb.rd
    {
      NextItem(ty, bb.Pending());
      var v := DeserializeEntity(ty, bb);
      fields := fields[KInt(idx) := v];
      idx := idx + 1;
      left := left[1..];
      ty := GetTag(bb);
    }
  }

  /** One step of `ParseFields`. */
  lemma NextField(ty: byte, b: seq<byte>)
    requires ty != NIL && ParseFields(ty, b).Some?
    ensures Parse(ty / 16, b).Some? && IsKeyTag(ty / 16)
    ensures var (fields, rest) := ParseFields(ty, b).value;
            var (key, mid) := Parse(ty / 16, b).value;
            && Parse(ty % 16, mid).Some? && Parse(ty % 16, mid).value.1 != []
            && var (val, after) := Parse(ty % 16, mid).value;
               && fields != [] && fields[0] == Field(key, val) && |after| <= |mid| <= |b|
               && ParseFields(after[0], after[1..]) == Some((fields[1..], rest))
  {
  }

  function KeyOfValue(v: Value): Key
    requires v.VStr? || v.VInt?
  {
    if v.VStr? then KStr(v.s) else KInt(v.n)
  }

  lemma KeyOfMeaning(w: Wire)
    requires WellFormed(w) && IsKeyTag(Tag(w))
    ensures Meaning(w).VStr? || Meaning(w).VInt?
    ensures KeyOfValue(Meaning(w)) == KeyMeaning(w)
  {
  }

  /** `deserialize_table` for a hash: one `rawset` for each pair until the nil tag. */
  method DeserializeFields(bb: Buffers.ByteBuffer) returns (fields: map<Key, Value>)
    requires bb.Valid() && Parse(HASH, bb.Pending()).Some?
    modifies bb`rd
    ensures bb.Valid()
    ensures var (w, rest) := Parse(HASH, old(bb.Pending())).value;
            WellFormed(w) && VTable(fields) == Meaning(w) && bb.Pending() == rest
    decreases bb.wr - bb.rd, 0
  {
    ghost var b := bb.Pending();
    PrintOfParse(HASH, b);
    ghost var (all, rest) := ParseFields(b[0], b[1..]).value;
    fields := map[];
    ghost var left := all;
    var ty := GetTag(bb);
    while ty != NIL
      invariant bb.Valid() && old(bb.rd) < bb.rd
      invariant ParseFields(ty, bb.Pending()) == Some((left, rest))
      invariant forall f | f in left :: GoodField(f)
      invariant SetAll(fields, FieldMeanings(left)) == SetAll(map[], FieldMeanings(all))
      decreases bb.wr - bb.rd
    {
      NextField(ty, bb.Pending());
      assert GoodField(left[0]);
      KeyOfMeaning(left[0].key);
      var key := DeserializeEntity(ty / 16, bb);
      var v := DeserializeEntity(ty % 16, bb);
      fields := fields[KeyOfValue(key) := v];
      left := left[1..];
      ty := GetTag(bb);
    }
  }

  /** `LuaTable::Deserialize`: a table, or a refusal when the next tag is not a table's. */
  method Deserialize(bb: Buffers.ByteBuffer) returns (r: Option<Value>)
    requires bb.Valid() && bb.Pending() != []
    requires var b := bb.Pending(); b[0] == ARR || b[0] == HASH ==> Parse(b[0], b[1..]).Some?
    modifies bb`rd
    ensures bb.Valid()
    ensures var b := old(bb.Pending());
            if b[0] == ARR || b[0] == HASH then
              var (w, rest) := Parse(b[0], b[1..]).value;
              WellFormed(w) && r == Some(Meaning(w)) && bb.Pending() == rest
            else r == None && bb.Pending() == b[1..]
  {
    var ty := GetTag(bb);
    if ty == ARR {
      var fields := DeserializeItems(bb);
      return Some(VTable(fields));
    } else if ty == HASH {
      var fields := DeserializeFields(bb);
      return Some(VTable(fields));
    } else {
      return None;
    }
  }
}
