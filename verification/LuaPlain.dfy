/** What the codec keeps, told from the values themselves: which tag an integer gets, which values and pairs are
    written at all, and that a plain table comes back as the very table it was. */
module LuaPlain {
  import opened Bytes
  import opened LuaCodec
  import opened LuaMeaning

  /** The tag of an integer, by its range: the unsigned ones leave out their last value but for one byte, and
      what would take a signed tag of four bytes gets the unsigned one. */
  lemma IntTagExactly(n: int64)
    ensures IntTag(n) == I8 <==> -0x80 <= n < 0
    ensures IntTag(n) == I16 <==> -0x8000 <= n < -0x80
    ensures IntTag(n) != I32
    ensures IntTag(n) == I64 <==> n < -0x8000_0000
    ensures IntTag(n) == U8 <==> 0 <= n <= 0xFF
    ensures IntTag(n) == U16 <==> 0x100 <= n < 0xFFFF
    ensures IntTag(n) == U32 <==> 0xFFFF <= n < 0xFFFF_FFFF || -0x8000_0000 <= n < -0x8000
    ensures IntTag(n) == U64 <==> n >= 0xFFFF_FFFF
  {
  }

  /** Everything but nil and what Lua has besides numbers, strings, booleans and tables is written as an
      element; of pairs, those with an integer or a string for a key and such a value. */
  lemma SupportedExactly(g: Graph, k: Ref, v: Ref)
    ensures IsValue(g, v) <==> !v.Nil? && !v.Other?
    ensures IsPair(g, (k, v)) <==> (k.Int? || k.Whole? || k.Str?) && !v.Nil? && !v.Other?
  {
    if k.Int? || k.Whole? {
      IntTagExactly(k.n);
    }
    if v.Int? || v.Whole? {
      IntTagExactly(v.n);
    }
  }

  // ---------- plain tables ----------

  /** A value all of which is written: nothing unsupported, no string with a NUL, and tables nested less than
      `MAX_DEPTH` deep. */
  predicate Plain(g: Graph, v: Ref, depth: nat)
    requires depth < MAX_DEPTH
    decreases MAX_DEPTH - depth, 0
  {
    match v
    case Nil => false
    case Other => false
    case Str(s) => 0 !in s
    case Table(id) => PlainTable(g, id, depth + 1)
    case _ => true
  }

  predicate PlainTable(g: Graph, id: nat, depth: nat)
    requires depth <= MAX_DEPTH
    decreases MAX_DEPTH - depth, 1
  {
    depth < MAX_DEPTH &&
    match g(id)
    case Arr(items) => forall v | v in items :: Plain(g, v, depth)
    case Hash(pairs) => Tidy(pairs) && forall p | p in pairs :: PlainKey(p.0) && Plain(g, p.1, depth)
  }

  predicate PlainKey(k: Ref) { k.Int? || k.Whole? || k.Str? }

  function KeyOf(k: Ref): Key
    requires PlainKey(k)
  {
    if k.Str? then KStr(k.s) else KInt(k.n)
  }

  /** Whether `x` is `v` to Lua; a float with an integral value is the integer. */
  predicate Is(g: Graph, v: Ref, depth: nat, x: Value)
    requires depth < MAX_DEPTH
    decreases MAX_DEPTH - depth, 0
  {
    match v
    case Int(n) => x == VInt(n)
    case Whole(n) => x == VInt(n)
    case Frac(bits) => x == VFloat(bits)
    case Str(s) => x == VStr(s)
    case Bool(b) => x == VBool(b)
    case Table(id) => x.VTable? && IsTable(g, id, depth + 1, x.fields)
    case _ => false
  }

  /** Whether a table has the elements of an array from index 1, or exactly the pairs of a hash. */
  predicate IsTable(g: Graph, id: nat, depth: nat, fields: map<Key, Value>)
    requires depth <= MAX_DEPTH
    decreases MAX_DEPTH - depth, 1
  {
    depth < MAX_DEPTH &&
    match g(id)
    case Arr(items) =>
      && (forall k | k in fields :: k.KInt? && 1 <= k.n <= |items|)
      && forall n | 1 <= n <= |items| :: KInt(n) in fields && Is(g, items[n - 1], depth, fields[KInt(n)])
    case Hash(pairs) =>
      && (forall k | k in fields :: exists p | p in pairs :: PlainKey(p.0) && KeyOf(p.0) == k)
      && forall p | p in pairs :: PlainKey(p.0) && KeyOf(p.0) in fields && Is(g, p.1, depth, fields[KeyOf(p.0)])
  }

  lemma PlainIsValue(g: Graph, v: Ref, depth: nat)
    requires depth < MAX_DEPTH && Plain(g, v, depth)
    ensures IsValue(g, v)
  {
    SupportedExactly(g, v, v);
  }

  lemma {:induction false} AllItems(g: Graph, items: seq<Ref>, depth: nat)
    requires depth < MAX_DEPTH && forall v | v in items :: Plain(g, v, depth)
    ensures (forall i | 0 <= i < |items| :: IsValue(g, items[i]))
    ensures var r := NormItems(g, items, depth, Keep);
            |r| == |items| && forall i | 0 <= i < |items| :: r[i] == Norm(g, items[i], depth, Keep)
    decreases |items|
  {
    if items != [] {
      hide Plain, IsValue, Norm;
      assert items[0] in items && forall v | v in items[1..] :: v in items;
      PlainIsValue(g, items[0], depth);
      AllItems(g, items[1..], depth);
      assert forall i | 0 < i < |items| :: items[i] == items[1..][i - 1];
    }
  }

  /** Such items come back at their places. */
  lemma ArrayAt(g: Graph, items: seq<Ref>, depth: nat)
    requires depth < MAX_DEPTH && forall v | v in items :: Plain(g, v, depth)
    ensures var fields := ArrayFields(NormItems(g, items, depth, Keep));
            && (forall k | k in fields :: k.KInt? && 1 <= k.n <= |items|)
            && forall n | 1 <= n <= |items| ::
                 KInt(n) in fields && IsValue(g, items[n - 1]) && fields[KInt(n)] == Norm(g, items[n - 1], depth, Keep)
  {
    hide Norm, NormItems, Plain, SetItems;
    AllItems(g, items, depth);
    var vals := NormItems(g, items, depth, Keep);
    forall k: Key
      ensures var fields := ArrayFields(vals);
              && (k in fields ==> k.KInt? && 1 <= k.n <= |items|)
              && (k.KInt? && 1 <= k.n <= |items| ==> k in fields && fields[k] == vals[k.n - 1])
    {
      SetItemsAt(map[], 1, vals, k);
    }
  }

  /** Keys without NUL stay distinct. */
  lemma {:induction false} TidyDistinct(g: Graph, pairs: seq<(Ref, Ref)>, depth: nat)
    requires depth < MAX_DEPTH && Tidy(pairs)
    ensures Distinct(NormPairs(g, pairs, depth, Keep))
    decreases |pairs|
  {
    if pairs != [] {
      TidyTail(pairs);
      TidyDistinct(g, pairs[1..], depth);
      if IsPair(g, pairs[0]) {
        TidyOnce(g, pairs);
        NormHasKey(g, pairs[1..], depth, NormKey(pairs[0].0, Keep));
        var rest, all := NormPairs(g, pairs[1..], depth, Keep), NormPairs(g, pairs, depth, Keep);
        assert all[0].0 == NormKey(pairs[0].0, Keep) && forall i | 0 < i < |all| :: all[i] == rest[i - 1];
      } else {
        assert NormPairs(g, pairs, depth, Keep) == NormPairs(g, pairs[1..], depth, Keep);
      }
    }
  }

  /** A plain value is kept, but for integers in the band. */
  lemma {:induction false} PlainIs(g: Graph, v: Ref, depth: nat)
    requires depth < MAX_DEPTH && Plain(g, v, depth)
    ensures IsValue(g, v) && Is(g, v, depth, Norm(g, v, depth, Keep))
    decreases MAX_DEPTH - depth, 0
  {
    PlainIsValue(g, v, depth);
    if v.Str? {
      assert Cut(v.s) == v.s;
    } else if v.Table? {
      PlainIsTable(g, v.id, depth + 1);
    }
  }

  lemma {:induction false} PlainIsTable(g: Graph, id: nat, depth: nat)
    requires depth <= MAX_DEPTH && PlainTable(g, id, depth)
    ensures IsTable(g, id, depth, NormTable(g, id, depth, Keep).fields)
    decreases MAX_DEPTH - depth, 2
  {
    match g(id)
    case Arr(items) => PlainArray(g, id, depth);
    case Hash(pairs) => PlainHash(g, id, depth);
  }

  lemma {:induction false} PlainArray(g: Graph, id: nat, depth: nat)
    requires depth < MAX_DEPTH && PlainTable(g, id, depth) && g(id).Arr?
    ensures IsTable(g, id, depth, NormTable(g, id, depth, Keep).fields)
    decreases MAX_DEPTH - depth, 1
  {
    hide Norm, NormItems, Plain, SetItems;
    var items := g(id).items;
    ArrayAt(g, items, depth);
    forall v | v in items
      ensures IsValue(g, v) && Is(g, v, depth, Norm(g, v, depth, Keep))
    {
      PlainIs(g, v, depth);
    }
  }

  lemma {:induction false} PlainHash(g: Graph, id: nat, depth: nat)
    requires depth < MAX_DEPTH && PlainTable(g, id, depth) && g(id).Hash?
    ensures IsTable(g, id, depth, NormTable(g, id, depth, Keep).fields)
    decreases MAX_DEPTH - depth, 1
  {
    var pairs, fields := g(id).pairs, NormTable(g, id, depth, Keep).fields;
    TidyDistinct(g, pairs, depth);
    HashContents(g, id, depth, Keep);
    forall p | p in pairs
      ensures IsPair(g, p) && NormKey(p.0, Keep) == KeyOf(p.0)
    {
      SupportedExactly(g, p.0, p.1);
      if p.0.Str? {
        assert Cut(p.0.s) == p.0.s;
      }
    }
    forall p | p in pairs
      ensures KeyOf(p.0) in fields && Is(g, p.1, depth, fields[KeyOf(p.0)])
    {
      PlainIs(g, p.1, depth);
    }
  }

  /** The codec gives back the very table it was given: for every plain table without an integer in the band,
      whatever follows it. */
  lemma PlainRoundTrip(g: Graph, id: nat, rest: seq<byte>)
    requires PlainTable(g, id, 1) && CleanTable(g, id, 1)
    ensures var w := WireTable(g, id, 1);
            && Parse(Tag(w), Print(w) + rest) == Some((w, rest))
            && Meaning(w).VTable? && IsTable(g, id, 1, Meaning(w).fields)
  {
    RoundTrip(g, id, rest);
    CleanKept(g, id, 1);
    PlainIsTable(g, id, 1);
  }
}
