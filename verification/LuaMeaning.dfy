/** What the codec does to a table: the tree the serializer writes for it, the Lua value the tree stands
    for, and how that value relates to the table that was serialized. */
module LuaMeaning {
  import opened Bytes
  import opened LuaCodec

  // ---------- Lua values after decoding ----------

  datatype Key = KInt(n: int) | KStr(s: seq<byte>)

  datatype Value = VInt(n: int) | VFloat(bits: seq<byte>) | VStr(s: seq<byte>) | VBool(b: bool) | VTable(fields: map<Key, Value>)

  /** The table that a run of `rawseti` calls builds, the first of them with index `idx`. */
  function SetItems(acc: map<Key, Value>, idx: nat, vals: seq<Value>): map<Key, Value>
    decreases |vals|
  {
    if vals == [] then acc else SetItems(acc[KInt(idx) := vals[0]], idx + 1, vals[1..])
  }

  function ArrayFields(vals: seq<Value>): map<Key, Value> {
    SetItems(map[], 1, vals)
  }

  /** Every element is found at its index, and nothing else is added. */
  lemma {:induction false} SetItemsAt(acc: map<Key, Value>, idx: nat, vals: seq<Value>, k: Key)
    ensures var t := SetItems(acc, idx, vals);
            var isItem := k.KInt? && idx <= k.n < idx + |vals|;
            && (k in t <==> isItem || k in acc)
            && (isItem ==> t[k] == vals[k.n - idx])
            && (!isItem && k in acc ==> t[k] == acc[k])
    decreases |vals|
  {
    if vals != [] {
      SetItemsAt(acc[KInt(idx) := vals[0]], idx + 1, vals[1..], k);
    }
  }

  /** The table that a run of `rawset` calls builds: a later call wins over an earlier one. */
  function SetAll(acc: map<Key, Value>, entries: seq<(Key, Value)>): map<Key, Value>
    decreases |entries|
  {
    if entries == [] then acc else SetAll(acc[entries[0].0 := entries[0].1], entries[1..])
  }

  function FixedMeaning(t: nat, p: seq<byte>): Value
    requires IsFixedTag(t) && |p| == Width(t)
  {
    if t == FLT then VFloat(p)
    else if t == BOOL then VBool(p[0] != 0)
    else if t <= I64 || t == U64 then VInt(Signed(UnLe(p), Width(t)))
    else VInt(UnLe(p))
  }

  /** The Lua value of a tree. */
  function Meaning(w: Wire): Value
    requires WellFormed(w)
    decreases w, 0
  {
    match w
    case Fixed(t, p) => FixedMeaning(t, p)
    case Text(s) => VStr(s)
    case List(items) => VTable(ArrayFields(ItemMeanings(items)))
    case Dict(fields) => VTable(SetAll(map[], FieldMeanings(fields)))
  }

  function KeyMeaning(w: Wire): Key
    requires WellFormed(w) && IsKeyTag(Tag(w))
  {
    match w
    case Fixed(t, p) => KInt(FixedMeaning(t, p).n)
    case Text(s) => KStr(s)
  }

  function ItemMeanings(items: seq<Wire>): (r: seq<Value>)
    requires forall x | x in items :: WellFormed(x)
    decreases items, 0
  {
    if items == [] then [] else [Meaning(items[0])] + ItemMeanings(items[1..])
  }

  function FieldMeaning(f: Field): (Key, Value)
    requires GoodField(f)
    decreases f, 1
  {
    (KeyMeaning(f.key), Meaning(f.val))
  }

  function FieldMeanings(fields: seq<Field>): (r: seq<(Key, Value)>)
    requires forall f | f in fields :: GoodField(f)
    decreases fields, 0
  {
    if fields == [] then [] else [FieldMeaning(fields[0])] + FieldMeanings(fields[1..])
  }

  // ---------- the tree written for a table ----------

  predicate IsValue(g: Graph, v: Ref) { IsValueTag(TagOf(g, v)) }

  predicate IsPair(g: Graph, p: (Ref, Ref)) { IsKeyTag(TagOf(g, p.0)) && IsValue(g, p.1) }

  /** A scalar; integers are converted to the type their tag names. */
  function WireScalar(g: Graph, v: Ref): (w: Wire)
    requires IsValue(g, v) && !v.Table?
    ensures WellFormed(w) && Tag(w) == TagOf(g, v)
  {
    match v
    case Int(n) => var t := IntTag(n); Fixed(t, Le(Unsigned(n, Width(t)), Width(t)))
    case Whole(n) => var t := IntTag(n); Fixed(t, Le(Unsigned(n, Width(t)), Width(t)))
    case Frac(bits) => Fixed(FLT, bits)
    case Str(s) => Text(Cut(s))
    case Bool(b) => Fixed(BOOL, [if b then 1 else 0])
  }

  function WireOf(g: Graph, v: Ref, depth: nat): (w: Wire)
    requires IsValue(g, v) && depth < MAX_DEPTH
    ensures WellFormed(w) && Tag(w) == TagOf(g, v) && Within(w, MAX_DEPTH - depth)
    decreases MAX_DEPTH - depth, 0, 0
  {
    if v.Table? then WireTable(g, v.id, depth + 1) else WireScalar(g, v)
  }

  /** A table reached at the depth limit is written empty. */
  function WireTable(g: Graph, id: nat, depth: nat): (w: Wire)
    requires depth <= MAX_DEPTH
    ensures WellFormed(w) && Tag(w) == TagOf(g, Table(id)) && Within(w, MAX_DEPTH + 1 - depth)
    decreases MAX_DEPTH - depth, 2, 0
  {
    match g(id)
    case Arr(items) => List(if depth < MAX_DEPTH then WireItems(g, items, depth) else [])
    case Hash(pairs) => Dict(if depth < MAX_DEPTH then WirePairs(g, pairs, depth) else [])
  }

  /** Elements of unsupported types are skipped. */
  function WireItems(g: Graph, items: seq<Ref>, depth: nat): (ws: seq<Wire>)
    requires depth < MAX_DEPTH
    ensures forall x | x in ws :: WellFormed(x) && Within(x, MAX_DEPTH - depth)
    decreases MAX_DEPTH - depth, 1, |items|
  {
    if items == [] then []
    else (if IsValue(g, items[0]) then [WireOf(g, items[0], depth)] else []) + WireItems(g, items[1..], depth)
  }

  /** Pairs with an unsupported key or value are skipped. */
  function WirePairs(g: Graph, pairs: seq<(Ref, Ref)>, depth: nat): (ws: seq<Field>)
    requires depth < MAX_DEPTH
    ensures forall f | f in ws :: GoodField(f) && Within(f.val, MAX_DEPTH - depth)
    decreases MAX_DEPTH - depth, 1, |pairs|
  {
    if pairs == [] then []
    else (if IsPair(g, pairs[0]) then [Field(WireScalar(g, pairs[0].0), WireOf(g, pairs[0].1, depth))] else [])
         + WirePairs(g, pairs[1..], depth)
  }

  // ---------- the value that comes back, defined on the source table alone ----------

  /** The integers the codec does not keep: their tag names an unsigned type. */
  predicate InBand(n: int) { -0x8000_0000 <= n < -0x8000 }

  function Shift(n: int): int { if InBand(n) then n + 0x1_0000_0000 else n }

  function Keep(n: int): int { n }

  function NormKey(v: Ref, conv: int -> int): Key
    requires v.Int? || v.Whole? || v.Str?
  {
    if v.Str? then KStr(Cut(v.s)) else KInt(conv(v.n))
  }

  /** `v` with integral floats as integers, integers converted by `conv`, strings cut at the first NUL,
      unsupported elements and pairs dropped and tables at the depth limit emptied. */
  function Norm(g: Graph, v: Ref, depth: nat, conv: int -> int): Value
    requires IsValue(g, v) && depth < MAX_DEPTH
    decreases MAX_DEPTH - depth, 0, 0
  {
    match v
    case Int(n) => VInt(conv(n))
    case Whole(n) => VInt(conv(n))
    case Frac(bits) => VFloat(bits)
    case Str(s) => VStr(Cut(s))
    case Bool(b) => VBool(b)
    case Table(id) => NormTable(g, id, depth + 1, conv)
  }

  function NormTable(g: Graph, id: nat, depth: nat, conv: int -> int): Value
    requires depth <= MAX_DEPTH
    decreases MAX_DEPTH - depth, 2, 0
  {
    if depth == MAX_DEPTH then VTable(map[])
    else match g(id)
      case Arr(items) => VTable(ArrayFields(NormItems(g, items, depth, conv)))
      case Hash(pairs) => VTable(SetAll(map[], NormPairs(g, pairs, depth, conv)))
  }

  function NormItems(g: Graph, items: seq<Ref>, depth: nat, conv: int -> int): (r: seq<Value>)
    requires depth < MAX_DEPTH
    decreases MAX_DEPTH - depth, 1, |items|
  {
    if items == [] then []
    else (if IsValue(g, items[0]) then [Norm(g, items[0], depth, conv)] else []) + NormItems(g, items[1..], depth, conv)
  }

  function NormPairs(g: Graph, pairs: seq<(Ref, Ref)>, depth: nat, conv: int -> int): (r: seq<(Key, Value)>)
    requires depth < MAX_DEPTH
    decreases MAX_DEPTH - depth, 1, |pairs|
  {
    if pairs == [] then []
    else (if IsPair(g, pairs[0]) then [(NormKey(pairs[0].0, conv), Norm(g, pairs[0].1, depth, conv))] else [])
         + NormPairs(g, pairs[1..], depth, conv)
  }

  // ---------- the tree means the normalized table ----------

  lemma IntegerMeaning(n: int64)
    ensures var t := IntTag(n);
            FixedMeaning(t, Le(Unsigned(n, Width(t)), Width(t))) == VInt(Shift(n))
  {
    PowValues();
    var w := Width(IntTag(n));
    UnLeOfLe(Unsigned(n, w), w);
    WrapOnce(n, Pow256(w));
    if IntTag(n) <= I64 {
      SignedOfUnsigned(n, w);
    }
  }

  lemma {:induction false} MeaningOfWire(g: Graph, v: Ref, depth: nat)
    requires IsValue(g, v) && depth < MAX_DEPTH
    ensures Meaning(WireOf(g, v, depth)) == Norm(g, v, depth, Shift)
    decreases MAX_DEPTH - depth, 0, 0
  {
    match v
    case Table(id) => MeaningOfWireTable(g, id, depth + 1);
    case Int(n) => IntegerMeaning(n);
    case Whole(n) => IntegerMeaning(n);
    case _ =>
  }

  lemma {:induction false} MeaningOfWireTable(g: Graph, id: nat, depth: nat)
    requires depth <= MAX_DEPTH
    ensures Meaning(WireTable(g, id, depth)) == NormTable(g, id, depth, Shift)
    decreases MAX_DEPTH - depth, 2, 0
  {
    if depth < MAX_DEPTH {
      match g(id)
      case Arr(items) => MeaningOfWireItems(g, items, depth);
      case Hash(pairs) => MeaningOfWirePairs(g, pairs, depth);
    }
  }

  lemma {:induction false} MeaningOfWireItems(g: Graph, items: seq<Ref>, depth: nat)
    requires depth < MAX_DEPTH
    ensures ItemMeanings(WireItems(g, items, depth)) == NormItems(g, items, depth, Shift)
    decreases MAX_DEPTH - depth, 1, |items|
  {
    if items != [] {
      MeaningOfWireItems(g, items[1..], depth);
      if IsValue(g, items[0]) {
        MeaningOfWire(g, items[0], depth);
        var w, ws := WireOf(g, items[0], depth), WireItems(g, items[1..], depth);
        assert ([w] + ws)[1..] == ws;
      } else {
        assert WireItems(g, items, depth) == WireItems(g, items[1..], depth);
      }
    }
  }

  lemma {:induction false} MeaningOfWirePairs(g: Graph, pairs: seq<(Ref, Ref)>, depth: nat)
    requires depth < MAX_DEPTH
    ensures FieldMeanings(WirePairs(g, pairs, depth)) == NormPairs(g, pairs, depth, Shift)
    decreases MAX_DEPTH - depth, 1, |pairs|
  {
    if pairs != [] {
      MeaningOfWirePairs(g, pairs[1..], depth);
      if IsPair(g, pairs[0]) {
        var (k, v) := pairs[0];
        MeaningOfWire(g, v, depth);
        if !k.Str? { IntegerMeaning(k.n); }
        var f, fs := Field(WireScalar(g, k), WireOf(g, v, depth)), WirePairs(g, pairs[1..], depth);
        assert ([f] + fs)[1..] == fs;
      } else {
        assert WirePairs(g, pairs, depth) == WirePairs(g, pairs[1..], depth);
      }
    }
  }

  /** The codec round trip: reading back what is written for any table of any graph, cyclic or not, and
      followed by anything, consumes exactly the bytes written and rebuilds the normalized table. */
  lemma RoundTrip(g: Graph, id: nat, rest: seq<byte>)
    ensures var w := WireTable(g, id, 1);
            && Within(w, MAX_DEPTH)
            && Parse(Tag(w), Print(w) + rest) == Some((w, rest))
            && Meaning(w) == NormTable(g, id, 1, Shift)
  {
    ParseOfPrint(WireTable(g, id, 1), rest);
    MeaningOfWireTable(g, id, 1);
  }

  // ---------- what exactly is lost ----------

  predicate Distinct(entries: seq<(Key, Value)>) {
    forall i, j | 0 <= i < j < |entries| :: entries[i].0 != entries[j].0
  }

  /** With distinct keys the order of the `rawset` calls does not matter: every entry is found again. */
  lemma {:induction false} SetAllDistinct(acc: map<Key, Value>, entries: seq<(Key, Value)>)
    requires Distinct(entries)
    ensures forall i | 0 <= i < |entries| ::
              entries[i].0 in SetAll(acc, entries) && SetAll(acc, entries)[entries[i].0] == entries[i].1
    ensures forall k | k in acc && (forall i | 0 <= i < |entries| :: entries[i].0 != k) ::
              k in SetAll(acc, entries) && SetAll(acc, entries)[k] == acc[k]
    decreases |entries|
  {
    if entries != [] {
      var acc', tail := acc[entries[0].0 := entries[0].1], entries[1..];
      SetAllDistinct(acc', tail);
      forall i | 0 <= i < |entries|
        ensures entries[i].0 in SetAll(acc, entries) && SetAll(acc, entries)[entries[i].0] == entries[i].1
      {
        if i > 0 { assert tail[i - 1] == entries[i]; }
      }
      forall k | k in acc && (forall i | 0 <= i < |entries| :: entries[i].0 != k)
        ensures k in SetAll(acc, entries) && SetAll(acc, entries)[k] == acc[k]
      {
        assert forall i | 0 <= i < |tail| :: tail[i] == entries[i + 1];
      }
    }
  }

  /** No key appears from nowhere. */
  lemma {:induction false} SetAllKeys(acc: map<Key, Value>, entries: seq<(Key, Value)>, k: Key)
    requires k in SetAll(acc, entries)
    ensures k in acc || exists i :: 0 <= i < |entries| && entries[i].0 == k
    decreases |entries|
  {
    if entries != [] {
      var acc', tail := acc[entries[0].0 := entries[0].1], entries[1..];
      SetAllKeys(acc', tail, k);
      if k !in acc {
        if k == entries[0].0 {
          assert entries[0].0 == k;
        } else {
          var i :| 0 <= i < |tail| && tail[i].0 == k;
          assert entries[i + 1].0 == k;
        }
      }
    }
  }

  function ShiftKey(k: Key): Key { if k.KInt? then KInt(Shift(k.n)) else k }

  /** Whether some pairs that are written have a key once strings are cut. */
  predicate KeyIn(g: Graph, pairs: seq<(Ref, Ref)>, k: Key) {
    exists p | p in pairs :: IsPair(g, p) && NormKey(p.0, Keep) == k
  }

  /** The integers of `v` come back: something a caller can see before serializing. */
  predicate Kept(g: Graph, v: Ref, depth: nat)
    requires depth < MAX_DEPTH
    decreases MAX_DEPTH - depth, 0, 0
  {
    match v
    case Int(n) => !InBand(n)
    case Whole(n) => !InBand(n)
    case Table(id) => KeptTable(g, id, depth + 1)
    case _ => true
  }

  predicate KeptTable(g: Graph, id: nat, depth: nat)
    requires depth <= MAX_DEPTH
    decreases MAX_DEPTH - depth, 2, 0
  {
    depth == MAX_DEPTH ||
    match g(id)
    case Arr(items) => forall v | v in items && IsValue(g, v) :: Kept(g, v, depth)
    case Hash(pairs) => KeptPairs(g, pairs, depth)
  }

  /** No key is in the band, and no value that a later pair with the same key does not replace is lost. */
  predicate KeptPairs(g: Graph, pairs: seq<(Ref, Ref)>, depth: nat)
    requires depth < MAX_DEPTH
    decreases MAX_DEPTH - depth, 1, |pairs|
  {
    pairs == [] ||
    ((IsPair(g, pairs[0]) ==>
        && (pairs[0].0.Str? || !InBand(pairs[0].0.n))
        && (KeyIn(g, pairs[1..], NormKey(pairs[0].0, Keep)) || Kept(g, pairs[0].1, depth)))
     && KeptPairs(g, pairs[1..], depth))
  }

  predicate HasKey(entries: seq<(Key, Value)>, k: Key) { exists i | 0 <= i < |entries| :: entries[i].0 == k }

  /** Every value that is not replaced later is the same in both. */
  predicate Agree(a: seq<(Key, Value)>, b: seq<(Key, Value)>)
    requires |a| == |b|
    decreases |a|
  {
    a == [] || ((HasKey(b[1..], b[0].0) || a[0].1 == b[0].1) && Agree(a[1..], b[1..]))
  }

  /** Two tables are the same but for some keys. */
  ghost predicate SameBut(x: map<Key, Value>, y: map<Key, Value>, entries: seq<(Key, Value)>) {
    forall k | !HasKey(entries, k) :: (k in x <==> k in y) && (k in x && k in y ==> x[k] == y[k])
  }

  lemma HasKeyFirst(entries: seq<(Key, Value)>, k: Key)
    requires entries != []
    ensures HasKey(entries, k) <==> entries[0].0 == k || HasKey(entries[1..], k)
  {
    if HasKey(entries, k) {
      var i :| 0 <= i < |entries| && entries[i].0 == k;
      assert i > 0 ==> entries[1..][i - 1] == entries[i];
    }
    if HasKey(entries[1..], k) {
      var i :| 0 <= i < |entries[1..]| && entries[1..][i].0 == k;
      assert entries[i + 1].0 == k;
    }
  }

  /** Two runs of `rawset` with the same keys build the same table exactly if they agree. */
  lemma {:induction false} SetAllAgree(x: map<Key, Value>, y: map<Key, Value>, a: seq<(Key, Value)>, b: seq<(Key, Value)>)
    requires |a| == |b| && forall i | 0 <= i < |b| :: a[i].0 == b[i].0
    ensures SetAll(x, a) == SetAll(y, b) <==> SameBut(x, y, b) && Agree(a, b)
    decreases |a|
  {
    if a == [] {
      if SameBut(x, y, b) {
        assert forall k :: !HasKey(b, k);
        assert x.Keys == y.Keys;
      }
    } else {
      var k := b[0].0;
      var x', y' := x[k := a[0].1], y[k := b[0].1];
      SetAllAgree(x', y', a[1..], b[1..]);
      SameButFirst(x, y, a[0].1, b);
    }
  }

  lemma SameButFirst(x: map<Key, Value>, y: map<Key, Value>, v: Value, b: seq<(Key, Value)>)
    requires b != []
    ensures SameBut(x[b[0].0 := v], y[b[0].0 := b[0].1], b[1..]) <==>
            SameBut(x, y, b) && (HasKey(b[1..], b[0].0) || v == b[0].1)
  {
    var k, x', y' := b[0].0, x[b[0].0 := v], y[b[0].0 := b[0].1];
    forall k'
      ensures HasKey(b, k') <==> k == k' || HasKey(b[1..], k')
    {
      HasKeyFirst(b, k');
    }
    hide HasKey;
    if SameBut(x', y', b[1..]) {
      forall k' | !HasKey(b, k')
        ensures (k' in x <==> k' in y) && (k' in x && k' in y ==> x[k'] == y[k'])
      {
        assert (k' in x' <==> k' in y') && (k' in x' && k' in y' ==> x'[k'] == y'[k']);
      }
      if !HasKey(b[1..], k) {
        assert x'[k] == y'[k];
      }
    }
    if SameBut(x, y, b) && (HasKey(b[1..], k) || v == b[0].1) {
      forall k' | !HasKey(b[1..], k')
        ensures (k' in x' <==> k' in y') && (k' in x' && k' in y' ==> x'[k'] == y'[k'])
      {
        assert k' != k ==> !HasKey(b, k');
      }
    }
  }

  lemma {:induction false} SetAllHas(acc: map<Key, Value>, entries: seq<(Key, Value)>, k: Key)
    requires k in acc || HasKey(entries, k)
    ensures k in SetAll(acc, entries)
    decreases |entries|
  {
    if entries != [] {
      HasKeyFirst(entries, k);
      SetAllHas(acc[entries[0].0 := entries[0].1], entries[1..], k);
    }
  }

  predicate OutOfBand(entries: seq<(Key, Value)>) {
    forall i | 0 <= i < |entries| :: entries[i].0.KInt? ==> !InBand(entries[i].0.n)
  }

  /** A shifted key is never a key of the source, so it cannot go unnoticed. */
  lemma ShiftNoticed(a: seq<(Key, Value)>, b: seq<(Key, Value)>)
    requires Shifted(a, b)
    ensures SetAll(map[], a) == SetAll(map[], b) <==> OutOfBand(b) && Agree(a, b)
  {
    if SetAll(map[], a) == SetAll(map[], b) {
      forall i | 0 <= i < |b|
        ensures b[i].0.KInt? ==> !InBand(b[i].0.n)
      {
        SetAllHas(map[], b, b[i].0);
        SetAllKeys(map[], a, b[i].0);
        var j :| 0 <= j < |a| && a[j].0 == b[i].0;
        assert b[i].0 == ShiftKey(b[j].0);
      }
    }
    if OutOfBand(b) {
      SetAllAgree(map[], map[], a, b);
    }
  }

  lemma ArrayFieldsInjective(a: seq<Value>, b: seq<Value>)
    requires |a| == |b| && ArrayFields(a) == ArrayFields(b)
    ensures a == b
  {
    forall i | 0 <= i < |a| ensures a[i] == b[i] {
      SetItemsAt(map[], 1, a, KInt(i + 1));
      SetItemsAt(map[], 1, b, KInt(i + 1));
    }
  }

  lemma {:induction false} ExactItems(g: Graph, items: seq<Ref>, depth: nat)
    requires depth < MAX_DEPTH
    ensures |NormItems(g, items, depth, Shift)| == |NormItems(g, items, depth, Keep)|
    ensures NormItems(g, items, depth, Shift) == NormItems(g, items, depth, Keep)
            <==> forall v | v in items && IsValue(g, v) :: Kept(g, v, depth)
    decreases MAX_DEPTH - depth, 1, |items|
  {
    if items != [] {
      ExactItems(g, items[1..], depth);
      assert items == [items[0]] + items[1..];
      var a, b := NormItems(g, items[1..], depth, Shift), NormItems(g, items[1..], depth, Keep);
      if IsValue(g, items[0]) {
        Exact(g, items[0], depth);
        var x, y := Norm(g, items[0], depth, Shift), Norm(g, items[0], depth, Keep);
        assert ([x] + a)[1..] == a && ([y] + b)[1..] == b && ([x] + a)[0] == x && ([y] + b)[0] == y;
      } else {
        assert [] + a == a && [] + b == b;
      }
    }
  }

  lemma {:induction false} NormHasKey(g: Graph, pairs: seq<(Ref, Ref)>, depth: nat, k: Key)
    requires depth < MAX_DEPTH
    ensures HasKey(NormPairs(g, pairs, depth, Keep), k) <==> KeyIn(g, pairs, k)
    decreases |pairs|
  {
    if pairs != [] {
      NormHasKey(g, pairs[1..], depth, k);
      var rest, all := NormPairs(g, pairs[1..], depth, Keep), NormPairs(g, pairs, depth, Keep);
      assert forall p | p in pairs :: p == pairs[0] || p in pairs[1..];
      if IsPair(g, pairs[0]) {
        HasKeyFirst(all, k);
        assert all[1..] == rest && all[0].0 == NormKey(pairs[0].0, Keep) && pairs[0] in pairs;
      } else {
        assert all == rest;
      }
    }
  }

  /** What two runs of `rawset` make of each other: keys shifted, none in the band, values that agree. */
  predicate Shifted(a: seq<(Key, Value)>, b: seq<(Key, Value)>) {
    |a| == |b| && forall i | 0 <= i < |b| :: a[i].0 == ShiftKey(b[i].0)
  }

  lemma ShiftedFirst(x: (Key, Value), y: (Key, Value), a: seq<(Key, Value)>, b: seq<(Key, Value)>)
    requires Shifted(a, b) && x.0 == ShiftKey(y.0)
    ensures Shifted([x] + a, [y] + b)
    ensures OutOfBand([y] + b) && Agree([x] + a, [y] + b) <==>
            (y.0.KInt? ==> !InBand(y.0.n)) && (HasKey(b, y.0) || x.1 == y.1) && OutOfBand(b) && Agree(a, b)
  {
    BandFirst(y, b);
    assert ([x] + a)[1..] == a && ([y] + b)[1..] == b && ([x] + a)[0] == x && ([y] + b)[0] == y;
    hide HasKey, OutOfBand;
    assert forall i | 0 < i < |[y] + b| :: ([y] + b)[i] == b[i - 1] && ([x] + a)[i] == a[i - 1];
  }

  lemma {:induction false} ExactPairs(g: Graph, pairs: seq<(Ref, Ref)>, depth: nat)
    requires depth < MAX_DEPTH
    ensures var a, b := NormPairs(g, pairs, depth, Shift), NormPairs(g, pairs, depth, Keep);
            Shifted(a, b) && (OutOfBand(b) && Agree(a, b) <==> KeptPairs(g, pairs, depth))
    decreases MAX_DEPTH - depth, 1, |pairs|
  {
    if pairs != [] {
      hide Shifted, OutOfBand, Agree, HasKey, KeyIn, Norm, Kept;
      ExactPairs(g, pairs[1..], depth);
      var a, b := NormPairs(g, pairs[1..], depth, Shift), NormPairs(g, pairs[1..], depth, Keep);
      if IsPair(g, pairs[0]) {
        Exact(g, pairs[0].1, depth);
        var x := (NormKey(pairs[0].0, Shift), Norm(g, pairs[0].1, depth, Shift));
        var y := (NormKey(pairs[0].0, Keep), Norm(g, pairs[0].1, depth, Keep));
        NormHasKey(g, pairs[1..], depth, y.0);
        ShiftedFirst(x, y, a, b);
      } else {
        assert [] + a == a && [] + b == b;
      }
    }
  }

  lemma BandFirst(y: (Key, Value), b: seq<(Key, Value)>)
    ensures OutOfBand([y] + b) <==> (y.0.KInt? ==> !InBand(y.0.n)) && OutOfBand(b)
  {
    assert ([y] + b)[0] == y && forall i | 0 <= i < |b| :: ([y] + b)[i + 1] == b[i];
    if (y.0.KInt? ==> !InBand(y.0.n)) && OutOfBand(b) {
      assert forall i | 0 < i < |[y] + b| :: ([y] + b)[i] == b[i - 1];
    }
  }

  lemma {:induction false} Exact(g: Graph, v: Ref, depth: nat)
    requires IsValue(g, v) && depth < MAX_DEPTH
    ensures Norm(g, v, depth, Shift) == Norm(g, v, depth, Keep) <==> Kept(g, v, depth)
    decreases MAX_DEPTH - depth, 0, 0
  {
    if v.Table? {
      ExactTable(g, v.id, depth + 1);
    }
  }

  /** The literal tags keep every integer of a table exactly when none that matters lies in the band: no key,
      and no value but one that a later pair with the same key replaces. */
  lemma {:induction false} ExactTable(g: Graph, id: nat, depth: nat)
    requires depth <= MAX_DEPTH
    ensures NormTable(g, id, depth, Shift) == NormTable(g, id, depth, Keep) <==> KeptTable(g, id, depth)
    decreases MAX_DEPTH - depth, 2, 0
  {
    if depth < MAX_DEPTH {
      match g(id)
      case Arr(items) =>
        ExactItems(g, items, depth);
        var a, b := NormItems(g, items, depth, Shift), NormItems(g, items, depth, Keep);
        if ArrayFields(a) == ArrayFields(b) {
          ArrayFieldsInjective(a, b);
        }
      case Hash(pairs) =>
        ExactPairs(g, pairs, depth);
        ShiftNoticed(NormPairs(g, pairs, depth, Shift), NormPairs(g, pairs, depth, Keep));
    }
  }

  // ---------- tables whose keys stay distinct ----------

  /** No integer written for `v` lies in the band. */
  predicate Clean(g: Graph, v: Ref, depth: nat)
    requires depth < MAX_DEPTH
    decreases MAX_DEPTH - depth, 0, 0
  {
    match v
    case Int(n) => !InBand(n)
    case Whole(n) => !InBand(n)
    case Table(id) => CleanTable(g, id, depth + 1)
    case _ => true
  }

  predicate CleanTable(g: Graph, id: nat, depth: nat)
    requires depth <= MAX_DEPTH
    decreases MAX_DEPTH - depth, 2, 0
  {
    depth == MAX_DEPTH ||
    match g(id)
    case Arr(items) => forall v | v in items && IsValue(g, v) :: Clean(g, v, depth)
    case Hash(pairs) => forall p | p in pairs && IsPair(g, p) :: CleanPair(g, p, depth)
  }

  predicate CleanPair(g: Graph, p: (Ref, Ref), depth: nat)
    requires depth < MAX_DEPTH
    decreases MAX_DEPTH - depth, 1, 0
  {
    (p.0.Int? || p.0.Whole? ==> !InBand(p.0.n)) && Clean(g, p.1, depth)
  }

  /** A table without an integer in the band is kept, whatever its keys. */
  lemma {:induction false} CleanKept(g: Graph, id: nat, depth: nat)
    requires depth <= MAX_DEPTH && CleanTable(g, id, depth)
    ensures KeptTable(g, id, depth) && NormTable(g, id, depth, Shift) == NormTable(g, id, depth, Keep)
    decreases MAX_DEPTH - depth, 2, 0
  {
    ExactTable(g, id, depth);
    if depth < MAX_DEPTH {
      match g(id)
      case Arr(items) =>
        forall v | v in items && IsValue(g, v)
          ensures Kept(g, v, depth)
        {
          CleanValue(g, v, depth);
        }
      case Hash(pairs) => CleanPairs(g, pairs, depth);
    }
  }

  lemma {:induction false} CleanPairs(g: Graph, pairs: seq<(Ref, Ref)>, depth: nat)
    requires depth < MAX_DEPTH && forall p | p in pairs && IsPair(g, p) :: CleanPair(g, p, depth)
    ensures KeptPairs(g, pairs, depth)
    decreases MAX_DEPTH - depth, 1, |pairs|
  {
    if pairs != [] {
      CleanPairs(g, pairs[1..], depth);
      if IsPair(g, pairs[0]) {
        assert CleanPair(g, pairs[0], depth);
        CleanValue(g, pairs[0].1, depth);
      }
    }
  }

  lemma {:induction false} CleanValue(g: Graph, v: Ref, depth: nat)
    requires IsValue(g, v) && depth < MAX_DEPTH && Clean(g, v, depth)
    ensures Kept(g, v, depth)
    decreases MAX_DEPTH - depth, 0, 0
  {
    if v.Table? {
      CleanKept(g, v.id, depth + 1);
    }
  }

  /** The same key to Lua; a float with an integral value is the integer. */
  predicate SameKey(a: Ref, b: Ref) {
    (a.Str? && b.Str? && a.s == b.s) || ((a.Int? || a.Whole?) && (b.Int? || b.Whole?) && a.n == b.n)
  }

  /** A Lua table has no key twice; here none of its string keys has a NUL either. */
  predicate Tidy(pairs: seq<(Ref, Ref)>) {
    && (forall i, j | 0 <= i < j < |pairs| :: !SameKey(pairs[i].0, pairs[j].0))
    && (forall p | p in pairs :: p.0.Str? ==> 0 !in p.0.s)
  }

  /** Where keys have no NUL a table is kept only if no integer at all is in the band. */
  lemma {:induction false} TidyGraph(g: Graph, id: nat, depth: nat)
    requires depth <= MAX_DEPTH && forall t: nat | g(t).Hash? :: Tidy(g(t).pairs)
    ensures KeptTable(g, id, depth) <==> CleanTable(g, id, depth)
    decreases MAX_DEPTH - depth, 2, 0
  {
    if CleanTable(g, id, depth) {
      CleanKept(g, id, depth);
    }
    if depth < MAX_DEPTH && KeptTable(g, id, depth) {
      match g(id)
      case Arr(items) =>
        forall v | v in items && IsValue(g, v)
          ensures Clean(g, v, depth)
        {
          TidyValue(g, v, depth);
        }
      case Hash(pairs) => TidyPairs(g, pairs, depth);
    }
  }

  lemma {:induction false} TidyPairs(g: Graph, pairs: seq<(Ref, Ref)>, depth: nat)
    requires depth < MAX_DEPTH && Tidy(pairs) && (forall t: nat | g(t).Hash? :: Tidy(g(t).pairs))
    requires KeptPairs(g, pairs, depth)
    ensures forall p | p in pairs && IsPair(g, p) :: CleanPair(g, p, depth)
    decreases MAX_DEPTH - depth, 1, |pairs|
  {
    if pairs != [] {
      TidyTail(pairs);
      TidyPairs(g, pairs[1..], depth);
      if IsPair(g, pairs[0]) {
        TidyOnce(g, pairs);
        TidyValue(g, pairs[0].1, depth);
      }
    }
  }

  lemma {:induction false} TidyValue(g: Graph, v: Ref, depth: nat)
    requires depth < MAX_DEPTH && (forall t: nat | g(t).Hash? :: Tidy(g(t).pairs)) && Kept(g, v, depth)
    ensures Clean(g, v, depth)
    decreases MAX_DEPTH - depth, 0, 0
  {
    if v.Table? {
      TidyGraph(g, v.id, depth + 1);
    }
  }

  lemma TidyTail(pairs: seq<(Ref, Ref)>)
    requires pairs != [] && Tidy(pairs)
    ensures Tidy(pairs[1..])
  {
    assert forall k | 0 <= k < |pairs| - 1 :: pairs[1..][k] == pairs[k + 1];
  }

  /** The first key does not come again. */
  lemma TidyOnce(g: Graph, pairs: seq<(Ref, Ref)>)
    requires pairs != [] && Tidy(pairs) && IsPair(g, pairs[0])
    ensures !KeyIn(g, pairs[1..], NormKey(pairs[0].0, Keep))
  {
    forall p | p in pairs[1..] && IsPair(g, p)
      ensures NormKey(p.0, Keep) != NormKey(pairs[0].0, Keep)
    {
      var k :| 0 <= k < |pairs| - 1 && pairs[1..][k] == p;
      assert pairs[k + 1] == p && p in pairs && pairs[0] in pairs;
      assert !SameKey(pairs[0].0, pairs[k + 1].0);
    }
  }

  /** A table for which the literal codec does not give back what went in. */
  lemma BandExample()
    ensures var g: Graph := _ => Arr([Int(-40000)]);
            var fields := NormTable(g, 0, 1, Shift).fields;
            KInt(1) in fields && fields[KInt(1)] == VInt(4294927296)
  {
    var g: Graph := _ => Arr([Int(-40000)]);
    assert [Int(-40000)][1..] == [];
    assert NormItems(g, [Int(-40000)], 1, Shift) == [VInt(4294927296)] + NormItems(g, [], 1, Shift);
    SetItemsAt(map[], 1, [VInt(4294927296)], KInt(1));
  }

  /** A hash table comes back as the map of its supported pairs, whatever order they were traversed in. */
  lemma HashContents(g: Graph, id: nat, depth: nat, conv: int -> int)
    requires depth < MAX_DEPTH && g(id).Hash? && Distinct(NormPairs(g, g(id).pairs, depth, conv))
    ensures var fields := NormTable(g, id, depth, conv).fields;
            && (forall p | p in g(id).pairs && IsPair(g, p) ::
                  NormKey(p.0, conv) in fields && fields[NormKey(p.0, conv)] == Norm(g, p.1, depth, conv))
            && (forall k | k in fields :: exists p :: p in g(id).pairs && IsPair(g, p) && k == NormKey(p.0, conv))
  {
    var pairs := g(id).pairs;
    var entries := NormPairs(g, pairs, depth, conv);
    SetAllDistinct(map[], entries);
    forall p | p in pairs && IsPair(g, p)
      ensures NormKey(p.0, conv) in SetAll(map[], entries)
      ensures SetAll(map[], entries)[NormKey(p.0, conv)] == Norm(g, p.1, depth, conv)
    {
      PairIsEntry(g, pairs, depth, conv, p);
    }
    forall k | k in SetAll(map[], entries)
      ensures exists p :: p in pairs && IsPair(g, p) && k == NormKey(p.0, conv)
    {
      SetAllKeys(map[], entries, k);
      var i :| 0 <= i < |entries| && entries[i].0 == k;
      EntryIsPair(g, pairs, depth, conv, i);
    }
  }

  lemma {:induction false} PairIsEntry(g: Graph, pairs: seq<(Ref, Ref)>, depth: nat, conv: int -> int, p: (Ref, Ref))
    requires depth < MAX_DEPTH && p in pairs && IsPair(g, p)
    ensures (NormKey(p.0, conv), Norm(g, p.1, depth, conv)) in NormPairs(g, pairs, depth, conv)
    decreases |pairs|
  {
    if p != pairs[0] {
      PairIsEntry(g, pairs[1..], depth, conv, p);
    }
  }

  lemma {:induction false} EntryIsPair(g: Graph, pairs: seq<(Ref, Ref)>, depth: nat, conv: int -> int, i: nat)
    requires depth < MAX_DEPTH && i < |NormPairs(g, pairs, depth, conv)|
    ensures exists p :: p in pairs && IsPair(g, p) && NormPairs(g, pairs, depth, conv)[i].0 == NormKey(p.0, conv)
    decreases |pairs|
  {
    if IsPair(g, pairs[0]) && i == 0 {
      assert pairs[0] in pairs;
    } else {
      EntryIsPair(g, pairs[1..], depth, conv, if IsPair(g, pairs[0]) then i - 1 else i);
    }
  }
}
