/** The Lua table codec on values: the graph of tables a serializer walks, the wire grammar it emits and the
    parser of that grammar. */
module LuaCodec {
  import opened Bytes
  import Buffers

  const MAX_DEPTH := 16

  // The wire tags, in the order of the original enumeration.
  const NIL := 0
  const I8 := 1
  const I16 := 2
  const I32 := 3
  const I64 := 4
  const U8 := 5
  const U16 := 6
  const U32 := 7
  const U64 := 8
  const STR := 9
  const FLT := 10
  const BOOL := 11
  const ARR := 12
  const HASH := 13
  const UNKNOWN := 14

  type int64 = x: int | -0x8000_0000_0000_0000 <= x < 0x8000_0000_0000_0000
  type float64 = s: seq<byte> | |s| == 8 witness [0, 0, 0, 0, 0, 0, 0, 0]

  // ---------- what is serialized ----------

  /** A Lua value on the stack. `Whole` is a float with an integral value, `Frac` any other float;
      a table is a reference into the graph. */
  datatype Ref =
    | Nil | Int(n: int64) | Whole(n: int64) | Frac(bits: float64)
    | Str(s: seq<byte>) | Bool(b: bool) | Table(id: nat) | Other

  /** A table as the original classifies it: its array part, or its pairs in traversal order. */
  datatype Node = Arr(items: seq<Ref>) | Hash(pairs: seq<(Ref, Ref)>)

  /** Every table reference leads somewhere: sharing and cycles are allowed. */
  type Graph = nat -> Node

  function IntTag(n: int64): (t: nat)
    ensures I8 <= t <= U64
  {
    if n >= 0 then
      if n <= 0xFF then U8 else if n < 0xFFFF then U16 else if n < 0xFFFF_FFFF then U32 else U64
    else
      if n >= -0x80 then I8 else if n >= -0x8000 then I16 else if n >= -0x8000_0000 then U32 else I64
  }

  function TagOf(g: Graph, v: Ref): nat {
    match v
    case Nil => NIL
    case Int(n) => IntTag(n)
    case Whole(n) => IntTag(n)
    case Frac(_) => FLT
    case Str(_) => STR
    case Bool(_) => BOOL
    case Table(id) => if g(id).Arr? then ARR else HASH
    case Other => UNKNOWN
  }

  predicate IsValueTag(t: nat) { I8 <= t <= HASH }

  predicate IsKeyTag(t: nat) { I8 <= t <= STR }

  // ---------- the wire grammar ----------

  datatype Wire =
    | Fixed(tag: nat, payload: seq<byte>)
    | Text(s: seq<byte>)
    | List(items: seq<Wire>)
    | Dict(fields: seq<Field>)

  datatype Field = Field(key: Wire, val: Wire)

  function Tag(w: Wire): nat {
    match w
    case Fixed(t, _) => t
    case Text(_) => STR
    case List(_) => ARR
    case Dict(_) => HASH
  }

  predicate IsFixedTag(t: nat) { I8 <= t <= U64 || t == FLT || t == BOOL }

  function Width(t: nat): nat
    requires IsFixedTag(t)
  {
    if t == I8 || t == U8 || t == BOOL then 1
    else if t == I16 || t == U16 then 2
    else if t == I32 || t == U32 then 4
    else 8
  }

  /** Well-formed trees: known tags, payloads of the right width, strings without NUL and scalar keys. */
  predicate WellFormed(w: Wire)
    decreases w, 0
  {
    match w
    case Fixed(t, p) => IsFixedTag(t) && |p| == Width(t)
    case Text(s) => 0 !in s
    case List(items) => forall x | x in items :: WellFormed(x)
    case Dict(fields) => forall f | f in fields :: GoodField(f)
  }

  predicate GoodField(f: Field)
    decreases f, 1
  {
    WellFormed(f.key) && WellFormed(f.val) && IsKeyTag(Tag(f.key))
  }

  /** At most `n` tables on every path. */
  predicate Within(w: Wire, n: nat) {
    match w
    case Fixed(_, _) => true
    case Text(_) => true
    case List(items) => n > 0 && forall x | x in items :: Within(x, n - 1)
    case Dict(fields) => n > 0 && forall f | f in fields :: Within(f.val, n - 1)
  }

  lemma TagRange(w: Wire)
    requires WellFormed(w)
    ensures IsValueTag(Tag(w))
  {
  }

  /** The bytes of a tree after its tag. Tables end with one nil byte. */
  function Print(w: Wire): seq<byte>
    requires WellFormed(w)
    decreases w, 0
  {
    match w
    case Fixed(_, p) => p
    case Text(s) => s + [0]
    case List(items) => PrintItems(items) + [NIL]
    case Dict(fields) => PrintFields(fields) + [NIL]
  }

  function PrintItem(w: Wire): seq<byte>
    requires WellFormed(w)
    decreases w, 1
  {
    TagRange(w);
    [Tag(w)] + Print(w)
  }

  /** A pair packs both tags into one byte, the key's in the upper half. */
  function PrintField(f: Field): seq<byte>
    requires GoodField(f)
    decreases f, 1
  {
    TagRange(f.val);
    [Tag(f.key) * 16 + Tag(f.val)] + Print(f.key) + Print(f.val)
  }

  function PrintItems(items: seq<Wire>): seq<byte>
    requires forall x | x in items :: WellFormed(x)
    decreases items, 0
  {
    if items == [] then [] else PrintItem(items[0]) + PrintItems(items[1..])
  }

  function PrintFields(fields: seq<Field>): seq<byte>
    requires forall f | f in fields :: GoodField(f)
    decreases fields, 0
  {
    if fields == [] then [] else PrintField(fields[0]) + PrintFields(fields[1..])
  }

  // ---------- the parser ----------

  /** Reads a tree whose tag is known; None on truncated or malformed input. */
  function Parse(tag: nat, b: seq<byte>): (r: Option<(Wire, seq<byte>)>)
    ensures r.Some? ==> |r.value.1| <= |b|
    decreases |b|, 0
  {
    if IsFixedTag(tag) then
      if Width(tag) <= |b| then Some((Fixed(tag, b[..Width(tag)]), b[Width(tag)..])) else None
    else if tag == STR then
      match Buffers.TakeText(b) case Some(t) => Some((Text(t.0), t.1)) case None => None
    else if tag == ARR && b != [] then
      match ParseItems(b[0], b[1..]) case Some(t) => Some((List(t.0), t.1)) case None => None
    else if tag == HASH && b != [] then
      match ParseFields(b[0], b[1..]) case Some(t) => Some((Dict(t.0), t.1)) case None => None
    else None
  }

  /** Reads array elements, the first of which has tag `ty`, up to the nil tag. */
  function ParseItems(ty: nat, b: seq<byte>): (r: Option<(seq<Wire>, seq<byte>)>)
    ensures r.Some? ==> |r.value.1| <= |b|
    decreases |b|, 1
  {
    if ty == NIL then Some(([], b))
    else match Parse(ty, b)
      case None => None
      case Some(first) =>
        if first.1 == [] then None
        else match ParseItems(first.1[0], first.1[1..])
          case None => None
          case Some(others) => Some(([first.0] + others.0, others.1))
  }

  /** Reads fields, the first of which has the packed tag byte `ty`, up to the nil tag. */
  function ParseFields(ty: nat, b: seq<byte>): (r: Option<(seq<Field>, seq<byte>)>)
    ensures r.Some? ==> |r.value.1| <= |b|
    decreases |b|, 1
  {
    if ty == NIL then Some(([], b))
    else if !IsKeyTag(ty / 16) then None
    else match Parse(ty / 16, b)
      case None => None
      case Some(key) =>
        match Parse(ty % 16, key.1)
        case None => None
        case Some(val) =>
          if val.1 == [] then None
          else match ParseFields(val.1[0], val.1[1..])
            case None => None
            case Some(others) => Some(([Field(key.0, val.0)] + others.0, others.1))
  }

  /** The parser reads back every printed tree and leaves what follows it. */
  lemma {:induction false} ParseOfPrint(w: Wire, rest: seq<byte>)
    requires WellFormed(w)
    ensures Parse(Tag(w), Print(w) + rest) == Some((w, rest))
    decreases w, 0
  {
    var b := Print(w) + rest;
    match w
    case Fixed(t, p) => assert b[..Width(t)] == p && b[Width(t)..] == rest;
    case Text(s) => Buffers.TakeTextOfTerminated(s, rest);
    case List(items) =>
      assert b == PrintItems(items) + ([NIL] + rest);
      ParseItemsOfPrint(items, rest);
    case Dict(fields) =>
      assert b == PrintFields(fields) + ([NIL] + rest);
      ParseFieldsOfPrint(fields, rest);
  }

  lemma {:induction false} ParseItemsOfPrint(items: seq<Wire>, rest: seq<byte>)
    requires forall x | x in items :: WellFormed(x)
    ensures var b := PrintItems(items) + ([NIL] + rest);
            ParseItems(b[0], b[1..]) == Some((items, rest))
    decreases items, 0
  {
    var b := PrintItems(items) + ([NIL] + rest);
    if items == [] {
      assert b[1..] == rest;
    } else {
      var tail := PrintItems(items[1..]) + ([NIL] + rest);
      TagRange(items[0]);
      assert b == PrintItem(items[0]) + tail by {
        Assoc(PrintItem(items[0]), PrintItems(items[1..]), [NIL] + rest);
      }
      assert b[1..] == Print(items[0]) + tail;
      ParseOfPrint(items[0], tail);
      ParseItemsOfPrint(items[1..], rest);
      assert [items[0]] + items[1..] == items;
    }
  }

  lemma {:induction false} ParseFieldsOfPrint(fields: seq<Field>, rest: seq<byte>)
    requires forall f | f in fields :: GoodField(f)
    ensures var b := PrintFields(fields) + ([NIL] + rest);
            ParseFields(b[0], b[1..]) == Some((fields, rest))
    decreases fields, 0
  {
    var b := PrintFields(fields) + ([NIL] + rest);
    if fields == [] {
      assert b[1..] == rest;
    } else {
      var f, tail := fields[0], PrintFields(fields[1..]) + ([NIL] + rest);
      assert b == PrintField(f) + tail;
      FieldFront(f, tail);
      ParseFieldOfPrint(f, tail);
      ParseFieldsOfPrint(fields[1..], rest);
      assert [f] + fields[1..] == fields;
    }
  }

  lemma FieldFront(f: Field, tail: seq<byte>)
    requires GoodField(f)
    ensures var b := PrintField(f) + tail;
            && b[0] != NIL && b[0] / 16 == Tag(f.key) && b[0] % 16 == Tag(f.val)
            && b[1..] == Print(f.key) + (Print(f.val) + tail)
  {
    TagRange(f.val);
  }

  lemma {:induction false} ParseFieldOfPrint(f: Field, rest: seq<byte>)
    requires GoodField(f)
    ensures Parse(Tag(f.key), Print(f.key) + (Print(f.val) + rest)) == Some((f.key, Print(f.val) + rest))
    ensures Parse(Tag(f.val), Print(f.val) + rest) == Some((f.val, rest))
    decreases f, 1
  {
    ParseOfPrint(f.key, Print(f.val) + rest);
    ParseOfPrint(f.val, rest);
  }

  /** Conversely, whatever the parser accepts is the printed form of the tree it returns: the encoding
      of a tree is unique and no encoding is a prefix of another. */
  lemma {:induction false} PrintOfParse(tag: nat, b: seq<byte>)
    requires Parse(tag, b).Some?
    ensures var (w, rest) := Parse(tag, b).value;
            WellFormed(w) && Tag(w) == tag && b == Print(w) + rest
    decreases |b|, 0
  {
    if IsFixedTag(tag) {
    } else if tag == STR {
      var s := Cut(b);
      CutStops(b);
      assert b == s + [0] + b[|s| + 1..];
    } else if tag == ARR {
      PrintOfParseItems(b[0], b[1..]);
    } else {
      PrintOfParseFields(b[0], b[1..]);
    }
  }

  lemma {:induction false} PrintOfParseItems(ty: nat, b: seq<byte>)
    requires ty < 256 && ParseItems(ty, b).Some?
    ensures var (items, rest) := ParseItems(ty, b).value;
            && (forall x | x in items :: WellFormed(x))
            && [ty] + b == PrintItems(items) + [NIL] + rest
    decreases |b|, 1
  {
    if ty != NIL {
      var (first, after) := Parse(ty, b).value;
      PrintOfParse(ty, b);
      PrintOfParseItems(after[0], after[1..]);
      var (others, rest) := ParseItems(after[0], after[1..]).value;
      assert [after[0]] + after[1..] == after;
      PrintItemsCons(ty, b, first, after, others, rest);
    }
  }

  lemma PrintItemsCons(ty: byte, b: seq<byte>, first: Wire, after: seq<byte>, others: seq<Wire>, rest: seq<byte>)
    requires WellFormed(first) && Tag(first) == ty && forall x | x in others :: WellFormed(x)
    requires b == Print(first) + after && after == PrintItems(others) + [NIL] + rest
    ensures forall x | x in [first] + others :: WellFormed(x)
    ensures [ty] + b == PrintItems([first] + others) + [NIL] + rest
  {
    assert ([first] + others)[1..] == others;
    assert [ty] + b == PrintItem(first) + after;
  }

  lemma {:induction false} PrintOfParseFields(ty: nat, b: seq<byte>)
    requires ty < 256 && ParseFields(ty, b).Some?
    ensures var (fields, rest) := ParseFields(ty, b).value;
            && (forall f | f in fields :: GoodField(f))
            && [ty] + b == PrintFields(fields) + [NIL] + rest
    decreases |b|, 1
  {
    if ty != NIL {
      var (key, mid) := Parse(ty / 16, b).value;
      var (val, after) := Parse(ty % 16, mid).value;
      PrintOfParse(ty / 16, b);
      PrintOfParse(ty % 16, mid);
      PrintOfParseFields(after[0], after[1..]);
      assert [after[0]] + after[1..] == after;
      var (others, rest) := ParseFields(after[0], after[1..]).value;
      PrintFieldsCons(ty, b, Field(key, val), after, others, rest);
    }
  }

  lemma PrintFieldsCons(ty: byte, b: seq<byte>, f: Field, after: seq<byte>, others: seq<Field>, rest: seq<byte>)
    requires GoodField(f) && forall x | x in others :: GoodField(x)
    requires ty / 16 == Tag(f.key) && ty % 16 == Tag(f.val)
    requires b == Print(f.key) + (Print(f.val) + after)
    requires after == PrintFields(others) + [NIL] + rest
    ensures forall x | x in [f] + others :: GoodField(x)
    ensures [ty] + b == PrintFields([f] + others) + [NIL] + rest
  {
    assert ([f] + others)[1..] == others;
    assert [ty] + b == PrintField(f) + after;
  }
}
