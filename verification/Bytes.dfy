/** Bytes, host integers and C strings: the layer every buffer of the server is built on.

    The host is taken to be little-endian, as the x86 builds of the server are. */
module Bytes {

  type byte = x: int | 0 <= x < 256

  datatype Option<+T> = None | Some(value: T)

  /** 256 to the power `w`: the number of values a `w`-byte integer has. */
  function Pow256(w: nat): (p: nat)
    ensures p >= 1
  {
    if w == 0 then 1 else 256 * Pow256(w - 1)
  }

  lemma PowValues()
    ensures Pow256(1) == 0x100 && Pow256(2) == 0x1_0000
    ensures Pow256(4) == 0x1_0000_0000 && Pow256(8) == 0x1_0000_0000_0000_0000
  {
    assert Pow256(3) == 256 * Pow256(2);
    assert Pow256(5) == 256 * Pow256(4);
    assert Pow256(7) == 256 * Pow256(6);
  }

  /** The `w` bytes of `n` in memory order. */
  function Le(n: nat, w: nat): (s: seq<byte>)
    ensures |s| == w
  {
    if w == 0 then [] else [n % 256] + Le(n / 256, w - 1)
  }

  /** The unsigned integer whose bytes in memory order are `s`. */
  function UnLe(s: seq<byte>): (n: nat)
    ensures n < Pow256(|s|)
  {
    if s == [] then 0 else s[0] + 256 * UnLe(s[1..])
  }

  /** Writing an integer and reading it back is the identity on every value that fits the width. */
  lemma {:induction false} UnLeOfLe(n: nat, w: nat)
    requires n < Pow256(w)
    ensures UnLe(Le(n, w)) == n
  {
    if w > 0 {
      UnLeOfLe(n / 256, w - 1);
      assert Le(n, w)[1..] == Le(n / 256, w - 1);
    }
  }

  /** ... and so is reading and writing back: the two are inverse bijections. */
  lemma {:induction false} LeOfUnLe(s: seq<byte>)
    ensures Le(UnLe(s), |s|) == s
  {
    if s != [] {
      LeOfUnLe(s[1..]);
      var n := UnLe(s);
      assert n % 256 == s[0] && n / 256 == UnLe(s[1..]);
    }
  }

  /** The C conversion of `v` to an unsigned type of `w` bytes. */
  function Unsigned(v: int, w: nat): (u: nat)
    ensures u < Pow256(w)
  {
    v % Pow256(w)
  }

  /** The two's complement reading of the unsigned value `u` at `w` bytes. */
  function Signed(u: nat, w: nat): int {
    if 2 * u < Pow256(w) then u else u - Pow256(w)
  }

  lemma SignedOfUnsigned(v: int, w: nat)
    requires 0 <= 2 * v + Pow256(w) && 2 * v < Pow256(w)
    ensures Signed(Unsigned(v, w), w) == v
  {
    WrapOnce(v, Pow256(w));
  }

  /** Wrapping a value that is out by less than one turn. */
  lemma WrapOnce(v: int, p: nat)
    requires 0 <= v + p && v < p && p > 0
    ensures v % p == if v < 0 then v + p else v
  {
    var q := v / p;
    assert v == p * q + v % p;
    if q >= 1 {
      MulMono(p, 1, q);
      assert false;
    }
    if q <= -2 {
      MulMono(p, q, -2);
      assert false;
    }
  }

  lemma MulMono(p: nat, a: int, b: int)
    requires a <= b
    ensures p * a <= p * b
  {
    assert p * (b - a) >= 0;
  }

  /** What `strlen` sees of `s`: everything before the first NUL. */
  function Cut(s: seq<byte>): (r: seq<byte>)
    ensures r <= s && 0 !in r
    ensures r == s <==> 0 !in s
  {
    if s == [] || s[0] == 0 then [] else [s[0]] + Cut(s[1..])
  }

  /** A NUL-terminated string followed by anything is cut back to the string. */
  lemma {:induction false} CutTerminated(s: seq<byte>, rest: seq<byte>)
    requires 0 !in s
    ensures Cut(s + [0] + rest) == s
  {
    if s == [] {
      assert ([0] + rest)[0] == 0;
      assert s + [0] + rest == [0] + rest;
    } else {
      assert forall i | 0 <= i < |s[1..]| :: s[1..][i] == s[i + 1];
      CutTerminated(s[1..], rest);
      assert (s + [0] + rest)[1..] == s[1..] + [0] + rest;
    }
  }

  lemma {:induction false} CutStops(b: seq<byte>)
    requires |Cut(b)| < |b|
    ensures b[|Cut(b)|] == 0
  {
    if b[0] != 0 {
      CutStops(b[1..]);
    }
  }

  /** Joining pieces. */
  function Flat<T>(parts: seq<seq<T>>): seq<T> {
    if parts == [] then [] else parts[0] + Flat(parts[1..])
  }

  lemma {:induction false} FlatAppend<T>(a: seq<seq<T>>, b: seq<seq<T>>)
    ensures Flat(a + b) == Flat(a) + Flat(b)
  {
    if a == [] {
      assert a + b == b;
    } else {
      FlatAppend(a[1..], b);
      assert (a + b)[1..] == a[1..] + b;
      Assoc(a[0], Flat(a[1..]), Flat(b));
    }
  }

  lemma FlatLast<T>(parts: seq<seq<T>>, last: seq<T>)
    ensures Flat(parts + [last]) == Flat(parts) + last
  {
    FlatAppend(parts, [last]);
    assert Flat([last]) == last + Flat([last][1..]) == last;
  }

  lemma Assoc<T>(a: seq<T>, b: seq<T>, c: seq<T>)
    ensures a + b + c == a + (b + c)
  {
  }

  function Min(a: nat, b: nat): nat {
    if a < b then a else b
  }
}
