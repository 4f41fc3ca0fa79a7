/** More on shifts, masks and disjoint bit fields. */
module Shifts {
  import opened Bits
  import opened Words

  /** A low field and what lies above it come apart again. */
  lemma {:induction false} Fields(low: nat, a: nat, high: nat)
    requires low < Pow2(a)
    ensures Shr(low + Shl(high, a), a) == high && LowBits(low + Shl(high, a), a) == low
    decreases a
  {
    if a > 0 {
      var v := low + Shl(high, a);
      assert v % 2 == low % 2 && v / 2 == low / 2 + Shl(high, a - 1);
      Fields(low / 2, a - 1, high);
    }
  }

  /** A number is its low field plus what lies above. */
  lemma {:induction false} Rejoin(v: nat, a: nat)
    ensures LowBits(v, a) + Shl(Shr(v, a), a) == v
    decreases a
  {
    if a > 0 {
      Rejoin(v / 2, a - 1);
    }
  }

  lemma {:induction false} ShrShr(v: nat, a: nat, b: nat)
    ensures Shr(Shr(v, a), b) == Shr(v, a + b)
    decreases a
  {
    if a > 0 {
      ShrShr(v / 2, a - 1, b);
    }
  }

  lemma {:induction false} ShlShl(v: nat, a: nat, b: nat)
    ensures Shl(Shl(v, a), b) == Shl(v, a + b)
    decreases b
  {
    if b > 0 {
      ShlShl(v, a, b - 1);
    }
  }

  lemma {:induction false} ShlSum(v: nat, w: nat, a: nat)
    ensures Shl(v + w, a) == Shl(v, a) + Shl(w, a)
    decreases a
  {
    if a > 0 {
      ShlSum(v, w, a - 1);
    }
  }

  lemma {:induction false} BitOrSwap(a: nat, b: nat)
    ensures BitOr(a, b) == BitOr(b, a)
    decreases a + b
  {
    if a > 0 || b > 0 {
      BitOrSwap(a / 2, b / 2);
    }
  }

  lemma {:induction false} BitOrShl(v: nat, w: nat, a: nat)
    ensures BitOr(Shl(v, a), Shl(w, a)) == Shl(BitOr(v, w), a)
    decreases a
  {
    if a > 0 {
      BitOrShl(v, w, a - 1);
      var x, y := Shl(v, a - 1), Shl(w, a - 1);
      BitOrDouble(x, y);
    }
  }

  lemma {:induction false} BitOrDouble(x: nat, y: nat)
    ensures BitOr(2 * x, 2 * y) == 2 * BitOr(x, y)
  {
    if x > 0 || y > 0 {
      assert 2 * x / 2 == x && 2 * y / 2 == y;
    }
  }

  /** `high << a | low` for a low field that fits. */
  lemma {:induction false} OrFields(high: nat, a: nat, low: nat)
    requires low < Pow2(a)
    ensures BitOr(Shl(high, a), low) == low + Shl(high, a)
  {
    BitOrSwap(Shl(high, a), low);
    BitOrShifted(low, a, high);
  }

  lemma {:induction false} PowBytes(w: nat)
    ensures Pow2(8 * w) == Pow256(w)
    decreases w
  {
    if w > 0 {
      PowBytes(w - 1);
      Shl8(1, 8 * (w - 1));
    }
  }

  lemma {:induction false} Shl8(v: nat, n: nat)
    ensures Shl(v, n + 8) == 256 * Shl(v, n)
  {
    var four := Shl(v, n + 4);
    assert four == 2 * Shl(v, n + 3) == 4 * Shl(v, n + 2) == 8 * Shl(v, n + 1) == 16 * Shl(v, n);
    assert Shl(v, n + 8) == 2 * Shl(v, n + 7) == 4 * Shl(v, n + 6) == 8 * Shl(v, n + 5) == 16 * four;
  }

  // ---- a whole number as little-endian bytes, by way of the reversed big-endian form ----

  function Reversed<T>(s: seq<T>): (r: seq<T>)
    ensures |r| == |s|
  {
    if s == [] then [] else Reversed(s[1..]) + [s[0]]
  }

  lemma {:induction false} ReversedTwice<T>(s: seq<T>)
    ensures Reversed(Reversed(s)) == s
  {
    if s != [] {
      ReversedSnoc(Reversed(s[1..]), s[0]);
      ReversedTwice(s[1..]);
      assert s == [s[0]] + s[1..];
    }
  }

  lemma {:induction false} ReversedSnoc<T>(s: seq<T>, x: T)
    ensures Reversed(s + [x]) == [x] + Reversed(s)
  {
    if s == [] {
      assert (s + [x])[1..] == [];
    } else {
      assert (s + [x])[1..] == s[1..] + [x];
      ReversedSnoc(s[1..], x);
    }
  }

  function ToWire(n: nat, w: nat): (b: seq<byte>)
    ensures |b| == w
  {
    Reversed(BigEndianBytes(n, w))
  }

  function FromWire(b: seq<byte>): nat {
    BigEndian(Reversed(b))
  }

  lemma {:induction false} WireRoundTrip(n: nat, w: nat)
    requires n < Pow256(w)
    ensures FromWire(ToWire(n, w)) == n
  {
    ReversedTwice(BigEndianBytes(n, w));
    BigEndianRoundTrip(n, w);
  }

  lemma {:induction false} BytesOfBigEndian(b: seq<byte>)
    ensures BigEndianBytes(BigEndian(b), |b|) == b
  {
    if b != [] {
      var n := |b| - 1;
      BytesOfBigEndian(b[..n]);
      assert b == b[..n] + [b[n]];
    }
  }

  lemma {:induction false} WireBack(b: seq<byte>)
    ensures ToWire(FromWire(b), |b|) == b && FromWire(b) < Pow256(|b|)
  {
    BytesOfBigEndian(Reversed(b));
    ReversedTwice(b);
    BigEndianBound(Reversed(b));
  }
}
