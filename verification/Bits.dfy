/** Bytes, numbers and bit strings.

A bit string lists its bits in stream order, least significant bit first, which is the
order every reader and writer of `compress.py` uses. */
module Bits {

  type byte = x: int | 0 <= x < 256

  datatype Option<+T> = None | Some(value: T)

  datatype Result<+T> = Ok(value: T) | Err(reason: string)

  /** `n` times the same number. */
  function Repeat(n: nat, v: nat): (s: seq<nat>)
    ensures |s| == n
  {
    seq(n, i => v)
  }

  /** `v << n`. */
  function Shl(v: nat, n: nat): (r: nat)
    ensures v <= r
  {
    if n == 0 then v else 2 * Shl(v, n - 1)
  }

  lemma {:induction false} ShlZero(n: nat)
    ensures Shl(0, n) == 0
  {
    if n > 0 {
      ShlZero(n - 1);
    }
  }

  /** `v >> n`. */
  function Shr(v: nat, n: nat): nat
    decreases n
  {
    if n == 0 then v else Shr(v / 2, n - 1)
  }

  /** `v & ((1 << n) - 1)`. */
  function LowBits(v: nat, n: nat): nat
    decreases n
  {
    if n == 0 then 0 else v % 2 + 2 * LowBits(v / 2, n - 1)
  }

  /** `a | b`. */
  function BitOr(a: nat, b: nat): nat
    decreases a + b
  {
    if a == 0 && b == 0 then 0
    else (if a % 2 == 1 || b % 2 == 1 then 1 else 0) + 2 * BitOr(a / 2, b / 2)
  }

  function Pow2(n: nat): (p: nat)
    ensures p >= 1
  {
    Shl(1, n)
  }

  /** The `n` low bits of `v`, least significant first. */
  function ToBits(v: nat, n: nat): (s: seq<bool>)
    ensures |s| == n
    decreases n
  {
    if n == 0 then [] else [v % 2 == 1] + ToBits(v / 2, n - 1)
  }

  function FromBits(s: seq<bool>): nat {
    if s == [] then 0 else (if s[0] then 1 else 0) + 2 * FromBits(s[1..])
  }

  function Zeros(n: nat): (s: seq<bool>)
    ensures |s| == n
  {
    seq(n, i => false)
  }

  /** The bits of a run of `w`-bit values, in stream order. */
  function Packed(values: seq<nat>, w: nat): seq<bool> {
    if values == [] then [] else ToBits(values[0], w) + Packed(values[1..], w)
  }

  function BytesToBits(bs: seq<byte>): (s: seq<bool>)
    ensures |s| == 8 * |bs|
  {
    PackedBytesLength(bs);
    Packed(bs, 8)
  }

  lemma {:induction false} FromBitsBound(s: seq<bool>)
    ensures FromBits(s) < Pow2(|s|)
  {
    if s != [] {
      FromBitsBound(s[1..]);
    }
  }

  lemma {:induction false} FromToBits(v: nat, n: nat)
    ensures FromBits(ToBits(v, n)) == LowBits(v, n)
    decreases n
  {
    if n > 0 {
      FromToBits(v / 2, n - 1);
      assert ToBits(v, n)[1..] == ToBits(v / 2, n - 1);
    }
  }

  lemma {:induction false} ToFromBits(s: seq<bool>)
    ensures ToBits(FromBits(s), |s|) == s
  {
    if s != [] {
      ToFromBits(s[1..]);
      assert FromBits(s) / 2 == FromBits(s[1..]);
      assert s == [s[0]] + s[1..];
    }
  }

  /** A value that fits is its own low part. */
  lemma {:induction false} LowBitsFits(v: nat, n: nat)
    requires v < Pow2(n)
    ensures LowBits(v, n) == v
    decreases n
  {
    if n > 0 {
      LowBitsFits(v / 2, n - 1);
    }
  }

  lemma {:induction false} LowBitsBound(v: nat, n: nat)
    ensures LowBits(v, n) < Pow2(n)
    decreases n
  {
    if n > 0 {
      LowBitsBound(v / 2, n - 1);
    }
  }

  /** Packing a value above a filled low part concatenates the bit strings. */
  lemma {:induction false} ToBitsConcat(low: nat, a: nat, high: nat, b: nat)
    requires low < Pow2(a)
    ensures ToBits(low + Shl(high, a), a + b) == ToBits(low, a) + ToBits(high, b)
    decreases a
  {
    if a > 0 {
      var v := low + Shl(high, a);
      assert v / 2 == low / 2 + Shl(high, a - 1) && v % 2 == low % 2;
      ToBitsConcat(low / 2, a - 1, high, b);
    }
  }

  /** Masking and shifting split a bit string after `a` bits. */
  lemma {:induction false} ToBitsSplit(v: nat, a: nat, b: nat)
    ensures ToBits(v, a + b) == ToBits(LowBits(v, a), a) + ToBits(Shr(v, a), b)
    decreases a
  {
    if a > 0 {
      ToBitsSplit(v / 2, a - 1, b);
      var low := LowBits(v, a);
      assert low / 2 == LowBits(v / 2, a - 1) && low % 2 == v % 2;
    }
  }

  lemma {:induction false} ShrBound(v: nat, a: nat, b: nat)
    requires v < Pow2(a + b)
    ensures Shr(v, a) < Pow2(b)
    decreases a
  {
    if a > 0 {
      ShrBound(v / 2, a - 1, b);
    }
  }

  lemma {:induction false} ShlBound(low: nat, a: nat, high: nat, b: nat)
    requires low < Pow2(a) && high < Pow2(b)
    ensures low + Shl(high, a) < Pow2(a + b)
    decreases a
  {
    if a > 0 {
      ShlBound(low / 2, a - 1, high, b);
    }
  }

  lemma {:induction false} FromBitsConcat(s: seq<bool>, t: seq<bool>)
    ensures FromBits(s + t) == FromBits(s) + Shl(FromBits(t), |s|)
  {
    if s == [] {
      assert s + t == t;
    } else {
      FromBitsConcat(s[1..], t);
      assert (s + t)[1..] == s[1..] + t;
    }
  }

  lemma {:induction false} PackedConcat(a: seq<nat>, b: seq<nat>, w: nat)
    ensures Packed(a + b, w) == Packed(a, w) + Packed(b, w)
  {
    if a == [] {
      assert a + b == b;
    } else {
      PackedConcat(a[1..], b, w);
      assert (a + b)[1..] == a[1..] + b;
      assert Packed(a + b, w) == ToBits(a[0], w) + (Packed(a[1..], w) + Packed(b, w));
    }
  }

  lemma {:induction false} PackedLength(values: seq<nat>, w: nat)
    ensures |Packed(values, w)| == |values| * w
  {
    if values != [] {
      PackedLength(values[1..], w);
      assert |values| * w == (|values| - 1) * w + w;
    }
  }

  lemma {:induction false} PackedBytesLength(bs: seq<byte>)
    ensures |Packed(bs, 8)| == 8 * |bs|
  {
    PackedLength(bs, 8);
  }

  lemma {:induction false} PackedSingle(v: nat, w: nat)
    ensures Packed([v], w) == ToBits(v, w)
  {
  }

  lemma {:induction false} ZeroBits(n: nat)
    ensures ToBits(0, n) == Zeros(n)
  {
    if n > 0 {
      ZeroBits(n - 1);
      assert Zeros(n) == [false] + Zeros(n - 1);
    }
  }

  lemma {:induction false} BitOrZero(b: nat)
    ensures BitOr(0, b) == b
  {
    if b > 0 {
      BitOrZero(b / 2);
    }
  }

  /** `low | (high << a)` is a sum when `low` fits below the shifted value. */
  lemma {:induction false} BitOrShifted(low: nat, a: nat, high: nat)
    requires low < Pow2(a)
    ensures BitOr(low, Shl(high, a)) == low + Shl(high, a)
    decreases a
  {
    if a == 0 {
      BitOrZero(high);
    } else {
      BitOrShifted(low / 2, a - 1, high);
    }
  }

  lemma {:induction false} Pow2Monotone(a: nat, b: nat)
    requires a <= b
    ensures Pow2(a) <= Pow2(b)
  {
    if a < b {
      Pow2Monotone(a, b - 1);
    }
  }
}
