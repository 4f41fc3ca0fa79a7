/** Densely packed decimal (section 3.5.2 of IEEE 754-2008): three digits in ten bits (codec.py). */
module Dpd {
  import opened Bits

  /** The bits of a decimal digit, high first. */
  datatype Nibble = Nibble(b3: bool, b2: bool, b1: bool, b0: bool)

  /** The bits of a declet, high first, under the names the standard gives them. */
  datatype Bits10 = Bits10(p: bool, q: bool, r: bool, s: bool, t: bool, u: bool,
                           v: bool, w: bool, x: bool, y: bool)

  datatype Trio = Trio(a: nat, b: nat, c: nat)

  datatype Nibbles = Nibbles(m: Nibble, n: Nibble, o: Nibble)

  predicate IsTrio(t: Trio) {
    t.a <= 9 && t.b <= 9 && t.c <= 9
  }

  const DECLET_BITS: nat := 10

  function N(b: bool, weight: nat): nat {
    if b then weight else 0
  }

  function NibbleOf(d: nat): Nibble {
    Nibble(d / 8 % 2 == 1, d / 4 % 2 == 1, d / 2 % 2 == 1, d % 2 == 1)
  }

  predicate IsDigit(n: Nibble) {
    n.b3 ==> !n.b2 && !n.b1
  }

  function Value(n: Nibble): nat {
    N(n.b3, 8) + N(n.b2, 4) + N(n.b1, 2) + N(n.b0, 1)
  }

  /** The bits one by one, low first. */
  function Row(z: Bits10): (s: seq<bool>)
    ensures |s| == DECLET_BITS
  {
    [z.y, z.x, z.w, z.v, z.u, z.t, z.s, z.r, z.q, z.p]
  }

  function Weigh(z: Bits10): nat {
    FromBits(Row(z))
  }

  function Unrow(s: seq<bool>): Bits10
    requires |s| == DECLET_BITS
  {
    Bits10(s[9], s[8], s[7], s[6], s[5], s[4], s[3], s[2], s[1], s[0])
  }

  function BitsOf(k: nat): Bits10 {
    Unrow(ToBits(k, DECLET_BITS))
  }

  /** The eight cases, keyed on the high bit of each digit. */
  function Compress(m: Nibble, n: Nibble, o: Nibble): Bits10 {
    if !m.b3 then
      if !n.b3 then
        if !o.b3 then Bits10(m.b2, m.b1, m.b0, n.b2, n.b1, n.b0, false, o.b2, o.b1, o.b0)
        else Bits10(m.b2, m.b1, m.b0, n.b2, n.b1, n.b0, true, false, false, o.b0)
      else if !o.b3 then Bits10(m.b2, m.b1, m.b0, o.b2, o.b1, n.b0, true, false, true, o.b0)
      else Bits10(m.b2, m.b1, m.b0, true, false, n.b0, true, true, true, o.b0)
    else if !n.b3 then
      if !o.b3 then Bits10(o.b2, o.b1, m.b0, n.b2, n.b1, n.b0, true, true, false, o.b0)
      else Bits10(n.b2, n.b1, m.b0, false, true, n.b0, true, true, true, o.b0)
    else if !o.b3 then Bits10(o.b2, o.b1, m.b0, false, false, n.b0, true, true, true, o.b0)
    else Bits10(false, false, m.b0, true, true, n.b0, true, true, true, o.b0)
  }

  function Declet(t: Trio): nat {
    Weigh(Compress(NibbleOf(t.a), NibbleOf(t.b), NibbleOf(t.c)))
  }

  function Small(a: bool, b: bool, c: bool): Nibble {
    Nibble(false, a, b, c)
  }

  function Large(c: bool): Nibble {
    Nibble(true, false, false, c)
  }

  /** Reading a declet by the standard's own table, which covers all 1024 patterns. */
  function Expand(z: Bits10): Nibbles {
    if !z.v then Nibbles(Small(z.p, z.q, z.r), Small(z.s, z.t, z.u), Small(z.w, z.x, z.y))
    else if !z.w && !z.x then Nibbles(Small(z.p, z.q, z.r), Small(z.s, z.t, z.u), Large(z.y))
    else if !z.w then Nibbles(Small(z.p, z.q, z.r), Large(z.u), Small(z.s, z.t, z.y))
    else if !z.x then Nibbles(Large(z.r), Small(z.s, z.t, z.u), Small(z.p, z.q, z.y))
    else if !z.s && !z.t then Nibbles(Large(z.r), Large(z.u), Small(z.p, z.q, z.y))
    else if !z.s then Nibbles(Large(z.r), Small(z.p, z.q, z.u), Large(z.y))
    else if !z.t then Nibbles(Small(z.p, z.q, z.r), Large(z.u), Large(z.y))
    else Nibbles(Large(z.r), Large(z.u), Large(z.y))
  }

  /** The 24 patterns no trio of digits is written as: three large digits with p or q set. */
  predicate Wasted(z: Bits10) {
    z.v && z.w && z.x && z.s && z.t && (z.p || z.q)
  }

  predicate Redundant(k: nat) {
    Wasted(BitsOf(k))
  }

  predicate Canonical(k: nat) {
    k < Pow2(DECLET_BITS) && !Redundant(k)
  }

  function Digits(k: nat): Trio {
    var e := Expand(BitsOf(k));
    Trio(Value(e.m), Value(e.n), Value(e.o))
  }

  lemma {:induction false} BitsBack(z: Bits10)
    ensures BitsOf(Weigh(z)) == z && Weigh(z) < Pow2(DECLET_BITS)
  {
    ToFromBits(Row(z));
    FromBitsBound(Row(z));
    hide FromBits, ToBits;
  }

  lemma {:induction false} RowBack(s: seq<bool>)
    requires |s| == DECLET_BITS
    ensures Row(Unrow(s)) == s
  {
    forall i | 0 <= i < DECLET_BITS ensures Row(Unrow(s))[i] == s[i] {
    }
    hide Row, Unrow;
  }

  lemma {:induction false} WeighBack(k: nat)
    requires k < Pow2(DECLET_BITS)
    ensures Weigh(BitsOf(k)) == k
  {
    hide FromBits, ToBits, Row, Unrow, LowBits, Pow2, DECLET_BITS;
    FromToBits(k, DECLET_BITS);
    LowBitsFits(k, DECLET_BITS);
    RowBack(ToBits(k, DECLET_BITS));
  }

  lemma {:induction false} NibbleBack(d: nat)
    requires d <= 9
    ensures IsDigit(NibbleOf(d)) && Value(NibbleOf(d)) == d
  {
  }

  lemma {:induction false} ValueBack(n: Nibble)
    requires IsDigit(n)
    ensures NibbleOf(Value(n)) == n && Value(n) <= 9
  {
  }

  lemma {:induction false} ExpandCompressSmall(m: Nibble, n: Nibble, o: Nibble)
    requires IsDigit(m) && IsDigit(n) && IsDigit(o) && !m.b3 && !n.b3
    ensures Expand(Compress(m, n, o)) == Nibbles(m, n, o) && !Wasted(Compress(m, n, o))
  {
  }

  lemma {:induction false} ExpandCompressMiddle(m: Nibble, n: Nibble, o: Nibble)
    requires IsDigit(m) && IsDigit(n) && IsDigit(o) && !m.b3 && n.b3
    ensures Expand(Compress(m, n, o)) == Nibbles(m, n, o) && !Wasted(Compress(m, n, o))
  {
  }

  lemma {:induction false} ExpandCompressLarge(m: Nibble, n: Nibble, o: Nibble)
    requires IsDigit(m) && IsDigit(n) && IsDigit(o) && m.b3
    ensures Expand(Compress(m, n, o)) == Nibbles(m, n, o) && !Wasted(Compress(m, n, o))
  {
  }

  lemma {:induction false} ExpandCompress(m: Nibble, n: Nibble, o: Nibble)
    requires IsDigit(m) && IsDigit(n) && IsDigit(o)
    ensures Expand(Compress(m, n, o)) == Nibbles(m, n, o) && !Wasted(Compress(m, n, o))
  {
    hide *;
    if m.b3 {
      ExpandCompressLarge(m, n, o);
    } else if n.b3 {
      ExpandCompressMiddle(m, n, o);
    } else {
      ExpandCompressSmall(m, n, o);
    }
  }

  lemma {:induction false} CompressExpand(z: Bits10)
    ensures
      var e := Expand(z);
      && IsDigit(e.m) && IsDigit(e.n) && IsDigit(e.o)
      && (Compress(e.m, e.n, e.o) == z <==> !Wasted(z))
  {
  }

  /** Reading what was packed gives the digits back, and it is never a redundant pattern. */
  lemma {:induction false} DigitsOfDeclet(t: Trio)
    requires IsTrio(t)
    ensures Declet(t) < Pow2(DECLET_BITS) && Digits(Declet(t)) == t && !Redundant(Declet(t))
  {
    var m, n, o := NibbleOf(t.a), NibbleOf(t.b), NibbleOf(t.c);
    NibbleBack(t.a);
    NibbleBack(t.b);
    NibbleBack(t.c);
    ExpandCompress(m, n, o);
    BitsBack(Compress(m, n, o));
    hide BitsOf, Weigh, NibbleOf, Value, Compress, Expand, Wasted, Pow2;
  }

  /** Packing what was read gives the declet back exactly when it is not redundant. */
  lemma {:induction false} DecletOfDigits(k: nat)
    requires k < Pow2(DECLET_BITS)
    ensures IsTrio(Digits(k)) && (Declet(Digits(k)) == k <==> !Redundant(k))
  {
    var z := BitsOf(k);
    var e := Expand(z);
    CompressExpand(z);
    ValueBack(e.m);
    ValueBack(e.n);
    ValueBack(e.o);
    WeighBack(k);
    BitsBack(Compress(e.m, e.n, e.o));
    hide BitsOf, Weigh, NibbleOf, Value, Compress, Expand, Wasted, Pow2;
  }

  // ---- the tables the module builds when it is loaded ----

  predicate Before(t: Trio, d1: nat, d2: nat, d3: nat) {
    IsTrio(t) && (t.a < d1 || (t.a == d1 && (t.b < d2 || (t.b == d2 && t.c < d3))))
  }

  ghost predicate EncAt(enc: map<Trio, nat>, t: Trio, d1: nat, d2: nat, d3: nat) {
    && (t in enc <==> Before(t, d1, d2, d3))
    && (t in enc ==> enc[t] == Declet(t))
  }

  ghost predicate DecAt(dec: map<nat, Trio>, k: nat, d1: nat, d2: nat, d3: nat) {
    && (k in dec <==> Canonical(k) && Before(Digits(k), d1, d2, d3))
    && (k in dec ==> dec[k] == Digits(k))
  }

  ghost predicate TablesUpTo(enc: map<Trio, nat>, dec: map<nat, Trio>, d1: nat, d2: nat, d3: nat) {
    && (forall t: Trio :: EncAt(enc, t, d1, d2, d3))
    && (forall k: nat :: DecAt(dec, k, d1, d2, d3))
  }

  lemma {:induction false} BeforeNext(t: Trio, d1: nat, d2: nat, d3: nat)
    requires d1 <= 9 && d2 <= 9 && d3 <= 9
    ensures Before(t, d1, d2, d3 + 1) == (Before(t, d1, d2, d3) || t == Trio(d1, d2, d3))
    ensures !Before(Trio(d1, d2, d3), d1, d2, d3)
  {
  }

  /** A declet belongs to one trio: the one it reads as. */
  lemma {:induction false} Belongs(t: Trio, k: nat)
    requires IsTrio(t)
    ensures Canonical(k) && Digits(k) == t <==> k == Declet(t)
  {
    DigitsOfDeclet(t);
    if k < Pow2(DECLET_BITS) {
      DecletOfDigits(k);
    }
    hide Declet, Digits, Redundant, Pow2;
  }

  lemma {:induction false} EncNext(enc: map<Trio, nat>, t: Trio, now: Trio)
    requires EncAt(enc, t, now.a, now.b, now.c) && IsTrio(now)
    ensures EncAt(enc[now := Declet(now)], t, now.a, now.b, now.c + 1)
  {
    BeforeNext(t, now.a, now.b, now.c);
    hide Declet, Before;
  }

  lemma {:induction false} InTrio(t: Trio)
    requires IsTrio(t)
    ensures t.a <= 9 && t.b <= 9 && t.c <= 9
  {
  }

  lemma {:induction false} DecNext(dec: map<nat, Trio>, k: nat, now: Trio)
    requires DecAt(dec, k, now.a, now.b, now.c) && DecAt(dec, Declet(now), now.a, now.b, now.c) && IsTrio(now)
    ensures Declet(now) !in dec
    ensures DecAt(dec[Declet(now) := now], k, now.a, now.b, now.c + 1)
  {
    hide Declet, Digits, Canonical, Before, IsTrio;
    Belongs(now, k);
    Belongs(now, Declet(now));
    InTrio(now);
    BeforeNext(Digits(k), now.a, now.b, now.c);
  }

  lemma {:induction false} OneMore(enc: map<Trio, nat>, dec: map<nat, Trio>, now: Trio)
    requires TablesUpTo(enc, dec, now.a, now.b, now.c) && IsTrio(now)
    ensures Declet(now) !in dec
    ensures TablesUpTo(enc[now := Declet(now)], dec[Declet(now) := now], now.a, now.b, now.c + 1)
  {
    hide EncAt, DecAt, Declet, IsTrio;
    DecNext(dec, Declet(now), now);
    var enc', dec', c' := enc[now := Declet(now)], dec[Declet(now) := now], now.c + 1;
    forall t: Trio ensures EncAt(enc', t, now.a, now.b, c') {
      EncNext(enc, t, now);
    }
    forall k: nat ensures DecAt(dec', k, now.a, now.b, c') {
      DecNext(dec, k, now);
    }
  }

  lemma {:induction false} BeforeRow(t: Trio, d1: nat, d2: nat)
    requires d1 <= 9 && d2 <= 9
    ensures Before(t, d1, d2, 10) == Before(t, d1, d2 + 1, 0)
    ensures Before(t, d1, 10, 0) == Before(t, d1 + 1, 0, 0)
  {
  }

  lemma {:induction false} SameEntries(enc: map<Trio, nat>, dec: map<nat, Trio>,
                                       d1: nat, d2: nat, d3: nat, e1: nat, e2: nat, e3: nat)
    requires TablesUpTo(enc, dec, d1, d2, d3)
    requires forall t: Trio :: Before(t, d1, d2, d3) == Before(t, e1, e2, e3)
    ensures TablesUpTo(enc, dec, e1, e2, e3)
  {
    hide Before, Digits, Canonical, Declet;
    forall t: Trio ensures EncAt(enc, t, e1, e2, e3) {
      assert EncAt(enc, t, d1, d2, d3);
    }
    forall k: nat ensures DecAt(dec, k, e1, e2, e3) {
      assert DecAt(dec, k, d1, d2, d3);
    }
  }

  lemma {:induction false} NextRow(enc: map<Trio, nat>, dec: map<nat, Trio>, d1: nat, d2: nat)
    requires d1 <= 9 && d2 <= 9
    ensures TablesUpTo(enc, dec, d1, d2, 10) ==> TablesUpTo(enc, dec, d1, d2 + 1, 0)
    ensures TablesUpTo(enc, dec, d1, 10, 0) ==> TablesUpTo(enc, dec, d1 + 1, 0, 0)
  {
    hide TablesUpTo, Before;
    forall t: Trio
      ensures Before(t, d1, d2, 10) == Before(t, d1, d2 + 1, 0)
      ensures Before(t, d1, 10, 0) == Before(t, d1 + 1, 0, 0)
    {
      BeforeRow(t, d1, d2);
    }
    if TablesUpTo(enc, dec, d1, d2, 10) {
      SameEntries(enc, dec, d1, d2, 10, d1, d2 + 1, 0);
    }
    if TablesUpTo(enc, dec, d1, 10, 0) {
      SameEntries(enc, dec, d1, 10, 0, d1 + 1, 0, 0);
    }
  }

  /** What the two tables hold: every trio of digits under its declet, and every declet that is not
      redundant under its digits. */
  ghost predicate Tables(enc: map<Trio, nat>, dec: map<nat, Trio>) {
    && (forall t: Trio :: t in enc <==> IsTrio(t))
    && (forall t <- enc :: enc[t] == Declet(t))
    && (forall k: nat :: k in dec <==> Canonical(k))
    && (forall k <- dec :: dec[k] == Digits(k))
  }

  lemma {:induction false} BeforeEnd(t: Trio)
    ensures Before(t, 10, 0, 0) == IsTrio(t)
  {
  }

  lemma {:induction false} Finished(enc: map<Trio, nat>, dec: map<nat, Trio>)
    requires TablesUpTo(enc, dec, 10, 0, 0)
    ensures Tables(enc, dec)
  {
    hide Before, Declet, Digits, Canonical, IsTrio;
    forall t: Trio ensures (t in enc <==> IsTrio(t)) && (t in enc ==> enc[t] == Declet(t)) {
      assert EncAt(enc, t, 10, 0, 0);
      BeforeEnd(t);
    }
    forall k: nat ensures (k in dec <==> Canonical(k)) && (k in dec ==> dec[k] == Digits(k)) {
      assert DecAt(dec, k, 10, 0, 0);
      BeforeEnd(Digits(k));
      DigitsAreDigits(k);
    }
    hide EncAt, DecAt;
  }

  lemma {:induction false} DigitsAreDigits(k: nat)
    ensures IsTrio(Digits(k))
  {
    var e := Expand(BitsOf(k));
    CompressExpand(BitsOf(k));
    ValueBack(e.m);
    ValueBack(e.n);
    ValueBack(e.o);
    hide Expand, BitsOf, Value, IsDigit;
  }

  method BuildDpdTables() returns (enc: map<Trio, nat>, dec: map<nat, Trio>)
    ensures Tables(enc, dec)
  {
    hide *;
    enc, dec := map[], map[];
    NothingYet();
    for d1 := 0 to 10
      invariant TablesUpTo(enc, dec, d1, 0, 0)
    {
      for d2 := 0 to 10
        invariant TablesUpTo(enc, dec, d1, d2, 0)
      {
        for d3 := 0 to 10
          invariant TablesUpTo(enc, dec, d1, d2, d3)
        {
          var trio := Trio(d1, d2, d3);
          var declet := Declet(trio);
          assert IsTrio(trio) by { InRange(d1, d2, d3); }
          OneMore(enc, dec, trio);
          enc := enc[trio := declet];
          if declet !in dec {
            dec := dec[declet := trio];
          }
        }
        NextRow(enc, dec, d1, d2);
      }
      NextRow(enc, dec, d1, 0);
    }
    Finished(enc, dec);
  }

  lemma {:induction false} InRange(d1: nat, d2: nat, d3: nat)
    requires d1 <= 9 && d2 <= 9 && d3 <= 9
    ensures IsTrio(Trio(d1, d2, d3))
  {
  }

  lemma {:induction false} NothingYet()
    ensures TablesUpTo(map[], map[], 0, 0, 0)
  {
  }
}
