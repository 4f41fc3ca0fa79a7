/** DECFLOAT16 and DECFLOAT34 (codec.py): decimal64 and decimal128 in densely packed form,
    section 3.5.2 of IEEE 754-2008, little-endian on the wire. */
module Decfloat {
  import opened Bits
  import opened Words
  import opened Shifts
  import opened Dpd
  import Bcd

  datatype Format = Format(econ: nat, declets: nat, bias: nat, ndigits: nat)

  function FormatOf(width: int): Option<Format> {
    if width == 8 then Some(Format(8, 5, 398, 16))
    else if width == 16 then Some(Format(12, 11, 6176, 34))
    else None
  }

  /** A Python Decimal as as_tuple() shows it; a NaN may carry a payload and may be signalling. */
  datatype Dec =
    | Finite(negative: bool, digits: seq<nat>, exponent: int)
    | Infinity(negative: bool)
    | NaN(negative: bool, payload: seq<nat>, signalling: bool)

  /** No leading zero, except for the number zero itself. */
  predicate Proper(v: Dec) {
    v.Finite? ==> |v.digits| > 0 && Bcd.AllDigits(v.digits) && (|v.digits| > 1 ==> v.digits[0] != 0)
  }

  function Zeroes(n: nat): (z: seq<nat>)
    ensures |z| == n
  {
    seq(n, i => 0)
  }

  function Padded(ds: seq<nat>, n: nat): seq<nat>
    requires |ds| <= n
  {
    Zeroes(n - |ds|) + ds
  }

  /** What the Decimal constructor does to leading zeros. */
  function Stripped(ds: seq<nat>): seq<nat> {
    if |ds| > 1 && ds[0] == 0 then Stripped(ds[1..]) else ds
  }

  // ---- the coefficient ----

  function Three(ds: seq<nat>, i: nat): Trio
    requires i + 3 <= |ds|
  {
    Trio(ds[i], ds[i + 1], ds[i + 2])
  }

  /** The first n trios of digits, ten bits each. */
  function Coefficient(ds: seq<nat>, n: nat): nat
    requires 3 * n <= |ds|
  {
    if n == 0 then 0 else BitOr(Shl(Coefficient(ds, n - 1), DECLET_BITS), Declet(Three(ds, 3 * (n - 1))))
  }

  /** The declet n places from the right. */
  function DecletAt(coeff: nat, n: nat): nat {
    LowBits(Shr(coeff, n * DECLET_BITS), DECLET_BITS)
  }

  predicate Readable(coeff: nat, n: nat) {
    forall i :: 0 <= i < n ==> Canonical(DecletAt(coeff, i))
  }

  function DigitsAt(coeff: nat, n: nat): seq<nat> {
    var t := Digits(DecletAt(coeff, n));
    [t.a, t.b, t.c]
  }

  /** The digits of the n rightmost declets, left to right. */
  function Unpacked(coeff: nat, n: nat): (ds: seq<nat>)
    ensures |ds| == 3 * n
  {
    if n == 0 then [] else DigitsAt(coeff, n - 1) + Unpacked(coeff, n - 1)
  }

  // ---- the combination field ----

  /** The fields joined here do not overlap, so joining them is adding them. */
  function Combination(lead: nat, high: nat): nat {
    if lead <= 7 then 8 * high + lead else 24 + 2 * high + lead % 2
  }

  predicate Special(combo: nat) {
    combo / 2 % 16 == 15
  }

  function LeadOf(combo: nat): nat {
    if combo / 8 == 3 then 8 + combo % 2 else combo % 8
  }

  function HighOf(combo: nat): nat {
    if combo / 8 == 3 then combo / 2 % 4 else combo / 8 % 4
  }

  lemma {:induction false} CombinationBack(lead: nat, high: nat)
    requires lead <= 9 && high <= 2
    ensures
      var c := Combination(lead, high);
      c < 32 && !Special(c) && LeadOf(c) == lead && HighOf(c) == high
  {
  }

  lemma {:induction false} CombinationForth(combo: nat)
    requires combo < 32 && !Special(combo)
    ensures LeadOf(combo) <= 9 && HighOf(combo) <= 2 && Combination(LeadOf(combo), HighOf(combo)) == combo
  {
  }

  // ---- the whole value ----

  const COMBO_BITS: nat := 5

  function Sign(negative: bool): nat {
    if negative then 1 else 0
  }

  function Pack(f: Format, negative: bool, combo: nat, econ: nat, coeff: nat): nat {
    var c := f.declets * DECLET_BITS;
    BitOr(BitOr(BitOr(Shl(Sign(negative), c + f.econ + COMBO_BITS), Shl(combo, c + f.econ)), Shl(econ, c)), coeff)
  }

  function SignOf(f: Format, value: nat): bool {
    LowBits(Shr(value, f.declets * DECLET_BITS + f.econ + COMBO_BITS), 1) == 1
  }

  function ComboOf(f: Format, value: nat): nat {
    LowBits(Shr(value, f.declets * DECLET_BITS + f.econ), COMBO_BITS)
  }

  function EconOf(f: Format, value: nat): nat {
    LowBits(Shr(value, f.declets * DECLET_BITS), f.econ)
  }

  function CoeffOf(f: Format, value: nat): nat {
    LowBits(value, f.declets * DECLET_BITS)
  }

  function Biased(f: Format, v: Dec): int
    requires v.Finite?
  {
    v.exponent + f.bias
  }

  predicate InFormat(f: Format, v: Dec) {
    v.Finite? ==> |v.digits| <= f.ndigits && 0 <= Biased(f, v) <= Shl(3, f.econ) - 1
  }

  function PackedValue(f: Format, v: Dec): nat
    requires Proper(v) && InFormat(f, v) && f.ndigits == 1 + 3 * f.declets
  {
    match v
    case NaN(negative, _, _) => Pack(f, negative, 31, 0, 0)
    case Infinity(negative) => Pack(f, negative, 30, 0, 0)
    case Finite(negative, digits, _) =>
      var biased: nat := Biased(f, v);
      var padded := Padded(digits, f.ndigits);
      Pack(f, negative, Combination(padded[0], Shr(biased, f.econ)), LowBits(biased, f.econ),
           Coefficient(padded[1..], f.declets))
  }

  function Encode(v: Dec, width: int): Result<seq<byte>>
    requires Proper(v)
  {
    match FormatOf(width)
    case None => Err("DECFLOAT width must be 8 or 16")
    case Some(f) =>
      if !InFormat(f, v) then Err("outside the DECFLOAT range") else Ok(ToWire(PackedValue(f, v), width))
  }

  function ValueOf(f: Format, value: nat): Result<Dec> {
    var negative := SignOf(f, value);
    var combo := ComboOf(f, value);
    if Special(combo) then Ok(if combo % 2 == 1 then NaN(negative, [], false) else Infinity(negative))
    else if !Readable(CoeffOf(f, value), f.declets) then Err("KeyError")
    else
      Ok(Finite(negative,
                Stripped([LeadOf(combo)] + Unpacked(CoeffOf(f, value), f.declets)),
                BitOr(Shl(HighOf(combo), f.econ), EconOf(f, value)) - f.bias))
  }

  function Decode(raw: seq<byte>): Result<Dec> {
    match FormatOf(|raw|)
    case None => Err("DECFLOAT value must be 8 or 16 bytes")
    case Some(f) => ValueOf(f, FromWire(raw))
  }

  // ---- digits ----

  lemma {:induction false} StrippedPadded(v: Dec, n: nat)
    requires v.Finite? && Proper(v) && |v.digits| <= n
    ensures Stripped(Padded(v.digits, n)) == v.digits
    decreases n
  {
    var p := Padded(v.digits, n);
    if |v.digits| < n {
      assert p[1..] == Padded(v.digits, n - 1);
      StrippedPadded(v, n - 1);
    } else {
      assert p == v.digits;
    }
  }

  lemma {:induction false} PaddedStripped(ds: seq<nat>)
    requires |ds| > 0 && Bcd.AllDigits(ds)
    ensures 0 < |Stripped(ds)| <= |ds| && Padded(Stripped(ds), |ds|) == ds
    ensures Bcd.AllDigits(Stripped(ds)) && (|Stripped(ds)| > 1 ==> Stripped(ds)[0] != 0)
  {
    if |ds| > 1 && ds[0] == 0 {
      PaddedStripped(ds[1..]);
      var s := Stripped(ds[1..]);
      assert Padded(s, |ds|) == [0] + Padded(s, |ds| - 1);
      assert ds == [0] + ds[1..];
    } else {
      assert Padded(ds, |ds|) == ds;
    }
  }

  // ---- declets in and out of the coefficient ----

  lemma {:induction false} CoefficientBound(ds: seq<nat>, n: nat)
    requires 3 * n <= |ds| && Bcd.AllDigits(ds)
    ensures Coefficient(ds, n) < Pow2(n * DECLET_BITS)
    ensures n > 0 ==>
              Coefficient(ds, n) ==
              Declet(Three(ds, 3 * (n - 1))) + Shl(Coefficient(ds, n - 1), DECLET_BITS)
  {
    hide Shl, BitOr, Declet, DECLET_BITS, Digits, Redundant, Pow2;
    if n == 0 {
      PowNone();
    } else {
      CoefficientBound(ds, n - 1);
      var t := Three(ds, 3 * (n - 1));
      DigitsOfDeclet(t);
      OrFields(Coefficient(ds, n - 1), DECLET_BITS, Declet(t));
      ShlBound(Declet(t), DECLET_BITS, Coefficient(ds, n - 1), (n - 1) * DECLET_BITS);
      TimesNext(n, DECLET_BITS);
    }
  }

  lemma {:induction false} TimesNext(n: nat, w: nat)
    requires n > 0
    ensures w + (n - 1) * w == n * w
  {
  }

  /** Declet i of a coefficient above a new low declet is declet i - 1 of what was there before. */
  lemma {:induction false} DecletAbove(low: nat, c: nat, i: nat)
    requires low < Pow2(DECLET_BITS)
    ensures DecletAt(low + Shl(c, DECLET_BITS), 0) == low
    ensures i > 0 ==> DecletAt(low + Shl(c, DECLET_BITS), i) == DecletAt(c, i - 1)
  {
    hide Shl, LowBits, DECLET_BITS, Pow2;
    var v := low + Shl(c, DECLET_BITS);
    Fields(low, DECLET_BITS, c);
    if i > 0 {
      ShrShr(v, DECLET_BITS, (i - 1) * DECLET_BITS);
      TimesNext(i, DECLET_BITS);
    }
    assert 0 * DECLET_BITS == 0;
  }

  /** Every declet of a packed coefficient reads as the trio it was packed from. */
  lemma {:induction false} DecletPacked(ds: seq<nat>, n: nat, i: nat)
    requires 3 * n <= |ds| && Bcd.AllDigits(ds) && i < n
    ensures
      var d := DecletAt(Coefficient(ds, n), i);
      Canonical(d) && Digits(d) == Three(ds, 3 * (n - 1 - i))
    decreases n
  {
    hide Shl, BitOr, Declet, Digits, DecletAt, Coefficient, Canonical;
    CoefficientBound(ds, n);
    var t := Three(ds, 3 * (n - 1));
    TrioFits(t);
    DecletAbove(Declet(t), Coefficient(ds, n - 1), i);
    if i > 0 {
      DecletPacked(ds, n - 1, i - 1);
    }
  }

  lemma {:induction false} TrioFits(t: Trio)
    requires IsTrio(t)
    ensures Declet(t) < Pow2(DECLET_BITS) && Digits(Declet(t)) == t && Canonical(Declet(t))
  {
    DigitsOfDeclet(t);
    hide Declet, Digits;
  }

  lemma {:induction false} UnpackedAt(coeff: nat, n: nat, ds: seq<nat>)
    requires 3 * n <= |ds|
    requires forall i :: 0 <= i < n ==> Digits(DecletAt(coeff, i)) == Three(ds, |ds| - 3 * (i + 1))
    ensures Unpacked(coeff, n) == ds[|ds| - 3 * n..]
  {
    hide DecletAt, Digits;
    if n > 0 {
      UnpackedAt(coeff, n - 1, ds);
      assert Digits(DecletAt(coeff, n - 1)) == Three(ds, |ds| - 3 * n);
      assert ds[|ds| - 3 * n..] == ds[|ds| - 3 * n..|ds| - 3 * n + 3] + ds[|ds| - 3 * (n - 1)..];
    }
  }

  lemma {:induction false} UnpackPacked(ds: seq<nat>, n: nat)
    requires |ds| == 3 * n && Bcd.AllDigits(ds)
    ensures Readable(Coefficient(ds, n), n) && Unpacked(Coefficient(ds, n), n) == ds
  {
    hide DecletAt, Digits, Coefficient, Canonical;
    forall i | 0 <= i < n
      ensures
        var d := DecletAt(Coefficient(ds, n), i);
        Canonical(d) && Digits(d) == Three(ds, 3 * (n - 1 - i))
    {
      DecletPacked(ds, n, i);
    }
    UnpackedAt(Coefficient(ds, n), n, ds);
    assert ds[0..] == ds;
  }

  lemma {:induction false} UnpackedDigits(coeff: nat, n: nat)
    ensures Bcd.AllDigits(Unpacked(coeff, n))
  {
    hide Digits, DecletAt;
    if n > 0 {
      UnpackedDigits(coeff, n - 1);
      DigitsAreDigits(DecletAt(coeff, n - 1));
    }
  }

  /** The other way: a coefficient all of whose declets are canonical is packed from its digits. */
  lemma {:induction false} PackUnpacked(coeff: nat, n: nat)
    requires coeff < Pow2(n * DECLET_BITS) && Readable(coeff, n)
    ensures Coefficient(Unpacked(coeff, n), n) == coeff
  {
    UnpackedDigits(coeff, n);
    PackUnpackedFrom(coeff, coeff, n, Unpacked(coeff, n), n);
  }

  lemma {:induction false} PackUnpackedFrom(coeff: nat, rest: nat, n: nat, ds: seq<nat>, k: nat)
    requires k <= n && |ds| == 3 * n && Bcd.AllDigits(ds)
    requires ds == Unpacked(coeff, n) && Readable(coeff, n)
    requires rest == Shr(coeff, (n - k) * DECLET_BITS) < Pow2(k * DECLET_BITS)
    ensures Coefficient(ds, k) == rest
    decreases k
  {
    hide Shl, Shr, LowBits, BitOr, Declet, Digits, Canonical, Pow2, DECLET_BITS, Coefficient;
    if k == 0 {
      CoefficientNone(ds);
      PowNone();
    } else {
      var next := Shr(rest, DECLET_BITS);
      ShrShr(coeff, (n - k) * DECLET_BITS, DECLET_BITS);
      TimesNext(n - k + 1, DECLET_BITS);
      TimesNext(k, DECLET_BITS);
      ShrBound(rest, DECLET_BITS, (k - 1) * DECLET_BITS);
      PackUnpackedFrom(coeff, next, n, ds, k - 1);
      CoefficientBound(ds, k);
      Rejoin(rest, DECLET_BITS);
      UnpackedThree(coeff, n, n - k);
      CanonicalBack(DecletAt(coeff, n - k));
    }
  }

  lemma {:induction false} CoefficientNone(ds: seq<nat>)
    ensures Coefficient(ds, 0) == 0
  {
  }

  lemma {:induction false} PowNone()
    ensures Pow2(0 * DECLET_BITS) == 1
  {
    assert 0 * DECLET_BITS == 0;
  }

  lemma {:induction false} UnpackedThree(coeff: nat, n: nat, i: nat)
    requires i < n
    ensures Three(Unpacked(coeff, n), 3 * (n - 1 - i)) == Digits(DecletAt(coeff, i))
  {
    hide DecletAt, Digits;
    if i < n - 1 {
      UnpackedThree(coeff, n - 1, i);
    }
  }

  lemma {:induction false} CanonicalBack(k: nat)
    requires Canonical(k)
    ensures Declet(Digits(k)) == k
  {
    DecletOfDigits(k);
  }

  // ---- the fields in and out of the whole ----

  function Stacked(f: Format, negative: bool, combo: nat, econ: nat, coeff: nat): nat {
    coeff + Shl(econ + Shl(combo + Shl(Sign(negative), COMBO_BITS), f.econ), f.declets * DECLET_BITS)
  }

  predicate FieldsFit(f: Format, combo: nat, econ: nat, coeff: nat) {
    combo < Pow2(COMBO_BITS) && econ < Pow2(f.econ) && coeff < Pow2(f.declets * DECLET_BITS)
  }

  lemma {:induction false} PackIsStacked(f: Format, negative: bool, combo: nat, econ: nat, coeff: nat)
    requires FieldsFit(f, combo, econ, coeff)
    ensures Pack(f, negative, combo, econ, coeff) == Stacked(f, negative, combo, econ, coeff)
  {
    hide Shl, BitOr, Pow2, Sign, DECLET_BITS, COMBO_BITS;
    var c := f.declets * DECLET_BITS;
    var s := Sign(negative);
    var r2 := combo + Shl(s, COMBO_BITS);
    var r1 := econ + Shl(r2, f.econ);
    ShlShl(s, COMBO_BITS, c + f.econ);
    BitOrShl(Shl(s, COMBO_BITS), combo, c + f.econ);
    OrFields(s, COMBO_BITS, combo);
    ShlShl(r2, f.econ, c);
    BitOrShl(Shl(r2, f.econ), econ, c);
    OrFields(r2, f.econ, econ);
    OrFields(r1, c, coeff);
  }

  lemma {:induction false} SignBit(negative: bool)
    ensures Sign(negative) < Pow2(1) && (LowBits(Sign(negative), 1) == 1 <==> negative)
  {
  }

  /** Packing then picking the fields out gives every field back. */
  lemma {:induction false} FieldsBack(f: Format, negative: bool, combo: nat, econ: nat, coeff: nat)
    requires FieldsFit(f, combo, econ, coeff)
    ensures
      var v := Pack(f, negative, combo, econ, coeff);
      && SignOf(f, v) == negative && ComboOf(f, v) == combo && EconOf(f, v) == econ && CoeffOf(f, v) == coeff
      && v < Pow2(f.declets * DECLET_BITS + (f.econ + (COMBO_BITS + 1)))
  {
    hide Shl, Shr, LowBits, BitOr, Pow2, Sign, DECLET_BITS, COMBO_BITS, Pack;
    PackIsStacked(f, negative, combo, econ, coeff);
    var c := f.declets * DECLET_BITS;
    var s := Sign(negative);
    var r2 := combo + Shl(s, COMBO_BITS);
    var r1 := econ + Shl(r2, f.econ);
    var v := coeff + Shl(r1, c);
    SignBit(negative);
    Fields(coeff, c, r1);
    Fields(econ, f.econ, r2);
    Fields(combo, COMBO_BITS, s);
    ShrShr(v, c, f.econ);
    ShrShr(v, c + f.econ, COMBO_BITS);
    ShlBound(combo, COMBO_BITS, s, 1);
    ShlBound(econ, f.econ, r2, COMBO_BITS + 1);
    ShlBound(coeff, c, r1, f.econ + (COMBO_BITS + 1));
  }

  lemma {:induction false} OneBit(s: nat)
    requires s < Pow2(1)
    ensures Sign(LowBits(s, 1) == 1) == s
  {
  }

  /** Every number of the format's width is packed from the fields it shows. */
  lemma {:induction false} FieldsForth(f: Format, v: nat)
    requires v < Pow2(f.declets * DECLET_BITS + (f.econ + (COMBO_BITS + 1)))
    ensures FieldsFit(f, ComboOf(f, v), EconOf(f, v), CoeffOf(f, v))
    ensures Pack(f, SignOf(f, v), ComboOf(f, v), EconOf(f, v), CoeffOf(f, v)) == v
  {
    hide Shl, Shr, LowBits, BitOr, Pow2, Sign, DECLET_BITS, COMBO_BITS, Pack;
    var c := f.declets * DECLET_BITS;
    var r1 := Shr(v, c);
    var r2 := Shr(v, c + f.econ);
    var s := Shr(v, c + f.econ + COMBO_BITS);
    ShrShr(v, c, f.econ);
    ShrShr(v, c + f.econ, COMBO_BITS);
    ShrBound(v, c, f.econ + (COMBO_BITS + 1));
    ShrBound(r1, f.econ, COMBO_BITS + 1);
    ShrBound(r2, COMBO_BITS, 1);
    LowBitsBound(v, c);
    LowBitsBound(r1, f.econ);
    LowBitsBound(r2, COMBO_BITS);
    Rejoin(v, c);
    Rejoin(r1, f.econ);
    Rejoin(r2, COMBO_BITS);
    OneBit(s);
    PackIsStacked(f, SignOf(f, v), ComboOf(f, v), EconOf(f, v), CoeffOf(f, v));
  }

  // ---- round trips ----

  /** The two formats: the leading digit and three per declet, sizes adding up to the width. */
  predicate Shape(f: Format, width: nat) {
    && f.ndigits == 1 + 3 * f.declets
    && 8 * width == f.declets * DECLET_BITS + (f.econ + (COMBO_BITS + 1))
  }

  lemma {:induction false} Shapes(width: int)
    ensures FormatOf(width).Some? ==> width > 0 && Shape(FormatOf(width).value, width)
  {
  }

  /** What a NaN comes back as: the payload and the signalling bit are not on the wire. */
  function Quiet(v: Dec): Dec {
    if v.NaN? then NaN(v.negative, [], false) else v
  }

  lemma {:induction false} SpecialBack(f: Format, negative: bool, combo: nat)
    requires combo == 30 || combo == 31
    ensures
      ValueOf(f, Pack(f, negative, combo, 0, 0)) ==
      Ok(if combo == 31 then NaN(negative, [], false) else Infinity(negative))
  {
    hide Pow2, Pack, SignOf, ComboOf, EconOf, CoeffOf, Stripped, Unpacked, Readable, LeadOf, HighOf, Shl, BitOr, DECLET_BITS,
         COMBO_BITS;
    PowFive();
    FieldsBack(f, negative, combo, 0, 0);
  }

  lemma {:induction false} PowFive()
    ensures Pow2(COMBO_BITS) == 32
  {
  }

  /** The exponent's two parts, and its high part is at most 2. */
  lemma {:induction false} ExponentParts(biased: nat, e: nat)
    ensures BitOr(Shl(Shr(biased, e), e), LowBits(biased, e)) == biased && LowBits(biased, e) < Pow2(e)
    ensures Shr(biased, e) <= 2 <==> biased <= Shl(3, e) - 1
  {
    hide Shl, Shr, LowBits, BitOr, Pow2;
    LowBitsBound(biased, e);
    Rejoin(biased, e);
    OrFields(Shr(biased, e), e, LowBits(biased, e));
    ShlOrder(Shr(biased, e), e);
    assert 3 * Pow2(e) == Shl(3, e) by { ShlTimes(3, e); }
  }

  lemma {:induction false} ShlTimes(v: nat, e: nat)
    ensures Shl(v, e) == v * Pow2(e)
    decreases e
  {
    if e > 0 {
      ShlTimes(v, e - 1);
      assert v * (2 * Shl(1, e - 1)) == 2 * (v * Shl(1, e - 1));
    }
  }

  lemma {:induction false} ShlOrder(h: nat, e: nat)
    ensures h <= 2 ==> Shl(h, e) <= 2 * Pow2(e)
    ensures h >= 3 ==> Shl(h, e) >= 3 * Pow2(e)
  {
    ShlTimes(h, e);
    var p := Pow2(e);
    hide Shl, Pow2;
    if h <= 2 {
      assert h * p <= 2 * p;
    } else {
      assert h * p >= 3 * p;
    }
  }

  lemma {:induction false} PaddedDigits(ds: seq<nat>, n: nat)
    requires Bcd.AllDigits(ds) && |ds| <= n && n > 0
    ensures Bcd.AllDigits(Padded(ds, n)) && Bcd.AllDigits(Padded(ds, n)[1..]) && Padded(ds, n)[0] <= 9
    ensures |Padded(ds, n)| == n && [Padded(ds, n)[0]] + Padded(ds, n)[1..] == Padded(ds, n)
  {
    var p := Padded(ds, n);
    assert Bcd.AllDigits(p);
    assert forall i :: 0 <= i < n - 1 ==> p[1..][i] == p[i + 1];
  }

  lemma {:induction false} FiniteBack(f: Format, width: nat, v: Dec)
    requires Shape(f, width) && v.Finite? && Proper(v) && InFormat(f, v)
    ensures ValueOf(f, PackedValue(f, v)) == Ok(v)
  {
    hide Pow2, Pack, SignOf, ComboOf, EconOf, CoeffOf, Coefficient, Unpacked, Readable, Padded, Stripped, Bcd.AllDigits,
         Combination, Special, LeadOf, HighOf, Shl, Shr, LowBits, BitOr, DECLET_BITS, COMBO_BITS, Canonical, DecletAt;
    var biased: nat := Biased(f, v);
    var p := Padded(v.digits, f.ndigits);
    PaddedDigits(v.digits, f.ndigits);
    var high, econ, coeff := Shr(biased, f.econ), LowBits(biased, f.econ), Coefficient(p[1..], f.declets);
    ExponentParts(biased, f.econ);
    CombinationBack(p[0], high);
    PowFive();
    CoefficientBound(p[1..], f.declets);
    FieldsBack(f, v.negative, Combination(p[0], high), econ, coeff);
    UnpackPacked(p[1..], f.declets);
    StrippedPadded(v, f.ndigits);
  }

  lemma {:induction false} PackedFits(f: Format, width: nat, v: Dec)
    requires Shape(f, width) && Proper(v) && InFormat(f, v)
    ensures PackedValue(f, v) < Pow2(8 * width)
  {
    hide Pow2, Pack, SignOf, ComboOf, EconOf, CoeffOf, Coefficient, Padded, Bcd.AllDigits,
         Combination, Special, LeadOf, HighOf, Shl, Shr, LowBits, BitOr, DECLET_BITS, COMBO_BITS;
    PowFive();
    match v
    case NaN(negative, _, _) => FieldsBack(f, negative, 31, 0, 0);
    case Infinity(negative) => FieldsBack(f, negative, 30, 0, 0);
    case Finite(negative, digits, _) =>
      var biased: nat := Biased(f, v);
      var p := Padded(digits, f.ndigits);
      PaddedDigits(digits, f.ndigits);
      ExponentParts(biased, f.econ);
      CombinationBack(p[0], Shr(biased, f.econ));
      CoefficientBound(p[1..], f.declets);
      FieldsBack(f, negative, Combination(p[0], Shr(biased, f.econ)), LowBits(biased, f.econ),
                 Coefficient(p[1..], f.declets));
  }

  /** Decoding what was encoded gives the value back, whatever its sign, digits and exponent. */
  lemma {:induction false} DecodeEncoded(v: Dec, width: int)
    requires Proper(v) && Encode(v, width).Ok?
    ensures |Encode(v, width).value| == width && Decode(Encode(v, width).value) == Ok(Quiet(v))
  {
    hide PackedValue, Proper, InFormat, ValueOf, Pow2, Pow256, FormatOf, Shape, ToWire, FromWire;
    Shapes(width);
    var f := FormatOf(width).value;
    PackedFits(f, width, v);
    PowBytes(width);
    WireRoundTrip(PackedValue(f, v), width);
    ValueBack(f, width, v);
  }

  lemma {:induction false} ValueBack(f: Format, width: nat, v: Dec)
    requires Shape(f, width) && Proper(v) && InFormat(f, v)
    ensures ValueOf(f, PackedValue(f, v)) == Ok(Quiet(v))
  {
    hide Pack, ValueOf, Proper;
    match v
    case NaN(negative, _, _) => SpecialBack(f, negative, 31);
    case Infinity(negative) => SpecialBack(f, negative, 30);
    case Finite(_, _, _) => FiniteBack(f, width, v);
  }

  /** Digits and exponent fit the width; infinities and NaNs always do. */
  predicate InRange(v: Dec, width: int) {
    && (width == 8 || width == 16)
    && (v.Finite? ==>
          && |v.digits| <= (if width == 8 then 16 else 34)
          && (if width == 8 then -398 <= v.exponent <= 369 else -6176 <= v.exponent <= 6111))
  }

  /** A value is refused exactly for its width, its digits or its exponent. */
  lemma {:induction false} EncodesIff(v: Dec, width: int)
    requires Proper(v)
    ensures Encode(v, width).Ok? <==> InRange(v, width)
  {
    hide PackedValue, ToWire, Shl, Bcd.AllDigits;
    ExponentRanges();
  }

  lemma {:induction false} ExponentRanges()
    ensures Shl(3, 8) == 768 && Shl(3, 12) == 12288
  {
    Shl8(3, 0);
    Shl8(3, 4);
  }

  /** No two different numbers share an encoding, and no number is taken for an infinity or a NaN. */
  lemma {:induction false} EncodingsDiffer(v: Dec, w: Dec, width: int)
    requires Proper(v) && Proper(w) && Encode(v, width).Ok? && Encode(v, width) == Encode(w, width)
    ensures Quiet(v) == Quiet(w) && (v.Finite? <==> w.Finite?)
  {
    DecodeEncoded(v, width);
    DecodeEncoded(w, width);
    hide Encode, Decode, Proper;
  }

  lemma {:induction false} FiniteForth(f: Format, width: nat, value: nat)
    requires Shape(f, width) && value < Pow2(8 * width)
    requires ValueOf(f, value).Ok? && ValueOf(f, value).value.Finite?
    ensures
      var v := ValueOf(f, value).value;
      Proper(v) && InFormat(f, v) && PackedValue(f, v) == value
  {
    hide Pow2, Pack, SignOf, ComboOf, EconOf, CoeffOf, Coefficient, Unpacked, Padded, Stripped, Bcd.AllDigits, Readable,
         Combination, Special, LeadOf, HighOf, Shl, Shr, LowBits, BitOr, DECLET_BITS, COMBO_BITS, Canonical, DecletAt;
    var v := ValueOf(f, value).value;
    var combo, econ, coeff := ComboOf(f, value), EconOf(f, value), CoeffOf(f, value);
    FieldsForth(f, value);
    PowFive();
    CombinationForth(combo);
    var biased := BitOr(Shl(HighOf(combo), f.econ), econ);
    OrFields(HighOf(combo), f.econ, econ);
    Fields(econ, f.econ, HighOf(combo));
    ExponentParts(biased, f.econ);
    UnpackedDigits(coeff, f.declets);
    PackUnpacked(coeff, f.declets);
    var ds := [LeadOf(combo)] + Unpacked(coeff, f.declets);
    LeadDigits(LeadOf(combo), Unpacked(coeff, f.declets));
    PaddedStripped(ds);
  }

  lemma {:induction false} LeadDigits(lead: nat, ds: seq<nat>)
    requires lead <= 9 && Bcd.AllDigits(ds)
    ensures Bcd.AllDigits([lead] + ds) && ([lead] + ds)[1..] == ds && ([lead] + ds)[0] == lead
  {
  }

  /** Decoding then encoding restores the bytes: always for a number, and for an infinity or a NaN
      exactly when the bits below the combination field were clear. */
  lemma {:induction false} EncodeDecoded(raw: seq<byte>)
    requires Decode(raw).Ok?
    ensures
      var f := FormatOf(|raw|).value;
      var v := Decode(raw).value;
      Proper(v) &&
      (Encode(v, |raw|) == Ok(raw) <==>
        v.Finite? || (EconOf(f, FromWire(raw)) == 0 && CoeffOf(f, FromWire(raw)) == 0))
  {
    hide PackedValue, ValueOf, InFormat, Proper, Pow2, Pow256, FormatOf, Shape, ToWire, FromWire, EconOf, CoeffOf;
    Shapes(|raw|);
    var f := FormatOf(|raw|).value;
    var value := FromWire(raw);
    var v := Decode(raw).value;
    WireBack(raw);
    PowBytes(|raw|);
    if v.Finite? {
      FiniteForth(f, |raw|, value);
    } else {
      SpecialForth(f, |raw|, value);
      PackedFits(f, |raw|, v);
      WireRoundTrip(PackedValue(f, v), |raw|);
    }
  }

  lemma {:induction false} SpecialForth(f: Format, width: nat, value: nat)
    requires Shape(f, width) && value < Pow2(8 * width)
    requires ValueOf(f, value).Ok? && !ValueOf(f, value).value.Finite?
    ensures
      var v := ValueOf(f, value).value;
      && Proper(v) && InFormat(f, v)
      && (PackedValue(f, v) == value <==> EconOf(f, value) == 0 && CoeffOf(f, value) == 0)
  {
    hide Pow2, Pack, SignOf, ComboOf, EconOf, CoeffOf, DECLET_BITS, COMBO_BITS;
    FieldsForth(f, value);
    PowFive();
    FieldsBack(f, SignOf(f, value), ComboOf(f, value), 0, 0);
  }

  /** What cannot be decoded: another length, or a number with a redundant declet (the decode table
      has no entry for it, although the standard gives it a value). */
  lemma {:induction false} DecodesIff(raw: seq<byte>)
    ensures Decode(raw).Ok? <==>
              (|raw| == 8 || |raw| == 16) &&
              var f := FormatOf(|raw|).value;
              Special(ComboOf(f, FromWire(raw))) || Readable(CoeffOf(f, FromWire(raw)), f.declets)
  {
  }

  /** A number of one declet: no sign, no leading digit, the smallest exponent. */
  lemma {:induction false} OneDeclet(n: nat)
    requires n < Pow2(DECLET_BITS)
    ensures
      var f := FormatOf(8).value;
      !Special(ComboOf(f, n)) && (Readable(CoeffOf(f, n), f.declets) <==> Canonical(n))
  {
    hide Shr, LowBits, Redundant;
    assert Pow2(0) == 1;
    NothingAbove(n, 5 * DECLET_BITS + 8);
    NothingAbove(n, 1 * DECLET_BITS);
    NothingAbove(n, 2 * DECLET_BITS);
    NothingAbove(n, 3 * DECLET_BITS);
    NothingAbove(n, 4 * DECLET_BITS);
    Pow2Monotone(DECLET_BITS, 5 * DECLET_BITS);
    LowBitsFits(n, 5 * DECLET_BITS);
    LowBitsFits(n, DECLET_BITS);
    LowBitsFits(0, DECLET_BITS);
    LowBitsFits(0, COMBO_BITS);
    ShrNone(n);
    NothingIsCanonical();
    hide Pow2, Canonical;
    assert forall i :: 0 <= i < 5 ==> DecletAt(n, i) == if i == 0 then n else 0;
    assert DecletAt(n, 0) == n;
  }

  lemma {:induction false} NothingAbove(n: nat, k: nat)
    requires n < Pow2(DECLET_BITS) && k >= DECLET_BITS
    ensures Shr(n, k) == 0
  {
    Pow2Monotone(DECLET_BITS, k);
    ShrBound(n, k, 0);
    assert Pow2(0) == 1;
  }

  lemma {:induction false} ShrNone(n: nat)
    ensures Shr(n, 0) == n
  {
  }

  lemma {:induction false} NothingIsCanonical()
    ensures Canonical(0)
  {
  }

  /** A number that cannot be decoded: 888 in eight bytes, written with a redundant declet. With the
      declet the encoder writes for 888 the same number is decoded. */
  lemma {:induction false} RedundantRefused()
    ensures Digits(0x16E) == Digits(0x06E) == Trio(8, 8, 8)
    ensures Decode([0x6E, 0x01, 0, 0, 0, 0, 0, 0]).Err? && Decode([0x6E, 0x00, 0, 0, 0, 0, 0, 0]).Ok?
  {
    Declet888();
    hide *;
    OneDeclet(0x06E);
    OneDeclet(0x16E);
    FewBytes(0x6E, 0);
    FewBytes(0x6E, 1);
    DecodesEight([0x6E, 0x01, 0, 0, 0, 0, 0, 0]);
    DecodesEight([0x6E, 0x00, 0, 0, 0, 0, 0, 0]);
  }

  lemma {:induction false} Declet888()
    ensures Digits(0x16E) == Digits(0x06E) == Trio(8, 8, 8)
    ensures Canonical(0x06E) && !Canonical(0x16E) && Pow2(DECLET_BITS) == 1024
  {
  }

  lemma {:induction false} DecodesEight(raw: seq<byte>)
    requires |raw| == 8
    ensures Decode(raw).Ok? <==>
              var f := FormatOf(8).value;
              Special(ComboOf(f, FromWire(raw))) || Readable(CoeffOf(f, FromWire(raw)), f.declets)
  {
    hide Special, ComboOf, FromWire, Readable, CoeffOf;
    DecodesIff(raw);
  }

  lemma {:induction false} FewBytes(low: byte, high: byte)
    ensures FromWire([low, high, 0, 0, 0, 0, 0, 0]) == low as nat + 256 * high as nat
  {
    var b: seq<byte> := [0, 0, 0, 0, 0, 0, high, low];
    ReversedEight(low, high);
    hide Reversed;
    assert b[..7] == [0, 0, 0, 0, 0, 0, high] && b[..7][..6] == [0, 0, 0, 0, 0, 0];
    ZeroBytes([0, 0, 0, 0, 0, 0]);
    assert BigEndian(b[..7]) == high as nat;
  }

  lemma {:induction false} ReversedEight(low: byte, high: byte)
    ensures Reversed([low, high, 0, 0, 0, 0, 0, 0]) == [0, 0, 0, 0, 0, 0, high, low]
  {
    var noughts: seq<byte> := [0, 0, 0, 0, 0, 0];
    assert [low, high, 0, 0, 0, 0, 0, 0][1..] == [high] + noughts && ([high] + noughts)[1..] == noughts;
    ReversedNoughts(noughts);
    assert Reversed([high] + noughts) == Reversed(noughts) + [high];
  }

  lemma {:induction false} ReversedNoughts(s: seq<byte>)
    requires forall i :: 0 <= i < |s| ==> s[i] == 0
    ensures Reversed(s) == s
  {
    if s != [] {
      ReversedNoughts(s[1..]);
    }
  }


  // ---- the two functions as written, over the tables built at load time ----

  /** The loop over the declets, three digits at a time. */
  method PackDigits(ds: seq<nat>, declets: nat, enc: map<Trio, nat>, dec: map<nat, Trio>) returns (coeff: nat)
    requires Tables(enc, dec) && Bcd.AllDigits(ds) && 3 * declets <= |ds|
    ensures coeff == Coefficient(ds, declets)
  {
    hide Shl, BitOr, Declet, DECLET_BITS, Canonical, Digits;
    coeff := 0;
    for n := 0 to declets
      invariant coeff == Coefficient(ds, n)
    {
      var trio := Three(ds, 3 * n);
      assert IsTrio(trio);
      coeff := BitOr(Shl(coeff, DECLET_BITS), enc[trio]);
    }
  }

  method EncodeDecfloat(v: Dec, width: int, enc: map<Trio, nat>, dec: map<nat, Trio>)
    returns (r: Result<seq<byte>>)
    requires Tables(enc, dec) && Proper(v)
    ensures r == Encode(v, width)
  {
    hide Pack, Shl, Shr, LowBits, BitOr, Combination, ToWire, DECLET_BITS, Coefficient, Padded, Tables;
    var format := FormatOf(width);
    if format.None? {
      return Err("DECFLOAT width must be 8 or 16");
    }
    var f := format.value;
    if v.NaN? {
      return Ok(ToWire(Pack(f, v.negative, 31, 0, 0), width));
    }
    if v.Infinity? {
      return Ok(ToWire(Pack(f, v.negative, 30, 0, 0), width));
    }
    if |v.digits| > f.ndigits {
      return Err("outside the DECFLOAT range");
    }
    var biased := v.exponent + f.bias;
    if !(0 <= biased <= Shl(3, f.econ) - 1) {
      return Err("outside the DECFLOAT range");
    }
    var padded := Padded(v.digits, f.ndigits);
    PaddedDigits(v.digits, f.ndigits);
    var lead := padded[0];
    var combo := Combination(lead, Shr(biased, f.econ));
    var coeff := PackDigits(padded[1..], f.declets, enc, dec);
    return Ok(ToWire(Pack(f, v.negative, combo, LowBits(biased, f.econ), coeff), width));
  }

  lemma {:induction false} UnreadableAt(coeff: nat, n: nat, i: nat)
    requires i < n && !Canonical(DecletAt(coeff, i))
    ensures !Readable(coeff, n)
  {
  }

  lemma {:induction false} UnpackedNext(ds: seq<nat>, coeff: nat, n: nat)
    ensures ds + Unpacked(coeff, n + 1) == ds + DigitsAt(coeff, n) + Unpacked(coeff, n)
  {
  }

  lemma {:induction false} UnpackedNone(ds: seq<nat>, coeff: nat)
    ensures ds + Unpacked(coeff, 0) == ds
  {
  }

  method DecodeDecfloat(raw: seq<byte>, enc: map<Trio, nat>, dec: map<nat, Trio>) returns (r: Result<Dec>)
    requires Tables(enc, dec)
    ensures r == Decode(raw)
  {
    hide Shl, Shr, LowBits, BitOr, FromWire, Canonical, Digits, DECLET_BITS, SignOf, ComboOf, EconOf, CoeffOf,
         Unpacked, Stripped;
    var format := FormatOf(|raw|);
    if format.None? {
      return Err("DECFLOAT value must be 8 or 16 bytes");
    }
    var f := format.value;
    var value := FromWire(raw);
    var negative := SignOf(f, value);
    var combo := ComboOf(f, value);
    if Special(combo) {
      return Ok(if combo % 2 == 1 then NaN(negative, [], false) else Infinity(negative));
    }
    var lead, high;
    if combo / 8 == 3 {
      lead, high := 8 + combo % 2, combo / 2 % 4;
    } else {
      lead, high := combo % 8, combo / 8 % 4;
    }
    var exponent := BitOr(Shl(high, f.econ), EconOf(f, value)) - f.bias;
    var coeff := CoeffOf(f, value);
    var digits := [lead];
    var n: nat := f.declets;
    while n > 0
      invariant n <= f.declets
      invariant digits + Unpacked(coeff, n) == [lead] + Unpacked(coeff, f.declets)
      invariant forall i :: n <= i < f.declets ==> Canonical(DecletAt(coeff, i))
    {
      n := n - 1;
      var declet := LowBits(Shr(coeff, n * DECLET_BITS), DECLET_BITS);
      if declet !in dec {
        assert declet == DecletAt(coeff, n);
        UnreadableAt(coeff, f.declets, n);
        return Err("KeyError");
      }
      var t := dec[declet];
      assert DigitsAt(coeff, n) == [t.a, t.b, t.c];
      UnpackedNext(digits, coeff, n);
      digits := digits + [t.a, t.b, t.c];
    }
    UnpackedNone(digits, coeff);
    return Ok(Finite(negative, Stripped(digits), exponent));
  }
}
