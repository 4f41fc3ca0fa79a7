/** Packed decimal fields (codec.py) over decimal.Decimal values, whose scaleb rounds every result to
    the default context's 28 significant digits, half to even. */
module Bcd {
  import opened Bits

  // ---- powers of ten ----

  function Pow10(n: nat): (p: nat)
    ensures p >= 1
  {
    if n == 0 then 1 else 10 * Pow10(n - 1)
  }

  lemma {:induction false} PowSum(a: nat, b: nat)
    ensures Pow10(a + b) == Pow10(a) * Pow10(b)
    decreases a
  {
    if a > 0 {
      PowSum(a - 1, b);
      assert 10 * (Pow10(a - 1) * Pow10(b)) == (10 * Pow10(a - 1)) * Pow10(b);
    }
  }

  lemma {:induction false} PowOrder(a: nat, b: nat)
    ensures a <= b <==> Pow10(a) <= Pow10(b)
    decreases a + b
  {
    if a > 0 && b > 0 {
      PowOrder(a - 1, b - 1);
    }
  }

  /** How many digits str() prints. */
  function DigitCount(c: nat): (n: nat)
    ensures n > 0
  {
    if c < 10 then 1 else 1 + DigitCount(c / 10)
  }

  lemma {:induction false} CountBounds(c: nat)
    ensures c < Pow10(DigitCount(c))
    ensures c > 0 ==> Pow10(DigitCount(c) - 1) <= c
  {
    if c >= 10 {
      CountBounds(c / 10);
    }
  }

  lemma {:induction false} CountAtMost(c: nat, n: nat)
    requires n > 0
    ensures DigitCount(c) <= n <==> c < Pow10(n)
  {
    CountBounds(c);
    PowOrder(DigitCount(c), n);
    PowOrder(n, DigitCount(c) - 1);
    if c == 0 {
      PowOrder(0, n);
    }
  }

  // ---- decimal numbers ----

  const PRECISION: nat := 28

  /** (-1)^negative * coeff * 10^exp; a zero keeps its sign. */
  datatype Num = Num(negative: bool, coeff: nat, exp: int)

  /** The number in units of 10^e. */
  function In(v: Num, e: int): nat
    requires e <= v.exp
  {
    v.coeff * Pow10(v.exp - e)
  }

  function Lower(a: int, b: int): int {
    if a <= b then a else b
  }

  predicate SameValue(a: Num, b: Num) {
    var e := Lower(a.exp, b.exp);
    a.negative == b.negative && In(a, e) == In(b, e)
  }

  function HalfEven(c: nat, p: nat): nat
    requires p > 0
  {
    if 2 * (c % p) > p || (2 * (c % p) == p && c / p % 2 == 1) then c / p + 1 else c / p
  }

  /** What the context does to every result: at most 28 digits are kept. */
  function Fix(v: Num): Num {
    var n := DigitCount(v.coeff);
    if n <= PRECISION then v
    else
      var c := HalfEven(v.coeff, Pow10(n - PRECISION));
      if c == Pow10(PRECISION) then Num(v.negative, Pow10(PRECISION - 1), v.exp + (n - PRECISION) + 1)
      else Num(v.negative, c, v.exp + (n - PRECISION))
  }

  function Scaleb(v: Num, places: int): Num {
    Fix(v.(exp := v.exp + places))
  }

  function ToIntegral(v: Num): nat {
    if v.exp >= 0 then v.coeff * Pow10(v.exp) else HalfEven(v.coeff, Pow10(-v.exp))
  }

  /** At most 28 digits up to trailing zeros. */
  predicate Short(c: nat) {
    DigitCount(c) <= PRECISION || c % Pow10(DigitCount(c) - PRECISION) == 0
  }

  lemma {:induction false} HalfEvenNear(c: nat, p: nat)
    requires p > 0
    ensures 2 * (HalfEven(c, p) * p) <= 2 * c + p && 2 * c <= 2 * (HalfEven(c, p) * p) + p
    ensures HalfEven(c, p) * p == c <==> c % p == 0
  {
    var q, r := c / p, c % p;
    assert c == q * p + r;
    assert (q + 1) * p == q * p + p;
  }

  lemma {:induction false} HalfEvenExact(k: nat, p: nat)
    requires p > 0
    ensures HalfEven(k * p, p) == k && k * p % p == 0
  {
    Multiple(k, p);
  }

  lemma {:induction false} Times(d: int, p: nat)
    ensures d >= 1 ==> d * p >= p
    ensures d <= -1 ==> d * p <= 0 - p
  {
    if d >= 1 {
      assert d * p == p + (d - 1) * p;
      assert (d - 1) * p >= 0;
    } else if d <= -1 {
      assert d * p == (d + 1) * p - p;
      assert (-1 - d) * p >= 0;
    }
  }

  lemma {:induction false} Multiple(k: nat, p: nat)
    requires p > 0
    ensures k * p % p == 0 && k * p / p == k
  {
    Euclid(k * p, p, k, 0);
  }

  /** Division with remainder has one answer. */
  lemma {:induction false} Euclid(c: nat, p: nat, q: nat, r: nat)
    requires r < p && c == q * p + r
    ensures c / p == q && c % p == r
  {
    var q', r' := c / p, c % p;
    assert c == q' * p + r';
    assert (q - q') * p == q * p - q' * p == r' - r;
    Times(q - q', p);
  }

  lemma {:induction false} HalfEvenBelow(c: nat, p: nat, top: nat)
    requires p > 0 && c < top * p
    ensures HalfEven(c, p) <= top
  {
    var q, r := c / p, c % p;
    assert c == q * p + r;
    TimesOrder(top, q, p);
  }

  /** Fixing keeps at most 28 digits, moves a number by at most half of what it drops, and moves it
      not at all exactly when the number was short. */
  lemma {:induction false} FixBound(v: Num)
    ensures Fix(v).coeff < Pow10(PRECISION) && Fix(v).exp >= v.exp && Fix(v).negative == v.negative
    ensures Fix(v).coeff * Pow10(Fix(v).exp - v.exp) == v.coeff <==> Short(v.coeff)
    ensures Short(v.coeff) && v.coeff > 0 ==> Fix(v).coeff > 0
  {
    hide Pow10, PRECISION, HalfEven, Fix, DigitCount;
    var n := DigitCount(v.coeff);
    CountBounds(v.coeff);
    if n <= PRECISION {
      CountAtMost(v.coeff, PRECISION);
      FixNothing(v);
    } else {
      var p := Pow10(n - PRECISION);
      var c := HalfEven(v.coeff, p);
      PowSum(PRECISION, n - PRECISION);
      HalfEvenBelow(v.coeff, p, Pow10(PRECISION));
      HalfEvenNear(v.coeff, p);
      FixCarry(v, n, c);
    }
  }

  lemma {:induction false} FixNothing(v: Num)
    requires DigitCount(v.coeff) <= PRECISION
    ensures Fix(v) == v && v.coeff * Pow10(0) == v.coeff
  {
  }

  lemma {:induction false} FixCarry(v: Num, n: nat, c: nat)
    requires n == DigitCount(v.coeff) > PRECISION && c == HalfEven(v.coeff, Pow10(n - PRECISION)) <= Pow10(PRECISION)
    ensures Fix(v).coeff < Pow10(PRECISION) && Fix(v).exp >= v.exp && Fix(v).negative == v.negative
    ensures Fix(v).coeff * Pow10(Fix(v).exp - v.exp) == c * Pow10(n - PRECISION)
    ensures c > 0 ==> Fix(v).coeff > 0
  {
    hide HalfEven, DigitCount, Pow10;
    var k := n - PRECISION;
    PowStep(PRECISION);
    if c == Pow10(PRECISION) {
      PowStep(k + 1);
      var a, b := Pow10(PRECISION - 1), Pow10(k);
      assert a * (10 * b) == (10 * a) * b;
    }
  }

  lemma {:induction false} PowStep(n: nat)
    requires n > 0
    ensures Pow10(n) == 10 * Pow10(n - 1)
  {
  }

  // ---- digits and nibbles ----

  function ToDigits(n: nat, k: nat): (ds: seq<nat>)
    ensures |ds| == k
    decreases k
  {
    if k == 0 then [] else ToDigits(n / 10, k - 1) + [n % 10]
  }

  function FromDigits(ds: seq<nat>): nat {
    if ds == [] then 0 else 10 * FromDigits(ds[..|ds| - 1]) + ds[|ds| - 1]
  }

  predicate AllDigits(ds: seq<nat>) {
    forall i :: 0 <= i < |ds| ==> ds[i] <= 9
  }

  lemma {:induction false} DigitsBack(n: nat, k: nat)
    requires n < Pow10(k)
    ensures FromDigits(ToDigits(n, k)) == n && AllDigits(ToDigits(n, k))
    decreases k
  {
    if k > 0 {
      DigitsBack(n / 10, k - 1);
      assert ToDigits(n, k)[..k - 1] == ToDigits(n / 10, k - 1);
    }
  }

  lemma {:induction false} DigitsForth(ds: seq<nat>)
    requires AllDigits(ds)
    ensures FromDigits(ds) < Pow10(|ds|) && ToDigits(FromDigits(ds), |ds|) == ds
  {
    if ds != [] {
      var n := |ds| - 1;
      DigitsForth(ds[..n]);
      assert ds == ds[..n] + [ds[n]];
    }
  }

  /** High nibble, then low nibble, byte after byte. */
  function Nibbles(raw: seq<byte>): (ns: seq<nat>)
    ensures |ns| == 2 * |raw| && forall i :: 0 <= i < |ns| ==> ns[i] < 16
  {
    if raw == [] then [] else [raw[0] as nat / 16, raw[0] as nat % 16] + Nibbles(raw[1..])
  }

  predicate AllNibbles(ns: seq<nat>) {
    forall i :: 0 <= i < |ns| ==> ns[i] < 16
  }

  function FromNibbles(ns: seq<nat>): (raw: seq<byte>)
    requires AllNibbles(ns) && |ns| % 2 == 0
    ensures |raw| == |ns| / 2
  {
    if ns == [] then [] else [16 * ns[0] + ns[1]] + FromNibbles(ns[2..])
  }

  lemma {:induction false} NibblesBack(ns: seq<nat>)
    requires AllNibbles(ns) && |ns| % 2 == 0
    ensures Nibbles(FromNibbles(ns)) == ns
  {
    if ns != [] {
      var raw := FromNibbles(ns);
      NibblesBack(ns[2..]);
      assert raw[1..] == FromNibbles(ns[2..]);
      assert raw[0] as nat / 16 == ns[0] && raw[0] as nat % 16 == ns[1];
      assert ns == [ns[0], ns[1]] + ns[2..];
    }
  }

  lemma {:induction false} NibblesForth(raw: seq<byte>)
    ensures FromNibbles(Nibbles(raw)) == raw
  {
    if raw != [] {
      NibblesForth(raw[1..]);
      var ns := Nibbles(raw);
      assert ns[2..] == Nibbles(raw[1..]);
      assert raw == [raw[0]] + raw[1..];
    }
  }

  // ---- the field ----

  const MINUS: nat := 0x0D
  const PLUS: nat := 0x0C

  function SignNibble(negative: bool): nat {
    if negative then MINUS else PLUS
  }

  predicate IsSign(n: nat) {
    n == MINUS || n == PLUS || n == 0x0F || n == 0x0B
  }

  /** The integer the field stores: the value in units of 10^-decimals. */
  function Unscaled(v: Num, decimals: int): nat {
    ToIntegral(Scaleb(v, decimals))
  }

  lemma {:induction false} UnscaledZero(decimals: int)
    ensures Unscaled(Num(false, 0, 0), decimals) == 0
  {
    hide Pow10;
  }

  function Written(v: Num, width: nat, decimals: int): (ns: seq<nat>)
    requires width > 0
    ensures |ns| == 2 * width
  {
    ToDigits(Unscaled(v, decimals), 2 * width - 1) + [SignNibble(v.negative)]
  }

  lemma {:induction false} WrittenNibbles(v: Num, width: nat, decimals: int)
    requires width > 0 && Unscaled(v, decimals) < Pow10(2 * width - 1)
    ensures AllNibbles(Written(v, width, decimals))
  {
    hide Unscaled, FromDigits, Pow10, ToDigits;
    DigitsBack(Unscaled(v, decimals), 2 * width - 1);
  }

  function Encode(v: Num, width: int, decimals: int): Result<seq<byte>> {
    if width <= 0 then Err("BCD field width must be positive")
    else if DigitCount(Unscaled(v, decimals)) > 2 * width - 1 then Err("BCD value needs more digits")
    else
      CountAtMost(Unscaled(v, decimals), 2 * width - 1);
      WrittenNibbles(v, width, decimals);
      Ok(FromNibbles(Written(v, width, decimals)))
  }

  function Decode(raw: seq<byte>, width: int, decimals: int): Result<Num> {
    if width <= 0 then Err("BCD field width must be positive")
    else if |raw| < width then Err("BCD field truncated")
    else
      var ns := Nibbles(raw[..width]);
      var sign, digits := ns[2 * width - 1], ns[..2 * width - 1];
      if !IsSign(sign) then Err("invalid BCD sign nibble")
      else if !AllDigits(digits) then Err("invalid BCD digit nibble")
      else Ok(Scaleb(Num(sign == MINUS, FromDigits(digits), 0), -decimals))
  }

  // ---- short numbers ----

  lemma {:induction false} Associate(a: nat, b: nat, c: nat)
    ensures a * b * c == a * (b * c)
  {
  }

  lemma {:induction false} Cancel(a: nat, b: nat, p: nat)
    requires p > 0
    ensures a * p == b * p <==> a == b
  {
    assert a * p - b * p == (a - b) * p;
    Times(a - b, p);
  }

  /** Few digits and zeros after them: short. */
  lemma {:induction false} ShortScaled(c: nat, k: nat)
    requires c < Pow10(PRECISION)
    ensures Short(c * Pow10(k))
  {
    hide Pow10, PRECISION, DigitCount;
    var u := c * Pow10(k);
    var n := DigitCount(u);
    if n > PRECISION {
      CountBounds(u);
      Precise();
      TimesOrder(c, Pow10(PRECISION), Pow10(k));
      PowSum(PRECISION, k);
      PowOrder(PRECISION + k, n - 1);
      var drop := n - PRECISION;
      PowSum(k - drop, drop);
      Associate(c, Pow10(k - drop), Pow10(drop));
      Multiple(c * Pow10(k - drop), Pow10(drop));
    }
  }

  lemma {:induction false} Precise()
    ensures PRECISION > 1 && DigitCount(0) == 1 && Pow10(0) == 1
  {
  }

  lemma {:induction false} TimesOrder(a: nat, b: nat, p: nat)
    ensures a < b && p > 0 ==> a * p < b * p
    ensures a <= b ==> a * p <= b * p
  {
    assert b * p - a * p == (b - a) * p;
    if a < b {
      Times(b - a, p);
    }
  }

  /** Zeros after a short number leave it short. */
  lemma {:induction false} ShortTimes(u: nat, j: nat)
    requires Short(u)
    ensures Short(u * Pow10(j))
  {
    hide Pow10, PRECISION, DigitCount;
    var n := DigitCount(u);
    CountBounds(u);
    Precise();
    if n <= PRECISION {
      CountAtMost(u, PRECISION);
      ShortScaled(u, j);
    } else {
      var drop := n - PRECISION;
      var c := u / Pow10(drop);
      assert u == c * Pow10(drop);
      PowSum(PRECISION, drop);
      TimesOrder(Pow10(PRECISION), c, Pow10(drop));
      Associate(c, Pow10(drop), Pow10(j));
      PowSum(drop, j);
      ShortScaled(c, drop + j);
    }
  }

  /** The integer stored always has at most 28 digits before its trailing zeros. */
  lemma {:induction false} UnscaledShort(v: Num, decimals: int)
    ensures Short(Unscaled(v, decimals))
  {
    hide Pow10, PRECISION, DigitCount, Fix, Short, HalfEven;
    var w := Scaleb(v, decimals);
    FixBound(v.(exp := v.exp + decimals));
    if w.exp >= 0 {
      ShortScaled(w.coeff, w.exp);
    } else {
      Precise();
      var p := Pow10(-w.exp);
      PowStep(PRECISION);
      PowSum(-w.exp - 1, 1);
      PowStep(1);
      PowStep(-w.exp);
      Associate(Pow10(PRECISION - 1), 10, Pow10(-w.exp - 1));
      TimesOrder(Pow10(PRECISION), Pow10(PRECISION) * Pow10(-w.exp - 1), 1);
      TimesOrder(1, Pow10(-w.exp - 1), Pow10(PRECISION));
      HalfEvenBelow(w.coeff, p, Pow10(PRECISION - 1));
      ShortScaled(HalfEven(w.coeff, p), 0);
    }
  }

  // ---- what a field means ----

  /** Encoding writes exactly `width` bytes of digits and a canonical sign, and they spell the stored
      integer; it refuses exactly the integers the field has no room for. */
  lemma {:induction false} EncodedField(v: Num, width: nat, decimals: int)
    requires width > 0
    ensures Encode(v, width, decimals).Ok? <==> Unscaled(v, decimals) < Pow10(2 * width - 1)
    ensures Encode(v, width, decimals).Ok? ==>
              var raw := Encode(v, width, decimals).value;
              && |raw| == width
              && |Nibbles(raw)| == 2 * width
              && AllDigits(Nibbles(raw)[..2 * width - 1])
              && FromDigits(Nibbles(raw)[..2 * width - 1]) == Unscaled(v, decimals)
              && Nibbles(raw)[2 * width - 1] == SignNibble(v.negative)
  {
    hide Pow10, DigitCount, Unscaled, FromNibbles, Nibbles, FromDigits, AllDigits, AllNibbles, ToDigits, SignNibble;
    CountAtMost(Unscaled(v, decimals), 2 * width - 1);
    if Encode(v, width, decimals).Ok? {
      WrittenNibbles(v, width, decimals);
      var ns := Written(v, width, decimals);
      NibblesBack(ns);
      DigitsBack(Unscaled(v, decimals), 2 * width - 1);
      assert ns[..2 * width - 1] == ToDigits(Unscaled(v, decimals), 2 * width - 1);
    }
  }

  /** Decoding what was encoded gives the stored integer times 10^-decimals, whatever the digits. */
  lemma {:induction false} DecodeEncoded(v: Num, width: nat, decimals: int)
    requires Encode(v, width, decimals).Ok?
    ensures
      var r := Decode(Encode(v, width, decimals).value, width, decimals);
      r.Ok? && r.value.negative == v.negative && r.value.exp >= -decimals &&
      In(r.value, -decimals) == Unscaled(v, decimals)
  {
    hide Pow10, DigitCount, Unscaled, Nibbles, FromDigits, AllDigits, Fix, Short, FromNibbles, Written;
    var raw := Encode(v, width, decimals).value;
    EncodedField(v, width, decimals);
    assert raw[..width] == raw;
    UnscaledShort(v, decimals);
    FixBound(Num(v.negative, Unscaled(v, decimals), -decimals));
  }

  // ---- how close the stored integer is, and when it is exact ----

  /** Changing the unit scales both sides. */
  lemma {:induction false} InScaled(v: Num, e: int, d: int)
    requires d <= e <= v.exp
    ensures In(v, d) == In(v, e) * Pow10(e - d)
  {
    PowSum(v.exp - e, e - d);
    Associate(v.coeff, Pow10(v.exp - e), Pow10(e - d));
  }

  /** A value short enough and not finer than the field's unit is stored exactly; a short one is
      never more than half a unit away. */
  lemma {:induction false} StoredNear(v: Num, decimals: int)
    requires Short(v.coeff)
    ensures
      var e := v.exp + decimals;
      if e >= 0 then Unscaled(v, decimals) == v.coeff * Pow10(e)
      else
        var p := Pow10(-e);
        && 2 * (Unscaled(v, decimals) * p) <= 2 * v.coeff + p
        && 2 * v.coeff <= 2 * (Unscaled(v, decimals) * p) + p
        && (v.coeff % p == 0 ==> Unscaled(v, decimals) * p == v.coeff)
  {
    hide Pow10, PRECISION, DigitCount, Fix, Short, HalfEven;
    var e := v.exp + decimals;
    var w := Scaleb(v, decimals);
    FixBound(v.(exp := e));
    var m := Pow10(w.exp - e);
    if e >= 0 {
      PowSum(w.exp - e, e);
      Associate(w.coeff, m, Pow10(e));
    } else if w.exp >= 0 {
      PowSum(w.exp, -e);
      Associate(w.coeff, Pow10(w.exp), Pow10(-e));
    } else {
      StoredCoarse(w.coeff, Pow10(-w.exp), m);
      PowSum(-w.exp, w.exp - e);
    }
  }

  lemma {:induction false} Stretch(x: nat, y: nat, p: nat, m: nat)
    requires 2 * x <= 2 * y + p
    ensures 2 * (x * m) <= 2 * (y * m) + p * m
  {
    TimesOrder(2 * x, 2 * y + p, m);
    Distribute(2 * y, p, m);
    Associate(2, x, m);
    Associate(2, y, m);
  }

  /** Rounding a multiple c * m of m to units of p * m. */
  lemma {:induction false} StoredCoarse(c: nat, p: nat, m: nat)
    requires p > 0 && m > 0
    ensures
      var u := HalfEven(c, p);
      && 2 * (u * (p * m)) <= 2 * (c * m) + p * m
      && 2 * (c * m) <= 2 * (u * (p * m)) + p * m
      && (c * m % (p * m) == 0 ==> u * (p * m) == c * m)
  {
    hide HalfEven;
    var u := HalfEven(c, p);
    HalfEvenNear(c, p);
    Associate(u, p, m);
    Stretch(u * p, c, p, m);
    Stretch(c, u * p, p, m);
    if c * m % (p * m) == 0 {
      var k := c * m / (p * m);
      assert c * m == k * (p * m);
      Associate(k, p, m);
      Cancel(c, k * p, m);
      HalfEvenExact(k, p);
    }
  }

  lemma {:induction false} Distribute(a: nat, b: nat, m: nat)
    ensures (a + b) * m == a * m + b * m
  {
  }

  /** The value is a whole number of the field's units. */
  predicate Whole(v: Num, decimals: int) {
    v.exp + decimals >= 0 || v.coeff % Pow10(-(v.exp + decimals)) == 0
  }

  /** The stored integer is the value itself exactly for whole, short values. */
  lemma {:induction false} StoredExactIff(v: Num, decimals: int)
    ensures
      var e := v.exp + decimals;
      (if e >= 0 then Unscaled(v, decimals) == v.coeff * Pow10(e)
       else Unscaled(v, decimals) * Pow10(-e) == v.coeff)
      <==> Short(v.coeff) && Whole(v, decimals)
  {
    hide Pow10, PRECISION, DigitCount, Fix, Short, HalfEven, Unscaled;
    var e := v.exp + decimals;
    if Short(v.coeff) {
      StoredNear(v, decimals);
    }
    if e >= 0 {
      StoredUpward(v, decimals);
    } else if Unscaled(v, decimals) * Pow10(-e) == v.coeff {
      Multiple(Unscaled(v, decimals), Pow10(-e));
      UnscaledShort(v, decimals);
      ShortTimes(Unscaled(v, decimals), -e);
    }
  }

  lemma {:induction false} StoredUpward(v: Num, decimals: int)
    requires v.exp + decimals >= 0
    ensures Unscaled(v, decimals) == v.coeff * Pow10(v.exp + decimals) ==> Short(v.coeff)
  {
    hide Pow10, PRECISION, DigitCount, Fix, Short;
    var e := v.exp + decimals;
    var w := Scaleb(v, decimals);
    FixBound(v.(exp := e));
    PowSum(w.exp - e, e);
    Associate(w.coeff, Pow10(w.exp - e), Pow10(e));
    Cancel(w.coeff * Pow10(w.exp - e), v.coeff, Pow10(e));
  }

  /** Encoding and decoding return the same value exactly when it is a whole number of units with at
      most 28 significant digits. */
  lemma {:induction false} RoundTripIff(v: Num, width: nat, decimals: int)
    requires Encode(v, width, decimals).Ok?
    ensures
      var r := Decode(Encode(v, width, decimals).value, width, decimals);
      r.Ok? && (SameValue(r.value, v) <==> Short(v.coeff) && Whole(v, decimals))
  {
    hide Pow10, Unscaled, Short, Encode, Decode, Whole;
    DecodeEncoded(v, width, decimals);
    var r := Decode(Encode(v, width, decimals).value, width, decimals).value;
    var d := -decimals;
    var low := Lower(r.exp, v.exp);
    var m := Lower(d, v.exp);
    InScaled(r, low, m);
    InScaled(v, low, m);
    Cancel(In(r, low), In(v, low), Pow10(low - m));
    InScaled(r, d, m);
    StoredExactIff(v, decimals);
    InSelf(v);
    PowNothing(Unscaled(v, decimals));
  }

  /** A value that does not come back: 29 significant digits in a field of 31. */
  lemma {:induction false} LongValueRounded()
    ensures
      var v := Num(false, 10000000000000000000000000001, 0);
      && Encode(v, 16, 0).Ok?
      && Decode(Encode(v, 16, 0).value, 16, 0).Ok?
      && SameValue(Decode(Encode(v, 16, 0).value, 16, 0).value, Num(false, 10000000000000000000000000000, 0))
      && !SameValue(Decode(Encode(v, 16, 0).value, 16, 0).value, v)
  {
    hide *;
    var v := Num(false, 10000000000000000000000000001, 0);
    RoundedDigits(v.coeff);
    EncodedField(v, 16, 0);
    DecodeEncoded(v, 16, 0);
    RoundTripIff(v, 16, 0);
    SameInUnits(Decode(Encode(v, 16, 0).value, 16, 0).value, 10000000000000000000000000000);
  }

  lemma {:induction false} SameInUnits(r: Num, c: nat)
    requires !r.negative && r.exp >= 0 && In(r, 0) == c
    ensures SameValue(r, Num(false, c, 0))
  {
    InSelf(Num(false, c, 0));
    hide Pow10;
  }

  lemma {:induction false} RoundedDigits(c: nat)
    requires c == 10000000000000000000000000001
    ensures Unscaled(Num(false, c, 0), 0) == 10000000000000000000000000000 < Pow10(2 * 16 - 1) && !Short(c)
  {
    LargePowers();
    hide Pow10;
    CountAtMost(c, 28);
    CountAtMost(c, 29);
    hide DigitCount;
    assert Fix(Num(false, c, 0)) == Num(false, 1000000000000000000000000000, 1);
  }

  lemma {:induction false} LargePowers()
    ensures Pow10(1) == 10 && Pow10(27) == 1000000000000000000000000000
    ensures Pow10(28) == 10000000000000000000000000000 && Pow10(29) == 100000000000000000000000000000
    ensures Pow10(31) == 10000000000000000000000000000000
  {
    assert Pow10(9) == 1000000000;
    PowSum(9, 9);
    PowSum(9, 18);
  }

  lemma {:induction false} PowNothing(n: nat)
    ensures n * Pow10(0) == n
  {
  }

  lemma {:induction false} InSelf(v: Num)
    ensures In(v, v.exp) == v.coeff
  {
    PowNothing(v.coeff);
  }

  /** Decoding a field and encoding the value restores the bytes exactly when the sign nibble was
      one of the two the encoder writes and the digits were short. */
  lemma {:induction false} EncodeDecoded(raw: seq<byte>, decimals: int)
    requires Decode(raw, |raw|, decimals).Ok?
    ensures
      var v := Decode(raw, |raw|, decimals).value;
      var ns := Nibbles(raw);
      var sign, digits := ns[2 * |raw| - 1], ns[..2 * |raw| - 1];
      Encode(v, |raw|, decimals) == Ok(raw) <==> (sign == MINUS || sign == PLUS) && Short(FromDigits(digits))
  {
    hide Pow10, DigitCount, Fix, Short, Nibbles, FromNibbles, FromDigits, ToDigits, AllDigits, AllNibbles, Unscaled;
    var width := |raw|;
    assert raw[..width] == raw;
    var v := Decode(raw, width, decimals).value;
    var ns := Nibbles(raw);
    var sign, digits := ns[2 * width - 1], ns[..2 * width - 1];
    var n := FromDigits(digits);
    DecodedUnscaled(Num(sign == MINUS, n, -decimals), decimals);
    DigitsForth(digits);
    EncodedField(v, width, decimals);
    NibblesForth(raw);
    assert ns == digits + [sign];
    if Encode(v, width, decimals) == Ok(raw) {
      assert FromDigits(Nibbles(raw)[..2 * width - 1]) == Unscaled(v, decimals);
    }
  }

  /** What a decoded number is stored as: its digits, unless decoding rounded them. */
  lemma {:induction false} DecodedUnscaled(x: Num, decimals: int)
    requires x.exp == -decimals
    ensures Unscaled(Fix(x), decimals) == x.coeff <==> Short(x.coeff)
    ensures Fix(x).negative == x.negative
  {
    hide Pow10, DigitCount, Short, Fix, PRECISION;
    var v := Fix(x);
    FixBound(x);
    Precise();
    CountAtMost(v.coeff, PRECISION);
    FixNothing(v.(exp := v.exp + decimals));
  }

  // ---- the two functions as written ----

  method EncodeBcd(v: Num, width: int, decimals: int) returns (r: Result<seq<byte>>)
    ensures r == Encode(v, width, decimals)
  {
    hide DigitCount, Unscaled, ToDigits, Pow10, SignNibble;
    if width <= 0 {
      return Err("BCD field width must be positive");
    }
    var digitCount := 2 * width - 1;
    var unscaled := Unscaled(v, decimals);
    if DigitCount(unscaled) > digitCount {
      return Err("BCD value needs more digits");
    }
    CountAtMost(unscaled, digitCount);
    WrittenNibbles(v, width, decimals);
    var nibbles := ToDigits(unscaled, digitCount) + [SignNibble(v.negative)];
    var out := new byte[width];
    for i := 0 to width
      invariant out[..i] == FromNibbles(nibbles)[..i]
    {
      FromNibblesAt(nibbles, i);
      out[i] := 16 * nibbles[2 * i] + nibbles[2 * i + 1];
    }
    assert nibbles == Written(v, width, decimals);
    assert out[..] == out[..width] == FromNibbles(nibbles)[..width] == FromNibbles(nibbles);
    return Ok(out[..]);
  }

  lemma {:induction false} FromNibblesAt(ns: seq<nat>, i: nat)
    requires AllNibbles(ns) && |ns| % 2 == 0 && 2 * i + 1 < |ns|
    ensures FromNibbles(ns)[i] == 16 * ns[2 * i] + ns[2 * i + 1]
  {
    if i > 0 {
      FromNibblesAt(ns[2..], i - 1);
    }
  }

  method SplitNibbles(span: seq<byte>) returns (nibbles: seq<nat>)
    ensures nibbles == Nibbles(span)
  {
    hide Nibbles;
    nibbles := [];
    assert span[0..] == span && [] + Nibbles(span) == Nibbles(span);
    for i := 0 to |span|
      invariant nibbles + Nibbles(span[i..]) == Nibbles(span)
    {
      NibblesStep(nibbles, span, i);
      nibbles := nibbles + [span[i] as nat / 16, span[i] as nat % 16];
    }
    NibblesEnd(nibbles, span);
  }

  method DecodeBcd(raw: seq<byte>, width: int, decimals: int) returns (r: Result<Num>)
    ensures r == Decode(raw, width, decimals)
  {
    hide Scaleb, FromDigits, Nibbles;
    if width <= 0 {
      return Err("BCD field width must be positive");
    }
    if |raw| < width {
      return Err("BCD field truncated");
    }
    var nibbles := SplitNibbles(raw[..width]);
    var sign := nibbles[2 * width - 1];
    nibbles := nibbles[..2 * width - 1];
    if !IsSign(sign) {
      return Err("invalid BCD sign nibble");
    }
    for i := 0 to |nibbles|
      invariant forall j :: 0 <= j < i ==> nibbles[j] <= 9
    {
      if nibbles[i] > 9 {
        return Err("invalid BCD digit nibble");
      }
    }
    return Ok(Scaleb(Num(sign == MINUS, FromDigits(nibbles), 0), -decimals));
  }

  lemma {:induction false} NibblesStep(before: seq<nat>, span: seq<byte>, i: nat)
    requires i < |span|
    ensures before + Nibbles(span[i..]) ==
            before + [span[i] as nat / 16, span[i] as nat % 16] + Nibbles(span[i + 1..])
  {
    assert span[i..][1..] == span[i + 1..];
  }

  lemma {:induction false} NibblesEnd(before: seq<nat>, span: seq<byte>)
    ensures before + Nibbles(span[|span|..]) == before
  {
  }
}
