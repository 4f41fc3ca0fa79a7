/** The scalar field types of the codec (codec.py): character fields of a fixed width, integers,
    packed decimals, DECFLOAT and raw bytes.  Text is UTF-16 code units outside the surrogates. */
module Leaves {
  import opened Bits
  import opened Words
  import Bcd
  import Decfloat

  const BLANK: nat := 0x20
  const NOUGHT: nat := 0x30

  datatype Scalar = CHAR | NUM | DATE | TIME | BYTE | INT(width: nat) | INT1 | BCD(decimals: int) | DECF(width: nat)

  datatype Leaf =
    | Text(units: seq<nat>)
    | Raw(bytes: seq<byte>)
    | Whole(value: int)
    | Decimal(num: Bcd.Num)
    | Float(dec: Decfloat.Dec)

  // ---- text ----

  predicate IsUnit(u: nat) {
    u < 0xD800 || 0xE000 <= u < 0x10000
  }

  predicate IsText(t: seq<nat>) {
    forall i :: 0 <= i < |t| ==> IsUnit(t[i])
  }

  /** Padded to the width and cut to it; "0" pads on the left, anything else on the right. */
  function Fitted(t: seq<nat>, width: nat, pad: nat): (r: seq<nat>)
    ensures |r| == width
  {
    if |t| >= width then t[..width]
    else if pad == NOUGHT then Repeat(width - |t|, pad) + t
    else t + Repeat(width - |t|, pad)
  }

  /** UTF-16, little-endian. */
  function Utf16(t: seq<nat>): (b: seq<byte>)
    requires IsText(t)
    ensures |b| == 2 * |t|
  {
    if t == [] then [] else [t[0] % 256, t[0] / 256] + Utf16(t[1..])
  }

  function FromUtf16(b: seq<byte>): (t: seq<nat>)
    requires |b| % 2 == 0
    ensures |t| == |b| / 2
  {
    if b == [] then [] else [b[0] as nat + 256 * b[1] as nat] + FromUtf16(b[2..])
  }

  lemma {:induction false} Utf16Back(t: seq<nat>)
    requires IsText(t)
    ensures FromUtf16(Utf16(t)) == t
  {
    if t != [] {
      Utf16Back(t[1..]);
      assert Utf16(t)[2..] == Utf16(t[1..]);
      assert t == [t[0]] + t[1..];
    }
  }

  /** rstrip(" "). */
  function Rstrip(t: seq<nat>): seq<nat> {
    if t != [] && t[|t| - 1] == BLANK then Rstrip(t[..|t| - 1]) else t
  }

  /** A date or a time of nothing but zeros and blanks is no date at all. */
  function InitialOr(t: seq<nat>): seq<nat> {
    if forall i :: 0 <= i < |t| ==> t[i] == BLANK || t[i] == NOUGHT then [] else t
  }

  function EncodeText(t: seq<nat>, length: nat, pad: nat): Result<seq<byte>>
    requires pad == BLANK || pad == NOUGHT
  {
    if !IsText(t) then Err("surrogates")
    else if length / 2 == 0 then Ok(Utf16(t))
    else
      FittedIsText(t, length / 2, pad);
      Ok(Utf16(Fitted(t, length / 2, pad)))
  }

  lemma {:induction false} FittedIsText(t: seq<nat>, width: nat, pad: nat)
    requires IsText(t) && width > 0 && (pad == BLANK || pad == NOUGHT)
    ensures IsText(Fitted(t, width, pad))
  {
  }

  function DecodeText(b: seq<byte>): Result<seq<nat>> {
    if |b| % 2 != 0 then Err("truncated data")
    else if IsText(FromUtf16(b)) then Ok(FromUtf16(b))
    else Err("surrogates")
  }

  // ---- integers ----

  /** Two's complement, little-endian. */
  function EncodeInt(v: int, w: nat): Result<seq<byte>> {
    if -(Pow256(w) as int) <= 2 * v < Pow256(w) then
      Ok(LittleEndianBytes(if v < 0 then v + Pow256(w) else v, w))
    else Err("integer out of range")
  }

  function DecodeInt(b: seq<byte>, w: nat): Result<int> {
    if |b| < w then Err("truncated integer")
    else
      var n := LittleEndian(b[..w]);
      Ok(if 2 * n < Pow256(w) then n else n - Pow256(w))
  }

  lemma {:induction false} IntBack(v: int, w: nat)
    requires EncodeInt(v, w).Ok?
    ensures |EncodeInt(v, w).value| == w && DecodeInt(EncodeInt(v, w).value, w) == Ok(v)
  {
    var b := EncodeInt(v, w).value;
    LittleEndianRoundTrip(if v < 0 then v + Pow256(w) else v, w);
    assert b[..w] == b;
  }

  // ---- a scalar of any type ----

  function Mapped<T, U>(r: Result<T>, f: T -> U): Result<U> {
    match r
    case Ok(x) => Ok(f(x))
    case Err(e) => Err(e)
  }

  function EncodeLeaf(k: Scalar, v: Leaf, length: nat): Result<seq<byte>> {
    match k
    case CHAR => if v.Text? then EncodeText(v.units, length, BLANK) else Err("TypeError")
    case NUM => if v.Text? then EncodeText(v.units, length, NOUGHT) else Err("TypeError")
    case DATE => if v.Text? then EncodeText(v.units, length, BLANK) else Err("TypeError")
    case TIME => if v.Text? then EncodeText(v.units, length, BLANK) else Err("TypeError")
    case BYTE => if v.Raw? then Ok(v.bytes) else Err("TypeError")
    case INT(w) => if v.Whole? then EncodeInt(v.value, w) else Err("TypeError")
    case INT1 => if v.Whole? && 0 <= v.value <= 0xFF then Ok([v.value]) else Err("INT1 out of range")
    case BCD(decimals) => if v.Decimal? then Bcd.Encode(v.num, length, decimals) else Err("TypeError")
    case DECF(w) => if v.Float? && Decfloat.Proper(v.dec) then Decfloat.Encode(v.dec, w) else Err("TypeError")
  }

  function DecodeLeaf(k: Scalar, b: seq<byte>, length: nat): Result<Leaf> {
    match k
    case CHAR => Mapped(DecodeText(b), t => Text(Rstrip(t)))
    case NUM => Mapped(DecodeText(b), t => Text(t))
    case DATE => Mapped(DecodeText(b), t => Text(InitialOr(t)))
    case TIME => Mapped(DecodeText(b), t => Text(InitialOr(t)))
    case BYTE => Ok(Raw(b))
    case INT(w) => Mapped(DecodeInt(b, w), i => Whole(i))
    case INT1 => if b == [] then Err("IndexError") else Ok(Whole(b[0] as int))
    case BCD(decimals) => Mapped(Bcd.Decode(b, length, decimals), n => Decimal(n))
    case DECF(_) => Mapped(Decfloat.Decode(b), d => Float(d))
  }

  /** What a field left unset starts from. */
  function Initial(k: Scalar): Leaf {
    match k
    case BYTE => Raw([])
    case INT(_) => Whole(0)
    case INT1 => Whole(0)
    case BCD(_) => Decimal(Bcd.Num(false, 0, 0))
    case _ => Text([])
  }

  /** A field of this type can have this declared length. */
  predicate LengthFits(k: Scalar, length: nat) {
    match k
    case BYTE => true
    case INT(w) => length == w
    case INT1 => length == 1
    case BCD(_) => length > 0
    case DECF(w) => length == w && (w == 8 || w == 16)
    case _ => length > 0 && length % 2 == 0
  }

  /** The value is of the field's type and in its range. */
  predicate LeafTakes(k: Scalar, v: Leaf, length: nat) {
    match k
    case BYTE => v.Raw?
    case INT(w) => v.Whole? && -(Pow256(w) as int) <= 2 * v.value < Pow256(w)
    case INT1 => v.Whole? && 0 <= v.value <= 0xFF
    case BCD(decimals) => v.Decimal? && length > 0 && Bcd.Unscaled(v.num, decimals) < Bcd.Pow10(2 * length - 1)
    case DECF(w) => v.Float? && Decfloat.Proper(v.dec) && Decfloat.InRange(v.dec, w)
    case _ => v.Text? && IsText(v.units)
  }

  lemma {:induction false} LeafTakesIff(k: Scalar, v: Leaf, length: nat)
    requires LengthFits(k, length)
    ensures EncodeLeaf(k, v, length).Ok? <==> LeafTakes(k, v, length)
  {
    hide Bcd.Encode, Bcd.Unscaled, Bcd.Pow10, Decfloat.Encode, Decfloat.Proper, Decfloat.InRange, IsText, Pow256;
    match k
    case BCD(decimals) =>
      if v.Decimal? {
        Bcd.EncodedField(v.num, length, decimals);
      }
    case DECF(w) =>
      if v.Float? && Decfloat.Proper(v.dec) {
        Decfloat.EncodesIff(v.dec, w);
      }
    case _ =>
  }

  /** Every type takes its own initial value but DECFLOAT, whose initial value is text. */
  lemma {:induction false} InitialTaken(k: Scalar, length: nat)
    requires LengthFits(k, length)
    ensures LeafTakes(k, Initial(k), length) <==> !k.DECF?
  {
    hide Bcd.Unscaled, Bcd.Pow10, Decfloat.Proper, Decfloat.InRange;
    match k
    case BCD(decimals) => Bcd.UnscaledZero(decimals);
    case _ =>
  }

  function NoBytes(n: nat): (b: seq<byte>)
    ensures |b| == n
  {
    seq(n, i => 0 as byte)
  }

  /** The form a value has after a trip: padded or cut, blanks trimmed, a packed decimal as stored. */
  function NormalLeaf(k: Scalar, v: Leaf, length: nat): Leaf
    requires EncodeLeaf(k, v, length).Ok?
    requires k.BYTE? ==> |v.bytes| <= length
  {
    match k
    case CHAR => Text(Rstrip(Fitted(v.units, length / 2, BLANK)))
    case NUM => Text(Fitted(v.units, length / 2, NOUGHT))
    case DATE => Text(InitialOr(Fitted(v.units, length / 2, BLANK)))
    case TIME => Text(InitialOr(Fitted(v.units, length / 2, BLANK)))
    case BYTE => Raw(v.bytes + NoBytes(length - |v.bytes|))
    case INT(_) => v
    case INT1 => v
    case BCD(decimals) =>
      Decimal(Bcd.Scaleb(Bcd.Num(v.num.negative, Bcd.Unscaled(v.num, decimals), 0), -decimals))
    case DECF(_) => Float(Decfloat.Quiet(v.dec))
  }

  lemma {:induction false} TextBack(t: seq<nat>, length: nat, pad: nat)
    requires pad == BLANK || pad == NOUGHT
    requires length > 0 && length % 2 == 0 && EncodeText(t, length, pad).Ok?
    ensures
      var b := EncodeText(t, length, pad).value;
      |b| == length && DecodeText(b) == Ok(Fitted(t, length / 2, pad))
  {
    hide Utf16, FromUtf16, Fitted, IsText, IsUnit;
    FittedIsText(t, length / 2, pad);
    Utf16Back(Fitted(t, length / 2, pad));
  }

  lemma {:induction false} BcdBack(v: Bcd.Num, width: nat, decimals: int)
    requires Bcd.Encode(v, width, decimals).Ok? && width > 0
    ensures
      var raw := Bcd.Encode(v, width, decimals).value;
      && |raw| == width
      && Bcd.Decode(raw, width, decimals) ==
         Ok(Bcd.Scaleb(Bcd.Num(v.negative, Bcd.Unscaled(v, decimals), 0), -decimals))
  {
    hide Bcd.Unscaled, Bcd.Scaleb, Bcd.Nibbles, Bcd.FromDigits, Bcd.AllDigits, Bcd.Encode, Bcd.Pow10;
    Bcd.EncodedField(v, width, decimals);
    var raw := Bcd.Encode(v, width, decimals).value;
    assert raw[..width] == raw;
  }

  /** A scalar encodes to its declared length, a byte string to at most that, and decodes, zero fill
      included, to its normal form. */
  lemma {:induction false} LeafBack(k: Scalar, v: Leaf, length: nat)
    requires EncodeLeaf(k, v, length).Ok? && LengthFits(k, length)
    requires k.BYTE? ==> |v.bytes| <= length
    ensures
      var b := EncodeLeaf(k, v, length).value;
      && |b| <= length && (!k.BYTE? ==> |b| == length)
      && DecodeLeaf(k, b + NoBytes(length - |b|), length) == Ok(NormalLeaf(k, v, length))
  {
    hide Bcd.Encode, Bcd.Decode, Bcd.Scaleb, Bcd.Unscaled, Decfloat.Encode, Decfloat.Decode, Decfloat.Proper,
         EncodeText, DecodeText, EncodeInt, DecodeInt, Fitted, Rstrip, InitialOr;
    var b := EncodeLeaf(k, v, length).value;
    match k {
      case CHAR => TextBack(v.units, length, BLANK);
      case NUM => TextBack(v.units, length, NOUGHT);
      case DATE => TextBack(v.units, length, BLANK);
      case TIME => TextBack(v.units, length, BLANK);
      case BYTE =>
      case INT(w) => IntBack(v.value, w);
      case INT1 =>
      case BCD(decimals) => BcdBack(v.num, length, decimals);
      case DECF(w) => Decfloat.DecodeEncoded(v.dec, w);
    }
    assert |b| == length ==> b + NoBytes(length - |b|) == b;
  }
}
