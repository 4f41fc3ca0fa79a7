/** Structures and tables (codec.py): values laid out at descriptor offsets, nested to any depth. */
module Layouts {
  import opened Bits
  import opened Leaves
  import Bcd

  datatype Val = Scalar(leaf: Leaf) | Record(fields: map<string, Val>)

  /** A nested structure may lack its layout, when the metadata lookup failed. */
  datatype Kind = Simple(scalar: Leaves.Scalar) | Struct(layout: Option<Layout>)

  datatype Field = Field(name: string, kind: Kind, offset: nat, length: nat)

  datatype Layout = Layout(fields: seq<Field>, size: nat)

  type Values = map<string, Val>

  // ---- encoding ----

  /** Zero fill up to `n` bytes. */
  function Grown(buf: seq<byte>, n: nat): seq<byte> {
    if n > |buf| then buf + NoBytes(n - |buf|) else buf
  }

  /** buf[offset:offset+len(raw)] = raw, the buffer growing when it is too short. */
  function Place(buf: seq<byte>, offset: nat, raw: seq<byte>): seq<byte> {
    var b := Grown(buf, offset + |raw|);
    b[..offset] + raw + b[offset + |raw|..]
  }

  /** The value to encode for a field, none when there is nothing to lay out. */
  function Supplied(f: Field, values: Values): Option<Val> {
    if f.name in values then Some(values[f.name])
    else
      match f.kind
      case Simple(k) => Some(Scalar(Initial(k)))
      case Struct(None) => None
      case Struct(Some(_)) => Some(Record(map[]))
  }

  function EncodeField(f: Field, v: Val): Result<seq<byte>>
    decreases f, 0
  {
    match f.kind
    case Simple(k) => if v.Scalar? then EncodeLeaf(k, v.leaf, f.length) else Err("TypeError")
    case Struct(None) => Err("IncompleteDescriptorError")
    case Struct(Some(l)) => if v.Record? then EncodeStructure(v.fields, l) else Err("TypeError")
  }

  /** The buffer after the first n fields. */
  function Filled(values: Values, l: Layout, n: nat): Result<seq<byte>>
    requires n <= |l.fields|
    decreases l, n
  {
    if n == 0 then Ok(NoBytes(l.size))
    else
      match Filled(values, l, n - 1)
      case Err(e) => Err(e)
      case Ok(buf) =>
        var f := l.fields[n - 1];
        match Supplied(f, values)
        case None => Ok(buf)
        case Some(v) =>
          match EncodeField(f, v)
          case Err(e) => Err(e)
          case Ok(raw) => Ok(Place(buf, f.offset, raw))
  }

  function EncodeStructure(values: Values, l: Layout): Result<seq<byte>>
    decreases l, |l.fields| + 1
  {
    Filled(values, l, |l.fields|)
  }

  // ---- decoding ----

  function DecodeField(f: Field, span: seq<byte>): Result<Val>
    decreases f, 0
  {
    match f.kind
    case Simple(k) => Mapped(DecodeLeaf(k, span, f.length), v => Scalar(v))
    case Struct(None) => Err("IncompleteDescriptorError")
    case Struct(Some(l)) => Mapped(DecodeStructure(span, l), v => Record(v))
  }

  function DecodedUpTo(data: seq<byte>, l: Layout, n: nat): Result<Values>
    requires n <= |l.fields|
    decreases l, n
  {
    if n == 0 then Ok(map[])
    else
      match DecodedUpTo(data, l, n - 1)
      case Err(e) => Err(e)
      case Ok(values) =>
        var f := l.fields[n - 1];
        if f.offset + f.length > |data| then Err("STRUCTURE field span exceeds buffer length")
        else
          match DecodeField(f, data[f.offset..f.offset + f.length])
          case Err(e) => Err(e)
          case Ok(v) => Ok(values[f.name := v])
  }

  function DecodeStructure(data: seq<byte>, l: Layout): Result<Values>
    decreases l, |l.fields| + 1
  {
    DecodedUpTo(data, l, |l.fields|)
  }

  // ---- sound descriptors and their normal form ----

  predicate InSpan(f: Field, i: int) {
    f.offset <= i < f.offset + f.length
  }

  predicate Apart(f: Field, g: Field) {
    f.name != g.name && (f.offset + f.length <= g.offset || g.offset + g.length <= f.offset)
  }

  predicate SoundField(f: Field, size: nat)
    decreases f, 0
  {
    f.offset + f.length <= size &&
    match f.kind
    case Simple(k) => LengthFits(k, f.length)
    case Struct(None) => false
    case Struct(Some(l)) => l.size == f.length && Sound(l)
  }

  /** Spans in bounds and disjoint, names distinct, every field of the width its type needs. */
  predicate Sound(l: Layout)
    decreases l, 1
  {
    && (forall i :: 0 <= i < |l.fields| ==> SoundField(l.fields[i], l.size))
    && (forall i, j :: 0 <= i < j < |l.fields| ==> Apart(l.fields[i], l.fields[j]))
  }

  /** A byte string is no longer than its field. */
  predicate FieldFits(f: Field, v: Val)
    decreases f, 0
  {
    match f.kind
    case Simple(k) => k.BYTE? && v.Scalar? && v.leaf.Raw? ==> |v.leaf.bytes| <= f.length
    case Struct(None) => true
    case Struct(Some(l)) => v.Record? ==> Fits(v.fields, l)
  }

  predicate Fits(values: Values, l: Layout)
    decreases l, 1
  {
    forall i :: 0 <= i < |l.fields| ==>
      Supplied(l.fields[i], values).Some? ==> FieldFits(l.fields[i], Supplied(l.fields[i], values).value)
  }

  function NormalField(f: Field, v: Val): Val
    requires EncodeField(f, v).Ok? && FieldFits(f, v)
    decreases f, 0
  {
    match f.kind
    case Simple(k) => Scalar(NormalLeaf(k, v.leaf, f.length))
    case Struct(Some(l)) =>
      assert EncodeField(f, v) == EncodeStructure(v.fields, l);
      Record(Normal(v.fields, l, |l.fields|))
  }

  lemma {:induction false} FilledBefore(values: Values, l: Layout, n: nat)
    requires 0 < n <= |l.fields| && Filled(values, l, n).Ok?
    ensures Filled(values, l, n - 1).Ok?
    ensures Supplied(l.fields[n - 1], values).Some? ==>
              EncodeField(l.fields[n - 1], Supplied(l.fields[n - 1], values).value).Ok?
  {
  }

  /** What the first n fields come back as: the supplied values, or initial ones, in normal form. */
  function Normal(values: Values, l: Layout, n: nat): Values
    requires n <= |l.fields| && Filled(values, l, n).Ok? && Fits(values, l)
    decreases l, n
  {
    if n == 0 then map[]
    else
      FilledBefore(values, l, n);
      var f := l.fields[n - 1];
      var before := Normal(values, l, n - 1);
      match Supplied(f, values)
      case None => before
      case Some(v) => before[f.name := NormalField(f, v)]
  }

  // ---- placing ----

  lemma {:induction false} Placed(buf: seq<byte>, offset: nat, raw: seq<byte>)
    requires offset + |raw| <= |buf|
    ensures
      var p := Place(buf, offset, raw);
      && |p| == |buf| && p[offset..offset + |raw|] == raw
      && (forall i :: 0 <= i < |p| && !(offset <= i < offset + |raw|) ==> p[i] == buf[i])
  {
  }

  /** Bytes outside the written range keep what they held. */
  lemma {:induction false} Untouched(buf: seq<byte>, offset: nat, raw: seq<byte>, lo: nat, hi: nat)
    requires offset + |raw| <= |buf| && lo <= hi <= |buf|
    requires hi <= offset || offset + |raw| <= lo
    ensures |Place(buf, offset, raw)| == |buf| && Place(buf, offset, raw)[lo..hi] == buf[lo..hi]
  {
    Placed(buf, offset, raw);
    hide Place;
  }

  /** What a field's span holds once it is written: its encoding and zero fill. */
  function Shown(raw: seq<byte>, length: nat): seq<byte>
    requires |raw| <= length
  {
    raw + NoBytes(length - |raw|)
  }

  /** Byte i belongs to none of the first n fields. */
  predicate Gap(l: Layout, n: nat, i: int)
    requires n <= |l.fields|
  {
    forall k :: 0 <= k < n ==> !InSpan(l.fields[k], i)
  }

  /** Field k shows its own encoding in the buffer. */
  predicate ShownAt(values: Values, l: Layout, k: nat, buf: seq<byte>)
    requires k < |l.fields|
  {
    var f := l.fields[k];
    && Supplied(f, values).Some?
    && f.offset + f.length <= |buf|
    && var raw := EncodeField(f, Supplied(f, values).value);
    && raw.Ok? && |raw.value| <= f.length
    && buf[f.offset..f.offset + f.length] == Shown(raw.value, f.length)
  }

  /** Right size, every field so far in its place, zeros everywhere else. */
  ghost predicate Laid(values: Values, l: Layout, n: nat, buf: seq<byte>)
    requires n <= |l.fields|
  {
    && |buf| == l.size
    && (forall k :: 0 <= k < n ==> ShownAt(values, l, k, buf))
    && (forall i :: 0 <= i < l.size && Gap(l, n, i) ==> buf[i] == 0)
  }

  lemma {:induction false} FieldIsSound(l: Layout, k: nat)
    requires Sound(l) && k < |l.fields|
    ensures SoundField(l.fields[k], l.size)
  {
  }

  lemma {:induction false} FieldsApart(l: Layout, j: nat, k: nat)
    requires Sound(l) && j < k < |l.fields|
    ensures Apart(l.fields[j], l.fields[k])
  {
  }

  lemma {:induction false} FieldFitted(values: Values, l: Layout, k: nat)
    requires Fits(values, l) && k < |l.fields| && Supplied(l.fields[k], values).Some?
    ensures FieldFits(l.fields[k], Supplied(l.fields[k], values).value)
  {
  }

  lemma {:induction false} SoundSupplied(f: Field, size: nat, values: Values)
    requires SoundField(f, size)
    ensures Supplied(f, values).Some? && f.offset + f.length <= size
  {
  }

  lemma {:induction false} EmptyLaid(values: Values, l: Layout)
    ensures Laid(values, l, 0, NoBytes(l.size))
  {
  }

  /** The span written now held zeros, so it shows the encoding and zero fill. */
  lemma {:induction false} SpanShown(buf: seq<byte>, f: Field, raw: seq<byte>)
    requires f.offset + f.length <= |buf| && |raw| <= f.length
    requires forall i :: InSpan(f, i) ==> buf[i] == 0
    ensures Place(buf, f.offset, raw)[f.offset..f.offset + f.length] == Shown(raw, f.length)
  {
    Placed(buf, f.offset, raw);
    var p := Place(buf, f.offset, raw);
    hide Place;
    forall i | 0 <= i < f.length ensures p[f.offset..f.offset + f.length][i] == Shown(raw, f.length)[i] {
      if i < |raw| {
        assert p[f.offset..f.offset + |raw|][i] == raw[i];
      } else {
        assert InSpan(f, f.offset + i);
      }
    }
  }

  lemma {:induction false} StillShown(values: Values, l: Layout, k: nat, n: nat, buf: seq<byte>, raw: seq<byte>)
    requires k < n < |l.fields| && Apart(l.fields[k], l.fields[n]) && ShownAt(values, l, k, buf)
    requires l.fields[n].offset + |raw| <= |buf| && |raw| <= l.fields[n].length
    ensures ShownAt(values, l, k, Place(buf, l.fields[n].offset, raw))
  {
    hide EncodeField, Supplied, Place, Shown;
    var f := l.fields[k];
    Untouched(buf, l.fields[n].offset, raw, f.offset, f.offset + f.length);
  }

  lemma {:induction false} StillZero(l: Layout, n: nat, buf: seq<byte>, raw: seq<byte>, i: nat)
    requires n < |l.fields| && i < |buf| && Gap(l, n + 1, i)
    requires l.fields[n].offset + |raw| <= |buf| && |raw| <= l.fields[n].length
    requires Gap(l, n, i) ==> buf[i] == 0
    ensures |Place(buf, l.fields[n].offset, raw)| == |buf| && Place(buf, l.fields[n].offset, raw)[i] == 0
  {
    Placed(buf, l.fields[n].offset, raw);
    assert !InSpan(l.fields[n], i);
    assert Gap(l, n, i);
    hide Place;
  }

  lemma {:induction false} FreshSpan(l: Layout, n: nat, i: int)
    requires Sound(l) && n < |l.fields| && InSpan(l.fields[n], i)
    ensures Gap(l, n, i)
  {
    forall k | 0 <= k < n ensures !InSpan(l.fields[k], i) {
      FieldsApart(l, k, n);
    }
  }

  lemma {:induction false} LaidNext(values: Values, l: Layout, n: nat, buf: seq<byte>, raw: seq<byte>)
    requires Sound(l) && n < |l.fields| && Laid(values, l, n, buf)
    requires Supplied(l.fields[n], values).Some?
    requires EncodeField(l.fields[n], Supplied(l.fields[n], values).value) == Ok(raw)
    requires l.fields[n].offset + l.fields[n].length <= l.size && |raw| <= l.fields[n].length
    ensures Laid(values, l, n + 1, Place(buf, l.fields[n].offset, raw))
  {
    hide Sound, Gap, InSpan, Apart, Place, EncodeField, Supplied, Shown;
    var f := l.fields[n];
    var p := Place(buf, f.offset, raw);
    forall i | InSpan(f, i) ensures 0 <= i < l.size && buf[i] == 0 {
      FreshSpan(l, n, i);
      SpanRange(f, i);
    }
    Placed(buf, f.offset, raw);
    SpanShown(buf, f, raw);
    forall k | 0 <= k < n + 1 ensures ShownAt(values, l, k, p) {
      if k < n {
        FieldsApart(l, k, n);
        StillShown(values, l, k, n, buf, raw);
      }
    }
    forall i | 0 <= i < l.size && Gap(l, n + 1, i) ensures p[i] == 0 {
      StillZero(l, n, buf, raw, i);
    }
  }

  lemma {:induction false} SpanRange(f: Field, i: int)
    requires InSpan(f, i)
    ensures 0 <= f.offset <= i < f.offset + f.length
  {
  }

  /** What encoding leaves after n fields. */
  lemma {:induction false} FilledLaid(values: Values, l: Layout, n: nat)
    requires n <= |l.fields| && Sound(l) && Fits(values, l) && Filled(values, l, n).Ok?
    ensures Laid(values, l, n, Filled(values, l, n).value)
    decreases l, 2, n
  {
    hide Laid, Sound, Fits, FieldFits, SoundField, Supplied, EncodeField, Place;
    if n == 0 {
      EmptyLaid(values, l);
    } else {
      FilledLaid(values, l, n - 1);
      var f := l.fields[n - 1];
      FieldIsSound(l, n - 1);
      SoundSupplied(f, l.size, values);
      FieldFitted(values, l, n - 1);
      FieldBack(f, Supplied(f, values).value, l.size);
      LaidNext(values, l, n - 1, Filled(values, l, n - 1).value, EncodeField(f, Supplied(f, values).value).value);
    }
  }

  lemma {:induction false} RawBytes(k: Leaves.Scalar, v: Leaf, length: nat)
    requires EncodeLeaf(k, v, length).Ok?
    ensures k.BYTE? ==> v.Raw?
  {
  }

  /** A field's encoding fits its span and, zero fill included, decodes to the normal form. */
  lemma {:induction false} FieldBack(f: Field, v: Val, size: nat)
    requires SoundField(f, size) && EncodeField(f, v).Ok? && FieldFits(f, v)
    ensures
      var raw := EncodeField(f, v).value;
      |raw| <= f.length && DecodeField(f, Shown(raw, f.length)) == Ok(NormalField(f, v))
    decreases f, 0, 0
  {
    hide EncodeLeaf, DecodeLeaf, NormalLeaf, LengthFits, Sound, Fits, Filled, DecodedUpTo, Normal;
    var raw := EncodeField(f, v).value;
    match f.kind
    case Simple(k) =>
      RawBytes(k, v.leaf, f.length);
      LeafBack(k, v.leaf, f.length);
    case Struct(Some(l)) =>
      StructureBack(v.fields, l);
      assert Shown(raw, f.length) == raw;
  }

  /** Reading field after field from any data that starts with the encoded structure. */
  lemma {:induction false} ReadBack(values: Values, l: Layout, data: seq<byte>, n: nat)
    requires n <= |l.fields| && Sound(l) && Fits(values, l) && Filled(values, l, n).Ok?
    requires |data| >= l.size && Laid(values, l, |l.fields|, data[..l.size])
    ensures DecodedUpTo(data, l, n) == Ok(Normal(values, l, n))
    decreases l, 2, n
  {
    hide *;
    if n == 0 {
      ReadNothing(values, l, data);
    } else {
      FilledBefore(values, l, n);
      ReadBack(values, l, data, n - 1);
      var f := l.fields[n - 1];
      FieldIsSound(l, n - 1);
      SoundSupplied(f, l.size, values);
      FieldFitted(values, l, n - 1);
      FieldBack(f, Supplied(f, values).value, l.size);
      ShownIn(values, l, n - 1, data);
      var v := Supplied(f, values).value;
      DecodedStep(data, l, n, f, Normal(values, l, n - 1), NormalField(f, v));
      NormalStep(values, l, n);
    }
  }

  lemma {:induction false} ReadNothing(values: Values, l: Layout, data: seq<byte>)
    requires Filled(values, l, 0).Ok? && Fits(values, l)
    ensures DecodedUpTo(data, l, 0) == Ok(Normal(values, l, 0))
  {
  }

  lemma {:induction false} ShownIn(values: Values, l: Layout, k: nat, data: seq<byte>)
    requires k < |l.fields| && |data| >= l.size && Laid(values, l, |l.fields|, data[..l.size])
    ensures
      var f := l.fields[k];
      && f.offset + f.length <= |data| && Supplied(f, values).Some?
      && var raw := EncodeField(f, Supplied(f, values).value);
      && raw.Ok? && |raw.value| <= f.length
      && data[f.offset..f.offset + f.length] == Shown(raw.value, f.length)
  {
    hide Supplied, EncodeField, Shown, Gap;
    var f := l.fields[k];
    assert ShownAt(values, l, k, data[..l.size]);
    assert data[..l.size][f.offset..f.offset + f.length] == data[f.offset..f.offset + f.length];
  }

  lemma {:induction false} DecodedStep(data: seq<byte>, l: Layout, n: nat, f: Field, soFar: Values, v: Val)
    requires 0 < n <= |l.fields| && f == l.fields[n - 1] && f.offset + f.length <= |data|
    requires DecodedUpTo(data, l, n - 1) == Ok(soFar)
    requires DecodeField(f, data[f.offset..f.offset + f.length]) == Ok(v)
    ensures DecodedUpTo(data, l, n) == Ok(soFar[f.name := v])
  {
    hide DecodeField;
  }

  lemma {:induction false} NormalStep(values: Values, l: Layout, n: nat)
    requires 0 < n <= |l.fields| && Fits(values, l) && Filled(values, l, n).Ok? && Filled(values, l, n - 1).Ok?
    requires
      var f := l.fields[n - 1];
      && Supplied(f, values).Some? && FieldFits(f, Supplied(f, values).value)
      && EncodeField(f, Supplied(f, values).value).Ok?
    ensures
      var f := l.fields[n - 1];
      Normal(values, l, n) == Normal(values, l, n - 1)[f.name := NormalField(f, Supplied(f, values).value)]
  {
    hide Fits, FieldFits, Supplied, EncodeField, NormalField;
  }

  /** The normal form field by field: every field of the layout, each with the normal form of what
      was supplied or of its type's initial value, and nothing else. */
  lemma {:induction false} NormalFields(values: Values, l: Layout, n: nat)
    requires Sound(l) && Fits(values, l) && n <= |l.fields| && Filled(values, l, n).Ok?
    ensures forall name <- Normal(values, l, n) :: exists k :: 0 <= k < n && l.fields[k].name == name
    ensures forall k :: 0 <= k < n ==> NormalAt(values, l, n, k)
    decreases n
  {
    hide Sound, Fits, Filled, FieldFits, Normal;
    if n == 0 {
      NoFields(values, l);
    } else {
      FilledBefore(values, l, n);
      NormalFields(values, l, n - 1);
      var f := l.fields[n - 1];
      FieldIsSound(l, n - 1);
      SoundSupplied(f, l.size, values);
      FieldFitted(values, l, n - 1);
      NormalStep(values, l, n);
      forall k | 0 <= k < n ensures NormalAt(values, l, n, k) {
        if k < n - 1 {
          FieldsApart(l, k, n - 1);
          assert NormalAt(values, l, n - 1, k);
        }
      }
      forall name <- Normal(values, l, n) ensures exists k :: 0 <= k < n && l.fields[k].name == name {
        assert l.fields[n - 1].name == f.name;
      }
    }
  }

  lemma {:induction false} NoFields(values: Values, l: Layout)
    requires Fits(values, l) && Filled(values, l, 0).Ok?
    ensures Normal(values, l, 0) == map[]
  {
  }

  predicate NormalAt(values: Values, l: Layout, n: nat, k: nat)
    requires Fits(values, l) && k < n <= |l.fields| && Filled(values, l, n).Ok?
  {
    var f := l.fields[k];
    && Supplied(f, values).Some?
    && var v := Supplied(f, values).value;
    && EncodeField(f, v).Ok? && FieldFits(f, v)
    && f.name in Normal(values, l, n) && Normal(values, l, n)[f.name] == NormalField(f, v)
  }

  /** Encoding fills exactly the declared size, zeros in the gaps; decoding, whatever follows, gives
      the values back in normal form. */
  lemma {:induction false} StructureBack(values: Values, l: Layout)
    requires Sound(l) && Fits(values, l) && EncodeStructure(values, l).Ok?
    ensures
      var buf := EncodeStructure(values, l).value;
      && Laid(values, l, |l.fields|, buf)
      && DecodeStructure(buf, l) == Ok(Normal(values, l, |l.fields|))
    decreases l, 3, 0
  {
    hide Sound, Fits, Filled, DecodedUpTo, Normal, Laid;
    var buf := EncodeStructure(values, l).value;
    FilledLaid(values, l, |l.fields|);
    LaidSize(values, l, |l.fields|, buf);
    assert buf[..l.size] == buf;
    ReadBack(values, l, buf, |l.fields|);
  }

  lemma {:induction false} LaidSize(values: Values, l: Layout, n: nat, buf: seq<byte>)
    requires n <= |l.fields| && Laid(values, l, n, buf)
    ensures |buf| == l.size
  {
  }

  predicate Encodable(values: Values, f: Field) {
    Supplied(f, values).None? || EncodeField(f, Supplied(f, values).value).Ok?
  }

  lemma {:induction false} FilledOkNext(values: Values, l: Layout, n: nat)
    requires 0 < n <= |l.fields|
    ensures Filled(values, l, n).Ok? <==> Filled(values, l, n - 1).Ok? && Encodable(values, l.fields[n - 1])
  {
    hide EncodeField, Supplied, Place;
  }

  lemma {:induction false} FilledIff(values: Values, l: Layout, n: nat)
    requires n <= |l.fields|
    ensures Filled(values, l, n).Ok? <==> forall k :: 0 <= k < n ==> Encodable(values, l.fields[k])
    decreases n
  {
    hide Encodable, Filled;
    if n == 0 {
      FilledNone(values, l);
    } else {
      FilledIff(values, l, n - 1);
      FilledOkNext(values, l, n);
    }
  }

  /** A field that must not be left unset: a DECFLOAT, or a structure holding one at any depth. */
  predicate NeedsValue(f: Field)
    decreases f, 0
  {
    match f.kind
    case Simple(k) => k.DECF?
    case Struct(None) => false
    case Struct(Some(l)) => HoldsDecfloat(l)
  }

  predicate HoldsDecfloat(l: Layout)
    decreases l, 1
  {
    exists i :: 0 <= i < |l.fields| && NeedsValue(l.fields[i])
  }

  /** The value is of the field's type and in its range, down to the last nested field. */
  predicate FieldTakes(f: Field, v: Val)
    decreases f, 0
  {
    match f.kind
    case Simple(k) => v.Scalar? && LeafTakes(k, v.leaf, f.length)
    case Struct(None) => false
    case Struct(Some(l)) => v.Record? && Takes(v.fields, l)
  }

  predicate FieldServed(values: Values, f: Field)
    decreases f, 1
  {
    if f.name in values then FieldTakes(f, values[f.name]) else !NeedsValue(f)
  }

  /** Every value given is one its field takes, and no field left out needs one. */
  predicate Takes(values: Values, l: Layout)
    decreases l, 2
  {
    forall i :: 0 <= i < |l.fields| ==> FieldServed(values, l.fields[i])
  }

  lemma {:induction false} FieldTakesIff(f: Field, v: Val, size: nat)
    requires SoundField(f, size)
    ensures EncodeField(f, v).Ok? <==> FieldTakes(f, v)
    decreases f, 0
  {
    hide EncodeLeaf, LeafTakes, LengthFits, Takes, Sound, Filled;
    match f.kind
    case Simple(k) =>
      if v.Scalar? {
        LeafTakesIff(k, v.leaf, f.length);
      }
    case Struct(Some(l)) =>
      if v.Record? {
        EncodesIff(v.fields, l);
      }
  }

  /** Nothing supplied is nothing to refuse, except where a value is needed. */
  lemma {:induction false} TakesNothing(l: Layout)
    ensures Takes(map[], l) <==> !HoldsDecfloat(l)
  {
    hide NeedsValue, FieldTakes;
    forall i | 0 <= i < |l.fields| ensures FieldServed(map[], l.fields[i]) <==> !NeedsValue(l.fields[i]) {
    }
  }

  lemma {:induction false} FieldServedIff(values: Values, f: Field, size: nat)
    requires SoundField(f, size)
    ensures Encodable(values, f) <==> FieldServed(values, f)
    decreases f, 1
  {
    hide EncodeField, FieldTakes, Initial, LengthFits, Sound, HoldsDecfloat, Takes;
    SoundSupplied(f, size, values);
    FieldTakesIff(f, Supplied(f, values).value, size);
    if f.name !in values {
      UnsetTaken(f);
    }
  }

  lemma {:induction false} UnsetTaken(f: Field)
    requires Supplied(f, map[]).Some? && (f.kind.Simple? ==> LengthFits(f.kind.scalar, f.length))
    ensures FieldTakes(f, Supplied(f, map[]).value) <==> !NeedsValue(f)
  {
    hide LeafTakes, Initial, LengthFits, Takes, HoldsDecfloat;
    match f.kind
    case Simple(k) => InitialTaken(k, f.length);
    case Struct(Some(l)) => TakesNothing(l);
  }

  /** Which structures encode, to any depth: those whose values are of the types and in the ranges of
      their fields and that leave no DECFLOAT unset. */
  lemma {:induction false} EncodesIff(values: Values, l: Layout)
    requires Sound(l)
    ensures EncodeStructure(values, l).Ok? <==> Takes(values, l)
    decreases l, 2
  {
    hide Filled, Encodable, FieldServed, SoundField, Sound;
    FilledIff(values, l, |l.fields|);
    forall i | 0 <= i < |l.fields| ensures Encodable(values, l.fields[i]) <==> FieldServed(values, l.fields[i]) {
      FieldIsSound(l, i);
      FieldServedIff(values, l.fields[i], l.size);
    }
  }

  /** A structure left wholly unset encodes, from initial values alone, exactly when its layout holds
      no DECFLOAT at any depth. */
  lemma {:induction false} UnsetIff(l: Layout)
    requires Sound(l)
    ensures EncodeStructure(map[], l).Ok? <==> !HoldsDecfloat(l)
  {
    hide EncodeStructure, Takes, HoldsDecfloat, Sound;
    EncodesIff(map[], l);
    TakesNothing(l);
  }

  /** A DECFLOAT field left unset is refused: its initial value is text, which its encoder rejects. */
  lemma {:induction false} UnsetDecfloatRefused(values: Values, l: Layout, k: nat)
    requires k < |l.fields| && l.fields[k].name !in values
    requires l.fields[k].kind.Simple? && l.fields[k].kind.scalar.DECF?
    ensures EncodeStructure(values, l).Err?
  {
    assert !Encodable(values, l.fields[k]);
    hide Encodable, Filled;
    FilledIff(values, l, |l.fields|);
  }

  // ---- tables ----

  function EncodeTable(rows: seq<Values>, l: Layout): Result<seq<byte>> {
    if rows == [] then Ok([])
    else
      match EncodeTable(rows[..|rows| - 1], l)
      case Err(e) => Err(e)
      case Ok(out) =>
        match EncodeStructure(rows[|rows| - 1], l)
        case Err(e) => Err(e)
        case Ok(raw) => Ok(out + raw)
  }

  function Rows(data: seq<byte>, width: nat, l: Layout): Result<seq<Values>>
    requires width > 0
  {
    if |data| < width then Ok([])
    else
      match DecodeStructure(data[..width], l)
      case Err(e) => Err(e)
      case Ok(row) =>
        match Rows(data[width..], width, l)
        case Err(e) => Err(e)
        case Ok(rows) => Ok([row] + rows)
  }

  /** The row width comes from how many rows were announced; without a count, from the layout. */
  function DecodeTable(data: seq<byte>, layout: Option<Layout>, count: Option<int>): Result<seq<Values>> {
    match layout
    case None => Err("IncompleteDescriptorError")
    case Some(l) =>
      if count.None? || count.value <= 0 then
        if data == [] then Ok([])
        else if l.size == 0 then Err("TABLE row size must be positive")
        else Rows(data, l.size, l)
      else if |data| % count.value != 0 then Err("does not divide into the rows declared")
      else
        var width := |data| / count.value;
        if width < l.size then Err("row narrower than the layout")
        else if width == 0 then Err("TABLE row size must be positive")
        else Rows(data, width, l)
  }

  /** Every row encoded and followed by some padding. */
  function PaddedRows(rows: seq<Values>, pads: seq<seq<byte>>, l: Layout): seq<byte>
    requires |pads| == |rows|
    requires forall i :: 0 <= i < |rows| ==> EncodeStructure(rows[i], l).Ok?
  {
    if rows == [] then []
    else EncodeStructure(rows[0], l).value + pads[0] + PaddedRows(rows[1..], pads[1..], l)
  }

  predicate GoodRows(rows: seq<Values>, l: Layout) {
    forall i :: 0 <= i < |rows| ==> Fits(rows[i], l) && EncodeStructure(rows[i], l).Ok?
  }

  function NormalRows(rows: seq<Values>, l: Layout): seq<Values>
    requires GoodRows(rows, l)
  {
    if rows == [] then [] else [Normal(rows[0], l, |l.fields|)] + NormalRows(rows[1..], l)
  }

  /** One row, its padding and whatever follows. */
  lemma {:induction false} RowBack(row: Values, l: Layout, pad: seq<byte>)
    requires Sound(l) && Fits(row, l) && EncodeStructure(row, l).Ok?
    ensures
      var raw := EncodeStructure(row, l).value;
      |raw| == l.size && DecodeStructure(raw + pad, l) == Ok(Normal(row, l, |l.fields|))
  {
    hide Sound, Fits, Filled, DecodedUpTo, Normal, Laid;
    var raw := EncodeStructure(row, l).value;
    StructureBack(row, l);
    LaidSize(row, l, |l.fields|, raw);
    assert (raw + pad)[..l.size] == raw;
    ReadBack(row, l, raw + pad, |l.fields|);
  }

  lemma {:induction false} PaddedRowsBack(rows: seq<Values>, pads: seq<seq<byte>>, l: Layout, width: nat)
    requires Sound(l) && GoodRows(rows, l) && width > 0
    requires |pads| == |rows| && forall i :: 0 <= i < |pads| ==> |pads[i]| == width - l.size
    ensures |PaddedRows(rows, pads, l)| == |rows| * width
    ensures Rows(PaddedRows(rows, pads, l), width, l) == Ok(NormalRows(rows, l))
  {
    hide Sound, Fits, EncodeStructure, DecodeStructure, Normal;
    if rows != [] {
      PaddedRowsBack(rows[1..], pads[1..], l, width);
      RowBack(rows[0], l, pads[0]);
      var data := PaddedRows(rows, pads, l);
      var rest := PaddedRows(rows[1..], pads[1..], l);
      var first := EncodeStructure(rows[0], l).value + pads[0];
      assert data == first + rest;
      assert data[..width] == first && data[width..] == rest;
      assert |rows| * width == width + (|rows| - 1) * width;
    }
  }

  lemma {:induction false} Divided(n: nat, w: nat)
    requires n > 0
    ensures n * w % n == 0 && n * w / n == w
  {
    Bcd.Multiple(w, n);
    assert n * w == w * n;
  }

  /** The announced count makes the width right: whatever width the rows were padded to, and
      whatever the padding is, the same rows come back. */
  lemma {:induction false} WidthIndependent(rows: seq<Values>, pads: seq<seq<byte>>, l: Layout, width: nat)
    requires Sound(l) && GoodRows(rows, l) && rows != [] && width > 0
    requires |pads| == |rows| && forall i :: 0 <= i < |pads| ==> |pads[i]| == width - l.size
    ensures DecodeTable(PaddedRows(rows, pads, l), Some(l), Some(|rows|)) == Ok(NormalRows(rows, l))
  {
    hide Sound, GoodRows, PaddedRows, Rows, NormalRows;
    PaddedRowsBack(rows, pads, l, width);
    Divided(|rows|, width);
    assert |pads[0]| >= 0;
  }

  /** A table packed by the encoder is the case of no padding, count or no count. */
  lemma {:induction false} TableBack(rows: seq<Values>, l: Layout)
    requires Sound(l) && GoodRows(rows, l) && l.size > 0
    ensures
      var r := EncodeTable(rows, l);
      && r.Ok? && |r.value| == |rows| * l.size
      && DecodeTable(r.value, Some(l), None) == Ok(NormalRows(rows, l))
      && DecodeTable(r.value, Some(l), Some(|rows|)) == Ok(NormalRows(rows, l))
  {
    hide Sound, PaddedRows, Rows, NormalRows, EncodeStructure, Fits;
    var none: seq<seq<byte>> := seq(|rows|, i => []);
    EncodedPacked(rows, none, l);
    PaddedRowsBack(rows, none, l, l.size);
    if rows == [] {
      NoRows(rows, l);
    } else {
      WidthIndependent(rows, none, l, l.size);
      assert |rows| * l.size == l.size + (|rows| - 1) * l.size;
    }
  }

  lemma {:induction false} NoRows(rows: seq<Values>, l: Layout)
    requires GoodRows(rows, l) && rows == []
    ensures NormalRows(rows, l) == []
  {
  }

  lemma {:induction false} EncodedPacked(rows: seq<Values>, none: seq<seq<byte>>, l: Layout)
    requires GoodRows(rows, l)
    requires |none| == |rows| && forall i :: 0 <= i < |none| ==> none[i] == []
    ensures EncodeTable(rows, l) == Ok(PaddedRows(rows, none, l))
  {
    hide EncodeStructure, Fits;
    if rows != [] {
      var n := |rows| - 1;
      EncodedPacked(rows[..n], none[..n], l);
      PaddedLast(rows, none, l);
      assert none[n] == [];
      assert EncodeStructure(rows[n], l).value + [] == EncodeStructure(rows[n], l).value;
    }
  }

  lemma {:induction false} PaddedLast(rows: seq<Values>, pads: seq<seq<byte>>, l: Layout)
    requires |pads| == |rows| > 0
    requires forall i :: 0 <= i < |rows| ==> EncodeStructure(rows[i], l).Ok?
    ensures
      var n := |rows| - 1;
      PaddedRows(rows, pads, l) ==
      PaddedRows(rows[..n], pads[..n], l) + (EncodeStructure(rows[n], l).value + pads[n])
  {
    hide EncodeStructure;
    var n := |rows| - 1;
    if n > 0 {
      PaddedLast(rows[1..], pads[1..], l);
      assert rows[1..][..n - 1] == rows[..n][1..] && pads[1..][..n - 1] == pads[..n][1..];
    }
  }

  lemma {:induction false} RowCount(data: seq<byte>, width: nat, l: Layout, n: nat)
    requires width > 0 && |data| == n * width && Rows(data, width, l).Ok?
    ensures |Rows(data, width, l).value| == n
  {
    if n > 0 {
      hide DecodeStructure;
      assert n * width == width + (n - 1) * width;
      RowCount(data[width..], width, l, n - 1);
    }
  }

  /** Rows are only ever read from a buffer that divides evenly into rows at least as wide as the
      layout, and then exactly as many as announced come back. */
  lemma {:induction false} CountedRows(data: seq<byte>, l: Layout, n: nat)
    requires n > 0 && DecodeTable(data, Some(l), Some(n)).Ok?
    ensures |data| % n == 0 && |data| / n >= l.size && |data| > 0
    ensures |DecodeTable(data, Some(l), Some(n)).value| == n
  {
    hide Rows;
    var width := |data| / n;
    assert |data| == n * width;
    RowCount(data, width, l, n);
  }

  // ---- the functions as written ----

  lemma {:induction false} FilledFails(values: Values, l: Layout, k: nat, n: nat)
    requires k <= n <= |l.fields| && Filled(values, l, k).Err?
    ensures Filled(values, l, n) == Filled(values, l, k)
    decreases n
  {
    if k < n {
      FilledFails(values, l, k, n - 1);
      hide EncodeField, Supplied, Place;
    }
  }

  lemma {:induction false} DecodedFails(data: seq<byte>, l: Layout, k: nat, n: nat)
    requires k <= n <= |l.fields| && DecodedUpTo(data, l, k).Err?
    ensures DecodedUpTo(data, l, n) == DecodedUpTo(data, l, k)
    decreases n
  {
    if k < n {
      DecodedFails(data, l, k, n - 1);
      hide DecodeField;
    }
  }

  /** One field of the encoding loop. */
  function FilledStep(values: Values, l: Layout, n: nat, buf: seq<byte>): Result<seq<byte>>
    requires n < |l.fields|
  {
    match Supplied(l.fields[n], values)
    case None => Ok(buf)
    case Some(v) => Mapped(EncodeField(l.fields[n], v), raw => Place(buf, l.fields[n].offset, raw))
  }

  lemma {:induction false} FilledNext(values: Values, l: Layout, n: nat, buf: seq<byte>)
    requires n < |l.fields| && Filled(values, l, n) == Ok(buf)
    ensures Filled(values, l, n + 1) == FilledStep(values, l, n, buf)
  {
    hide EncodeField, Supplied, Place;
  }

  method EncodeNested(f: Field, v: Val) returns (r: Result<seq<byte>>)
    ensures r == EncodeField(f, v)
    decreases f, 0
  {
    hide EncodeLeaf;
    match f.kind {
      case Simple(k) =>
        r := if v.Scalar? then EncodeLeaf(k, v.leaf, f.length) else Err("TypeError");
      case Struct(layout) =>
        if layout.None? {
          return Err("IncompleteDescriptorError");
        }
        if !v.Record? {
          return Err("TypeError");
        }
        r := EncodeStructureInto(v.fields, layout.value);
    }
  }

  method EncodeStructureInto(values: Values, l: Layout) returns (r: Result<seq<byte>>)
    ensures r == EncodeStructure(values, l)
    decreases l, 1
  {
    hide EncodeField, Supplied, Place, Filled;
    var buf := NoBytes(l.size);
    FilledNone(values, l);
    for i := 0 to |l.fields|
      invariant Filled(values, l, i) == Ok(buf)
    {
      var f := l.fields[i];
      FilledNext(values, l, i, buf);
      var supplied := Supplied(f, values);
      if supplied.Some? {
        var raw := EncodeNested(f, supplied.value);
        if raw.Err? {
          FilledFails(values, l, i + 1, |l.fields|);
          return Err(raw.reason);
        }
        buf := Place(buf, f.offset, raw.value);
      }
    }
    return Ok(buf);
  }

  lemma {:induction false} FilledNone(values: Values, l: Layout)
    ensures Filled(values, l, 0) == Ok(NoBytes(l.size))
  {
  }

  function DecodedNextStep(data: seq<byte>, l: Layout, n: nat, values: Values): Result<Values>
    requires n < |l.fields|
  {
    var f := l.fields[n];
    if f.offset + f.length > |data| then Err("STRUCTURE field span exceeds buffer length")
    else Mapped(DecodeField(f, data[f.offset..f.offset + f.length]), v => values[f.name := v])
  }

  lemma {:induction false} DecodedNext(data: seq<byte>, l: Layout, n: nat, values: Values)
    requires n < |l.fields| && DecodedUpTo(data, l, n) == Ok(values)
    ensures DecodedUpTo(data, l, n + 1) == DecodedNextStep(data, l, n, values)
  {
    hide DecodeField;
  }

  method DecodeNested(f: Field, span: seq<byte>) returns (r: Result<Val>)
    ensures r == DecodeField(f, span)
    decreases f, 0
  {
    hide DecodeLeaf;
    match f.kind {
      case Simple(k) => r := Mapped(DecodeLeaf(k, span, f.length), v => Scalar(v));
      case Struct(layout) =>
        if layout.None? {
          return Err("IncompleteDescriptorError");
        }
        var values := DecodeStructureFrom(span, layout.value);
        r := Mapped(values, v => Record(v));
    }
  }

  method DecodeStructureFrom(data: seq<byte>, l: Layout) returns (r: Result<Values>)
    ensures r == DecodeStructure(data, l)
    decreases l, 1
  {
    hide DecodeField, DecodedUpTo;
    var values: Values := map[];
    DecodedNone(data, l);
    for i := 0 to |l.fields|
      invariant DecodedUpTo(data, l, i) == Ok(values)
    {
      var f := l.fields[i];
      DecodedNext(data, l, i, values);
      if f.offset + f.length > |data| {
        DecodedFails(data, l, i + 1, |l.fields|);
        return Err("STRUCTURE field span exceeds buffer length");
      }
      var v := DecodeNested(f, data[f.offset..f.offset + f.length]);
      if v.Err? {
        DecodedFails(data, l, i + 1, |l.fields|);
        return Err(v.reason);
      }
      values := values[f.name := v.value];
    }
    return Ok(values);
  }

  lemma {:induction false} DecodedNone(data: seq<byte>, l: Layout)
    ensures DecodedUpTo(data, l, 0) == Ok(map[])
  {
  }

  method DecodeTableFrom(data: seq<byte>, layout: Option<Layout>, count: Option<int>)
    returns (r: Result<seq<Values>>)
    ensures r == DecodeTable(data, layout, count)
  {
    hide Rows, DecodeStructure;
    if layout.None? {
      return Err("IncompleteDescriptorError");
    }
    var l := layout.value;
    var width: nat;
    if count.None? || count.value <= 0 {
      if data == [] {
        return Ok([]);
      }
      width := l.size;
    } else {
      if |data| % count.value != 0 {
        return Err("does not divide into the rows declared");
      }
      width := |data| / count.value;
      if width < l.size {
        return Err("row narrower than the layout");
      }
    }
    if width == 0 {
      return Err("TABLE row size must be positive");
    }
    r := ReadRows(data, width, l);
  }

  /** The row comprehension: one structure per whole row, front to back. */
  method ReadRows(data: seq<byte>, width: nat, l: Layout) returns (r: Result<seq<Values>>)
    requires width > 0
    ensures r == Rows(data, width, l)
  {
    hide Rows, DecodeStructure;
    var rows: seq<Values> := [];
    var i: nat := 0;
    AfterAfter([], [], Rows(data, width, l));
    assert data[0..] == data;
    while i + width <= |data|
      invariant i <= |data|
      invariant Rows(data, width, l) == After(rows, Rows(data[i..], width, l))
      decreases |data| - i
    {
      RowsNext(data[i..], width, l);
      assert data[i..][..width] == data[i..i + width] && data[i..][width..] == data[i + width..];
      var row := DecodeStructureFrom(data[i..i + width], l);
      if row.Err? {
        return Err(row.reason);
      }
      AfterAfter(rows, [row.value], Rows(data[i + width..], width, l));
      rows := rows + [row.value];
      i := i + width;
    }
    RowsEnd(data[i..], width, l);
    assert rows + [] == rows;
    return Ok(rows);
  }

  function After(rows: seq<Values>, r: Result<seq<Values>>): Result<seq<Values>> {
    match r
    case Ok(more) => Ok(rows + more)
    case Err(e) => Err(e)
  }

  lemma {:induction false} AfterAfter(a: seq<Values>, b: seq<Values>, r: Result<seq<Values>>)
    ensures After(a, After(b, r)) == After(a + b, r)
    ensures After([], r) == r
  {
    if r.Ok? {
      assert a + (b + r.value) == a + b + r.value;
      assert [] + r.value == r.value;
    }
  }

  lemma {:induction false} RowsNext(data: seq<byte>, width: nat, l: Layout)
    requires 0 < width <= |data|
    ensures
      var row := DecodeStructure(data[..width], l);
      Rows(data, width, l) == if row.Err? then Err(row.reason) else After([row.value], Rows(data[width..], width, l))
  {
    hide DecodeStructure;
  }

  lemma {:induction false} RowsEnd(data: seq<byte>, width: nat, l: Layout)
    requires |data| < width
    ensures Rows(data, width, l) == Ok([])
  {
  }
}
