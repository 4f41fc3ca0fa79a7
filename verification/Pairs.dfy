/** The walk that turns a TLV stream into named values, and the names themselves (invoke.py). */
module Pairs {
  import opened Bits
  import opened Words
  import opened Tlv
  import opened Leaves

  const TAG_PARAM_NAME: nat := 0x0201
  const TAG_PARAM_VALUE: nat := 0x0203
  const TAG_TABLE_NAME: nat := 0x0301
  const TAG_TABLE_INFO: nat := 0x0302
  const TAG_TABLE_CONTENT: nat := 0x0303
  const TAG_TABLE_CONTENT_ALT: nat := 0x0304
  const TAG_TABLE_CONTENT_LZ: nat := 0x0305
  const TAG_TABLE_END: nat := 0x0306
  const TAG_DM_TABLE_ID: nat := 0x0330
  const TAG_TABLE_DELTA: nat := 0x0335
  const TAG_TABLE_DELTA_END: nat := 0x0336

  /** A parameter name as UTF-16 code units. */
  type Name = seq<nat>

  datatype Pair = Pair(name: Name, value: seq<byte>)

  /** Decompresses the joined fragments of one table. */
  type Unpacker = seq<byte> -> Result<seq<byte>>

  // ---- names ----

  function StripName(n: Name): Name {
    if n != [] && (n[|n| - 1] == 0 || n[|n| - 1] == BLANK) then StripName(n[..|n| - 1]) else n
  }

  /** Bytes that are no UTF-16 text are read as ASCII, every other byte replaced. */
  function Ascii(b: seq<byte>): Name {
    seq(|b|, i requires 0 <= i < |b| => if b[i] as nat < 128 then b[i] as nat else 0xFFFD)
  }

  function DecodeName(b: seq<byte>): Name {
    if b == [] then []
    else if |b| % 2 == 0 && IsText(FromUtf16(b)) then StripName(FromUtf16(b))
    else StripName(Ascii(b))
  }

  lemma {:induction false} StripShorter(n: Name)
    ensures |StripName(n)| <= |n|
    ensures StripName(n) == n <==> n == [] || (n[|n| - 1] != 0 && n[|n| - 1] != BLANK)
  {
    if n != [] && (n[|n| - 1] == 0 || n[|n| - 1] == BLANK) {
      StripShorter(n[..|n| - 1]);
    }
  }

  /** Any text but one that ends in a NUL or a blank survives the trip. */
  lemma {:induction false} TextNameBack(n: Name)
    requires IsText(n)
    ensures DecodeName(Utf16(n)) == n <==> n == [] || (n[|n| - 1] != 0 && n[|n| - 1] != BLANK)
  {
    Utf16Back(n);
    StripShorter(n);
    hide StripName, FromUtf16;
  }

  function UpperUnit(u: nat): nat {
    if 0x61 <= u <= 0x7A then u - 0x20 else u
  }

  function Upper(n: Name): (r: Name)
    ensures |r| == |n|
  {
    seq(|n|, i requires 0 <= i < |n| => UpperUnit(n[i]))
  }

  /** A name that survives the trip: ASCII, not empty, no NUL or blank at its end. */
  predicate GoodName(n: Name) {
    n != [] && n[|n| - 1] != 0 && n[|n| - 1] != BLANK && forall i :: 0 <= i < |n| ==> n[i] < 128
  }

  lemma {:induction false} NameBack(n: Name)
    requires GoodName(n)
    ensures IsText(n) && Utf16(n) != [] && DecodeName(Utf16(n)) == n
  {
    assert IsText(n);
    Utf16Back(n);
  }

  // ---- the walk ----

  datatype Walker = Walker(name: Option<Name>, inTable: bool, rows: seq<byte>, lz: seq<byte>, lzSeen: bool,
                           pairs: seq<Pair>, counts: map<Name, nat>)

  const START := Walker(None, false, [], [], false, [], map[])

  function Payload(w: Walker, unpack: Unpacker): Result<seq<byte>> {
    if w.lzSeen then unpack(w.lz) else Ok(w.rows)
  }

  /** Reports the table in progress, if there is one and it has a name. */
  function Finish(w: Walker, unpack: Unpacker): Result<Walker> {
    if w.inTable && w.name.Some? then
      match Payload(w, unpack)
      case Err(e) => Err(e)
      case Ok(payload) => Ok(w.(pairs := w.pairs + [Pair(w.name.value, payload)]))
    else Ok(w)
  }

  function Cleared(w: Walker): Walker {
    w.(rows := [], lz := [], lzSeen := false)
  }

  /** One record. */
  function Step(w: Walker, r: Rec, dm: map<nat, Name>, unpack: Unpacker): Result<Walker> {
    if r.tag == TAG_PARAM_NAME then
      match Finish(w, unpack)
      case Err(e) => Err(e)
      case Ok(f) =>
        var g := if w.inTable && w.name.Some? then Cleared(f).(inTable := false) else f;
        Ok(g.(lz := [], lzSeen := false, name := Some(DecodeName(r.value))))
    else if r.tag == TAG_PARAM_VALUE && w.name.Some? && !w.inTable then
      Ok(w.(pairs := w.pairs + [Pair(w.name.value, r.value)], name := None))
    else if r.tag == TAG_TABLE_NAME then
      match Finish(w, unpack)
      case Err(e) => Err(e)
      case Ok(f) =>
        Ok(Cleared(f).(inTable := true, name := if r.value != [] then Some(DecodeName(r.value)) else w.name))
    else if r.tag == TAG_TABLE_INFO && w.inTable then
      if w.name.Some? && |r.value| >= 8 && BigEndian(r.value[4..8]) > 0 then
        Ok(w.(counts := w.counts[w.name.value := BigEndian(r.value[4..8])]))
      else Ok(w)
    else if (r.tag == TAG_TABLE_CONTENT || r.tag == TAG_TABLE_CONTENT_ALT) && w.inTable then
      Ok(w.(rows := w.rows + r.value))
    else if r.tag == TAG_TABLE_CONTENT_LZ && w.inTable then
      Ok(w.(lz := w.lz + r.value, lzSeen := true))
    else if r.tag == TAG_TABLE_DELTA then
      match Finish(w, unpack)
      case Err(e) => Err(e)
      case Ok(f) =>
        var g := Cleared(f).(name := None, inTable := false);
        if |r.value| >= 12 && BigEndian(r.value[4..8]) in dm then
          Ok(g.(name := Some(dm[BigEndian(r.value[4..8])]), inTable := true))
        else Ok(g)
    else if (r.tag == TAG_TABLE_END || r.tag == TAG_TABLE_DELTA_END) && w.inTable && w.name.Some? then
      match Finish(w, unpack)
      case Err(e) => Err(e)
      case Ok(f) => Ok(Cleared(f).(name := None, inTable := false))
    else Ok(w)
  }

  function Fed(w: Walker, recs: seq<Rec>, dm: map<nat, Name>, unpack: Unpacker): Result<Walker>
    decreases |recs|
  {
    if recs == [] then Ok(w)
    else
      match Step(w, recs[0], dm, unpack)
      case Err(e) => Err(e)
      case Ok(next) => Fed(next, recs[1..], dm, unpack)
  }

  /** The named values of a stream, and the row counts its tables announced. */
  function Extracted(data: seq<byte>, dm: map<nat, Name>, unpack: Unpacker): Result<Walker> {
    match Fed(START, Walk(data).0, dm, unpack)
    case Err(e) => Err(e)
    case Ok(w) => if Walk(data).1 == AtOverrun then Err("malformed TLV") else Finish(w, unpack)
  }

  lemma {:induction false} FedAppend(w: Walker, a: seq<Rec>, b: seq<Rec>, dm: map<nat, Name>, unpack: Unpacker)
    ensures Fed(w, a + b, dm, unpack) ==
            if Fed(w, a, dm, unpack).Ok? then Fed(Fed(w, a, dm, unpack).value, b, dm, unpack) else Fed(w, a, dm, unpack)
    decreases |a|
  {
    hide Step;
    if a == [] {
      assert a + b == b;
    } else {
      assert (a + b)[1..] == a[1..] + b;
      var next := Step(w, a[0], dm, unpack);
      if next.Ok? {
        FedAppend(next.value, a[1..], b, dm, unpack);
      }
    }
  }

  lemma {:induction false} FedOne(w: Walker, r: Rec, dm: map<nat, Name>, unpack: Unpacker)
    ensures Fed(w, [r], dm, unpack) == Step(w, r, dm, unpack)
  {
    hide Step;
    assert [r][1..] == [];
    var next := Step(w, r, dm, unpack);
    if next.Ok? {
      assert Fed(next.value, [], dm, unpack) == next;
    }
  }

  method ExtractNameValuePairs(data: seq<byte>, dm: map<nat, Name>, unpack: Unpacker) returns (r: Result<Walker>)
    ensures r == Extracted(data, dm, unpack)
  {
    hide Next, Step, Finish;
    var w := START;
    var pos := 0;
    ghost var done: seq<Rec> := [];
    assert data[0..] == data && [] + Walk(data).0 == Walk(data).0;
    assert Fed(START, [], dm, unpack) == Ok(START);
    while pos + 4 <= |data|
      invariant 0 <= pos <= |data| && Fed(START, done, dm, unpack) == Ok(w)
      invariant Walk(data).0 == done + Walk(data[pos..]).0 && Walk(data).1 == Walk(data[pos..]).1
      decreases |data| - pos
    {
      WalkFound(data[pos..], done);
      var item, next := ReadItem(data, pos);
      match item
      case Found(tag, value, rest) =>
        FedAppend(START, done, [Rec(tag, value)], dm, unpack);
        FedOne(w, Rec(tag, value), dm, unpack);
        FedAppend(START, done + [Rec(tag, value)], Walk(rest).0, dm, unpack);
        var stepped := Step(w, Rec(tag, value), dm, unpack);
        if stepped.Err? {
          return Err(stepped.reason);
        }
        w := stepped.value;
        done := done + [Rec(tag, value)];
        pos := next;
      case Overrun =>
        return Err("malformed TLV");
      case _ =>
        return Finish(w, unpack);
    }
    ShortWalk(data[pos..]);
    assert done + [] == done;
    return Finish(w, unpack);
  }

  // ---- what the builders write, walked ----

  /** No compressed rows pending, and a table in progress has a name. */
  predicate Clean(w: Walker) {
    !w.lzSeen && w.lz == [] && (w.inTable ==> w.name.Some?)
  }

  /** The pairs once the table in progress is reported. */
  function Settled(w: Walker): seq<Pair> {
    if w.inTable && w.name.Some? then w.pairs + [Pair(w.name.value, w.rows)] else w.pairs
  }

  function ScalarGroup(name: Name, value: seq<byte>): seq<Rec>
    requires IsText(name)
  {
    [Rec(TAG_PARAM_NAME, Utf16(name)), Rec(TAG_PARAM_VALUE, value)]
  }

  /** A Python slice: bounds past the end are cut to it. */
  function Slice(b: seq<byte>, lo: nat, hi: nat): seq<byte> {
    if lo >= |b| || lo >= hi then [] else if hi >= |b| then b[lo..] else b[lo..hi]
  }

  /** The first n rows of `size` bytes each, one record a row. */
  function RowRecords(tag: nat, all: seq<byte>, size: nat, n: nat): (recs: seq<Rec>)
    decreases n
  {
    if n == 0 then []
    else RowRecords(tag, all, size, n - 1) + [Rec(tag, Slice(all, (n - 1) * size, n * size))]
  }

  lemma {:induction false} TimesBack(n: nat, size: nat)
    requires n > 0
    ensures n * size == (n - 1) * size + size
  {
  }

  function Pair32(a: nat, b: nat): (r: seq<byte>)
    ensures |r| == 8
  {
    BigEndianBytes(a, 4) + BigEndianBytes(b, 4)
  }

  function TableGroup(name: Name, dm: nat, size: nat, all: seq<byte>, n: nat, tag: nat): seq<Rec>
    requires IsText(name)
  {
    [Rec(TAG_TABLE_NAME, Utf16(name))] +
    if n == 0 then []
    else
      [Rec(TAG_DM_TABLE_ID, BigEndianBytes(dm, 4)), Rec(TAG_TABLE_INFO, Pair32(size, n))] +
      RowRecords(tag, all, size, n)
  }

  lemma {:induction false} ScalarFed(w: Walker, name: Name, value: seq<byte>, dm: map<nat, Name>, unpack: Unpacker)
    requires Clean(w) && GoodName(name)
    ensures
      IsText(name) &&
      var r := Fed(w, ScalarGroup(name, value), dm, unpack);
      && r.Ok? && Clean(r.value) && r.value.counts == w.counts
      && Settled(r.value) == Settled(w) + [Pair(name, value)]
  {
    NameBack(name);
    hide DecodeName, GoodName, Utf16;
    var first := Rec(TAG_PARAM_NAME, Utf16(name));
    var second := Rec(TAG_PARAM_VALUE, value);
    var named := Step(w, first, dm, unpack).value;
    assert ScalarGroup(name, value) == [first] + [second];
    FedOne(w, first, dm, unpack);
    FedOne(named, second, dm, unpack);
    hide Fed;
    FedAppend(w, [first], [second], dm, unpack);
  }

  lemma {:induction false} InfoBack(size: nat, n: nat)
    requires n < 0x1_0000_0000
    ensures BigEndian(Pair32(size, n)[4..8]) == n
  {
    Pow256Values();
    BigEndianRoundTrip(n, 4);
    assert Pair32(size, n)[4..8] == BigEndianBytes(n, 4);
  }

  lemma {:induction false} RowsFed(w: Walker, tag: nat, all: seq<byte>, size: nat, n: nat, dm: map<nat, Name>, unpack: Unpacker)
    requires w.inTable && n * size <= |all| && (tag == TAG_TABLE_CONTENT || tag == TAG_TABLE_CONTENT_ALT)
    ensures Fed(w, RowRecords(tag, all, size, n), dm, unpack) == Ok(w.(rows := w.rows + all[..n * size]))
    decreases n
  {
    if n == 0 {
      assert w.rows + all[..n * size] == w.rows;
      assert Fed(w, [], dm, unpack) == Ok(w);
    } else {
      TimesBack(n, size);
      var front, last := all[..(n - 1) * size], Rec(tag, Slice(all, (n - 1) * size, n * size));
      assert last.value == all[(n - 1) * size..n * size];
      hide Slice;
      RowsFed(w, tag, all, size, n - 1, dm, unpack);
      FedAppend(w, RowRecords(tag, all, size, n - 1), [last], dm, unpack);
      FedOne(w.(rows := w.rows + front), last, dm, unpack);
      assert w.rows + front + last.value == w.rows + all[..n * size];
    }
  }

  /** A walk that has just come to a table: whatever went before is reported, no rows yet. */
  predicate Entered(w: Walker, e: Walker, name: Name) {
    && e.inTable && e.name == Some(name) && e.rows == [] && e.lz == [] && !e.lzSeen
    && e.pairs == Settled(w) && e.counts == w.counts
  }

  lemma {:induction false} HeadFed(w: Walker, name: Name, dm: map<nat, Name>, unpack: Unpacker)
    requires Clean(w) && GoodName(name)
    ensures IsText(name)
    ensures
      var e := Step(w, Rec(TAG_TABLE_NAME, Utf16(name)), dm, unpack);
      e.Ok? && Entered(w, e.value, name)
  {
    NameBack(name);
    hide DecodeName, GoodName, Utf16;
  }

  lemma {:induction false} BodyFed(e: Walker, name: Name, id: nat, size: nat, all: seq<byte>, n: nat, tag: nat,
                                   dm: map<nat, Name>, unpack: Unpacker)
    requires e.inTable && e.name == Some(name) && e.rows == [] && |all| == n * size && 0 < n < 0x1_0000_0000
    requires tag == TAG_TABLE_CONTENT || tag == TAG_TABLE_CONTENT_ALT
    ensures
      Fed(e, [Rec(TAG_DM_TABLE_ID, BigEndianBytes(id, 4)), Rec(TAG_TABLE_INFO, Pair32(size, n))] +
             RowRecords(tag, all, size, n), dm, unpack) ==
      Ok(e.(counts := e.counts[name := n], rows := all))
  {
    hide RowRecords, Pair32, Fed;
    var idRec, info := Rec(TAG_DM_TABLE_ID, BigEndianBytes(id, 4)), Rec(TAG_TABLE_INFO, Pair32(size, n));
    InfoBack(size, n);
    var counted := e.(counts := e.counts[name := n]);
    assert Step(e, idRec, dm, unpack) == Ok(e) && Step(e, info, dm, unpack) == Ok(counted);
    hide Step;
    FedOne(e, idRec, dm, unpack);
    FedOne(e, info, dm, unpack);
    FedAppend(e, [idRec], [info], dm, unpack);
    assert [idRec] + [info] == [idRec, info];
    FedAppend(e, [idRec, info], RowRecords(tag, all, size, n), dm, unpack);
    RowsFed(counted, tag, all, size, n, dm, unpack);
    assert [] + all[..n * size] == all;
  }

  lemma {:induction false} TableFed(w: Walker, name: Name, id: nat, size: nat, all: seq<byte>, n: nat, tag: nat,
                                    dm: map<nat, Name>, unpack: Unpacker)
    requires Clean(w) && GoodName(name) && |all| == n * size && n < 0x1_0000_0000
    requires tag == TAG_TABLE_CONTENT || tag == TAG_TABLE_CONTENT_ALT
    ensures
      IsText(name) &&
      var r := Fed(w, TableGroup(name, id, size, all, n, tag), dm, unpack);
      && r.Ok? && Clean(r.value)
      && r.value.counts == (if n > 0 then w.counts[name := n] else w.counts)
      && Settled(r.value) == Settled(w) + [Pair(name, all)]
  {
    hide GoodName, Utf16, RowRecords, Pair32, Fed, Step;
    HeadFed(w, name, dm, unpack);
    var first := Rec(TAG_TABLE_NAME, Utf16(name));
    var e := Step(w, first, dm, unpack).value;
    FedOne(w, first, dm, unpack);
    if n == 0 {
      assert all == [];
      assert TableGroup(name, id, size, all, n, tag) == [first] + [] == [first];
    } else {
      BodyFed(e, name, id, size, all, n, tag, dm, unpack);
      FedAppend(w, [first], [Rec(TAG_DM_TABLE_ID, BigEndianBytes(id, 4)), Rec(TAG_TABLE_INFO, Pair32(size, n))] +
                             RowRecords(tag, all, size, n), dm, unpack);
    }
  }

  predicate Silent(tag: nat) {
    tag != TAG_PARAM_NAME && tag != TAG_PARAM_VALUE && !(TAG_TABLE_NAME <= tag <= TAG_TABLE_END) &&
    tag != TAG_TABLE_DELTA && tag != TAG_TABLE_DELTA_END
  }

  /** Records the walk has no use for change nothing. */
  lemma {:induction false} SilentFed(w: Walker, recs: seq<Rec>, dm: map<nat, Name>, unpack: Unpacker)
    requires forall i :: 0 <= i < |recs| ==> Silent(recs[i].tag)
    ensures Fed(w, recs, dm, unpack) == Ok(w)
    decreases |recs|
  {
    if recs != [] {
      assert Step(w, recs[0], dm, unpack) == Ok(w);
      SilentFed(w, recs[1..], dm, unpack);
    }
  }
}
