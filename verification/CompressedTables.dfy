/** Compressed table rows inside a reply (invoke.py): fragments of one SAPCOMPRESS stream, joined and
decompressed when the table is reported. */
module CompressedTables {
  import opened Bits
  import opened Words
  import opened Tlv
  import opened Leaves
  import opened Pairs
  import BitReader
  import LzhStream
  import LzwSpec
  import Sapcompress

  const WRAPPER: nat := 8
  const HEADER: nat := 8
  const MAGIC: seq<byte> := [0x1f, 0x9d]

  predicate MagicAt(blob: seq<byte>, i: nat) {
    |blob| >= i + 2 && blob[i..i + 2] == MAGIC
  }

  /** Where the stream starts: behind a wrapper, at once, or nowhere. */
  function StreamStart(blob: seq<byte>): (r: Option<nat>)
    ensures r.Some? ==> |blob| >= r.value + 7
  {
    if MagicAt(blob, WRAPPER + 5) then Some(WRAPPER) else if MagicAt(blob, 5) then Some(0) else None
  }

  /** `decompress_table_stream` of the joined fragments. */
  function TableBytes(blob: seq<byte>): Result<seq<byte>> {
    if |blob| < HEADER then Err("payload is too short")
    else
      match StreamStart(blob)
      case None => Err("header not found")
      case Some(at) => Sapcompress.Meaning(blob[at..], LittleEndian(blob[at..][..4]))
  }

  method DecompressTableStream(chunks: seq<seq<byte>>) returns (r: Result<seq<byte>>)
    ensures r == TableBytes(Joined(chunks))
  {
    hide Sapcompress.Meaning, LittleEndian, MagicAt;
    var blob := Join(chunks);
    if |blob| < HEADER {
      return Err("payload is too short");
    }
    var at := 0;
    if MagicAt(blob, WRAPPER + 5) {
      at := WRAPPER;
    } else if !MagicAt(blob, 5) {
      return Err("header not found");
    }
    assert StreamStart(blob) == Some(at);
    r := Sapcompress.SapcompressDecompress(blob[at..], LittleEndian(blob[at..][..4]));
  }

  function Joined(chunks: seq<seq<byte>>): seq<byte> {
    if chunks == [] then [] else chunks[0] + Joined(chunks[1..])
  }

  method Join(chunks: seq<seq<byte>>) returns (blob: seq<byte>)
    ensures blob == Joined(chunks)
  {
    blob := [];
    for i := 0 to |chunks|
      invariant blob + Joined(chunks[i..]) == Joined(chunks)
    {
      assert chunks[i..][0] == chunks[i] && chunks[i..][1..] == chunks[i + 1..];
      assert blob + (chunks[i] + Joined(chunks[i + 1..])) == blob + chunks[i] + Joined(chunks[i + 1..]);
      blob := blob + chunks[i];
    }
    assert blob + [] == blob;
  }

  // ----- what is found -----

  /** A stream behind any eight bytes is found; one without them exactly when it does not show the
  magic once more eight bytes on. */
  lemma {:induction false} StartFound(wrapper: seq<byte>, stream: seq<byte>)
    requires |wrapper| == WRAPPER && MagicAt(stream, 5)
    ensures StreamStart(wrapper + stream) == Some(WRAPPER)
    ensures StreamStart(stream) == Some(0) <==> !MagicAt(stream, WRAPPER + 5)
  {
    assert (wrapper + stream)[13..15] == stream[5..7];
  }

  /** A SAPCOMPRESS stream that stands for `rows`, with its own length in its header. */
  predicate Packs(stream: seq<byte>, rows: seq<byte>) {
    Sapcompress.Meaning(stream, |rows|) == Ok(rows)
  }

  lemma {:induction false} PackedHeader(stream: seq<byte>, rows: seq<byte>)
    requires Packs(stream, rows)
    ensures |stream| >= HEADER && MagicAt(stream, 5) && LittleEndian(stream[..4]) == |rows|
  {
    hide LzwSpec.Decompressed, LittleEndian, Sapcompress.Checked;
  }

  /** The rows come back from a stream of either algorithm behind any wrapper; from a bare stream exactly
  when it does not show the magic again eight bytes further on, or what starts there stands for the same
  rows. */
  lemma {:induction false} RowsBack(wrapper: seq<byte>, stream: seq<byte>, rows: seq<byte>)
    requires |wrapper| == WRAPPER && Packs(stream, rows)
    ensures TableBytes(wrapper + stream) == Ok(rows)
    ensures TableBytes(stream) == Ok(rows) <==>
            !MagicAt(stream, WRAPPER + 5) || Packs(stream[WRAPPER..], rows)
  {
    PackedHeader(stream, rows);
    StartFound(wrapper, stream);
    if MagicAt(stream, WRAPPER + 5) {
      LaterStream(stream, rows);
    }
    hide Sapcompress.Meaning, LittleEndian, StreamStart, MagicAt;
    assert (wrapper + stream)[WRAPPER..] == stream && stream[0..] == stream;
  }

  lemma {:induction false} LaterStream(stream: seq<byte>, rows: seq<byte>)
    requires MagicAt(stream, WRAPPER + 5)
    ensures TableBytes(stream) == Ok(rows) <==> Packs(stream[WRAPPER..], rows)
  {
    var later := stream[WRAPPER..];
    var n := LittleEndian(later[..4]);
    assert TableBytes(stream) == Sapcompress.Meaning(later, n);
    if Packs(later, rows) {
      PackedHeader(later, rows);
    }
    MeaningLength(later, n);
    hide Sapcompress.Meaning, LittleEndian, MagicAt;
  }

  lemma {:induction false} MeaningLength(data: seq<byte>, n: nat)
    ensures Sapcompress.Meaning(data, n).Ok? ==> |Sapcompress.Meaning(data, n).value| == n
  {
    hide LzwSpec.ParseHeader, LzwSpec.Decompressed, LzhStream.Decompressed;
  }

  // ----- a bare stream that is not found -----

  /** One row of one byte, 0x41: an LZC header for one byte and 13-bit codes, the code 0x41, and bytes
  behind it that no reader looks at. */
  const BARE: seq<byte> := [1, 0, 0, 0, 0x11, 0x1f, 0x9d, 0x0d, 0x41, 0, 0, 0, 0, 0x1f, 0x9d, 0, 0]

  lemma {:induction false} FirstCode(payload: seq<byte>)
    requires |payload| == 9 && payload[1] == 0
    ensures |BytesToBits(payload)| == 72 && FromBits(BytesToBits(payload)[..9]) == payload[0] as nat
  {
    hide *;
    BitReader.BytesHead(payload);
    BitReader.BytesHead(payload[1..]);
    ByteThenNought(payload[0], BytesToBits(payload[1..][1..]));
  }

  lemma {:induction false} ByteThenNought(v: byte, more: seq<bool>)
    ensures FromBits((ToBits(v as nat, 8) + (ToBits(0, 8) + more))[..9]) == v as nat
  {
    NoughtBits();
    hide ToBits, FromBits, Shl, Pow2;
    var low, next := ToBits(v as nat, 8), ToBits(0, 8);
    assert (low + (next + more))[..9] == low + [next[0]];
    FromToBits(v as nat, 8);
    LowBitsFits(v as nat, 8);
    FromBitsConcat(low, [false]);
  }

  lemma {:induction false} NoughtBits()
    ensures ToBits(0, 8)[0] == false && FromBits([false]) == 0 && Shl(0, 8) == 0 && Pow2(8) == 256
  {
    assert FromBits([]) == 0;
    ShlZero(8);
  }

  lemma {:induction false} BareOpens()
    ensures LzwSpec.OpenLzc(BARE) == Ok((1, LzwSpec.Params(false, 13), BARE[8..]))
    ensures LzwSpec.ParseHeader(BARE).Ok? && LzwSpec.ParseHeader(BARE).value.length == 1
    ensures LzwSpec.ParseHeader(BARE).value.algo == 1
  {
    assert BARE[5..7] == [0x1f, 0x9d] && BARE[..4] == [1, 0, 0, 0];
    LengthOne();
  }

  lemma {:induction false} LengthOne()
    ensures LittleEndian([1, 0, 0, 0]) == 1
  {
    assert [1, 0, 0, 0][1..] == [0, 0, 0] && [0, 0, 0][1..] == [0, 0] && [0, 0][1..] == [0] && [0][1..] == [];
    assert LittleEndian([0, 0]) == 0;
  }

  lemma {:induction false} BarePacks()
    ensures Packs(BARE, [0x41])
  {
    BareOpens();
    BareDecodes();
    hide LzwSpec.OpenLzc, LzwSpec.ParseHeader, LzwSpec.Decode;
  }

  lemma {:induction false} BareDecodes()
    ensures LzwSpec.Decode(LzwSpec.Params(false, 13), true, LzwSpec.EMPTY, LzwSpec.Start(BARE[8..]), 1) == Ok([0x41])
  {
    BareTurn();
    hide LzwSpec.TakeTurn, LzwSpec.Start;
    assert [0x41] + [] == [0x41];
  }

  lemma {:induction false} BareTurn()
    ensures LzwSpec.Start(BARE[8..]).codeLen > 0
    ensures
      var t := LzwSpec.TakeTurn(LzwSpec.Params(false, 13), true, LzwSpec.EMPTY, LzwSpec.Start(BARE[8..]));
      t.Write? && t.s == [0x41]
  {
    BareCode();
    PowersOfWidths();
    hide LzwSpec.ReadCode, LzwSpec.Start, Pow2;
  }

  lemma {:induction false} PowersOfWidths()
    ensures Pow2(9) == 512 && Pow2(13) == 8192
  {
  }

  lemma {:induction false} BareCode()
    ensures LzwSpec.Start(BARE[8..]).codeLen == 9
    ensures LzwSpec.ReadCode(LzwSpec.Params(false, 13), LzwSpec.Start(BARE[8..]), 256).0 == Some(0x41)
  {
    var payload := BARE[8..];
    FirstCode(payload);
    PowersOfWidths();
    assert payload[..9] == payload;
    hide BytesToBits, FromBits, Pow2;
  }

  /** A bare stream that stands for its row but shows the magic again: it is taken to start eight bytes
  on, where there is no stream, and the table is refused. Behind a wrapper it is read. */
  lemma {:induction false} BareRefused(wrapper: seq<byte>)
    requires |wrapper| == WRAPPER
    ensures Packs(BARE, [0x41]) && TableBytes(BARE).Err? && TableBytes(wrapper + BARE) == Ok([0x41])
  {
    BarePacks();
    RowsBack(wrapper, BARE, [0x41]);
    NoStreamThere();
    hide Packs, Sapcompress.Meaning, LittleEndian, TableBytes;
  }

  lemma {:induction false} NoStreamThere()
    ensures TableBytes(BARE).Err?
  {
    var later := BARE[8..];
    assert BARE[13..15] == MAGIC;
    hide LittleEndian, Sapcompress.Checked, LzwSpec.Decompressed, LzhStream.Decompressed;
  }

  // ----- a compressed table in a reply -----

  function Fragments(chunks: seq<seq<byte>>): seq<Rec> {
    if chunks == [] then [] else [Rec(TAG_TABLE_CONTENT_LZ, chunks[0])] + Fragments(chunks[1..])
  }

  /** A table as a server sends it compressed: name, size and count, fragments, end tag. */
  function CompressedGroup(name: Name, size: nat, n: nat, chunks: seq<seq<byte>>): seq<Rec>
    requires IsText(name)
  {
    [Rec(TAG_TABLE_NAME, Utf16(name)), Rec(TAG_TABLE_INFO, Pair32(size, n))] + Fragments(chunks) + [Rec(TAG_TABLE_END, [])]
  }

  lemma {:induction false} FragmentFed(w: Walker, chunk: seq<byte>, dm: map<nat, Name>, unpack: Unpacker)
    requires w.inTable
    ensures Fed(w, [Rec(TAG_TABLE_CONTENT_LZ, chunk)], dm, unpack) == Ok(w.(lz := w.lz + chunk, lzSeen := true))
  {
    assert Step(w, Rec(TAG_TABLE_CONTENT_LZ, chunk), dm, unpack) == Ok(w.(lz := w.lz + chunk, lzSeen := true));
    hide Step;
    FedOne(w, Rec(TAG_TABLE_CONTENT_LZ, chunk), dm, unpack);
  }

  lemma {:induction false} FragmentsSplit(chunks: seq<seq<byte>>)
    requires chunks != []
    ensures Fragments(chunks) == [Rec(TAG_TABLE_CONTENT_LZ, chunks[0])] + Fragments(chunks[1..])
    ensures Joined(chunks) == chunks[0] + Joined(chunks[1..])
    ensures |chunks| == 1 ==> chunks[1..] == [] && Fragments(chunks[1..]) == [] && Joined(chunks[1..]) == []
  {
  }

  lemma {:induction false} FragmentsFed(w: Walker, chunks: seq<seq<byte>>, dm: map<nat, Name>, unpack: Unpacker)
    requires w.inTable && chunks != []
    ensures Fed(w, Fragments(chunks), dm, unpack) == Ok(w.(lz := w.lz + Joined(chunks), lzSeen := true))
    decreases |chunks|
  {
    hide *;
    FragmentFed(w, chunks[0], dm, unpack);
    FragmentsSplit(chunks);
    var r := Rec(TAG_TABLE_CONTENT_LZ, chunks[0]);
    if |chunks| == 1 {
      assert [r] + [] == [r] && chunks[0] + [] == chunks[0];
    } else {
      FragmentsFed(w.(lz := w.lz + chunks[0], lzSeen := true), chunks[1..], dm, unpack);
      FedAppend(w, [r], Fragments(chunks[1..]), dm, unpack);
      assert w.lz + chunks[0] + Joined(chunks[1..]) == w.lz + (chunks[0] + Joined(chunks[1..]));
    }
  }

  /** However a compressed table is cut into fragments, the walk reports its name with its rows as they
  were before compression, and keeps its announced count. */
  lemma {:induction false} CompressedFed(w: Walker, name: Name, size: nat, n: nat, chunks: seq<seq<byte>>,
                                         rows: seq<byte>, dm: map<nat, Name>)
    requires Clean(w) && GoodName(name) && 0 < n < 0x1_0000_0000
    requires chunks != [] && TableBytes(Joined(chunks)) == Ok(rows)
    ensures
      IsText(name) &&
      var r := Fed(w, CompressedGroup(name, size, n, chunks), dm, TableBytes);
      && r.Ok? && Clean(r.value) && r.value.counts == w.counts[name := n]
      && Settled(r.value) == Settled(w) + [Pair(name, rows)]
  {
    hide GoodName, Utf16, Pair32, TableBytes;
    HeadFed(w, name, dm, TableBytes);
    InfoBack(size, n);
    var first, info, last := Rec(TAG_TABLE_NAME, Utf16(name)), Rec(TAG_TABLE_INFO, Pair32(size, n)), Rec(TAG_TABLE_END, []);
    var e := Step(w, first, dm, TableBytes).value;
    var counted := e.(counts := e.counts[name := n]);
    var packed := counted.(lz := counted.lz + Joined(chunks), lzSeen := true);
    assert [] + Joined(chunks) == Joined(chunks);
    assert Step(e, info, dm, TableBytes) == Ok(counted);
    var done := Step(packed, last, dm, TableBytes);
    assert done.Ok? && !done.value.inTable && done.value.pairs == e.pairs + [Pair(name, rows)];
    hide Step, Fragments, Joined;
    FedOne(w, first, dm, TableBytes);
    FedOne(e, info, dm, TableBytes);
    FedOne(packed, last, dm, TableBytes);
    FragmentsFed(counted, chunks, dm, TableBytes);
    hide Fed;
    FedAppend(w, [first], [info], dm, TableBytes);
    assert [first] + [info] == [first, info];
    FedAppend(w, [first, info], Fragments(chunks), dm, TableBytes);
    FedAppend(w, [first, info] + Fragments(chunks), [last], dm, TableBytes);
  }
}
