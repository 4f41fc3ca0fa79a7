/** What an LZC stream means: LZW over a dictionary of strings, and the way variable-width
codes are laid out in groups. The reader of `LzcReader` and the writer of `LzcWriter` are
both proved against this module. */
module LzwSpec {
  import opened Bits
  import opened Words

  const MIN_CODE_LEN := 9
  const MAX_CODE_LEN := 16
  const CODE_END_BLOCK := 256

  /** A dictionary string is never empty. */
  type Text = s: seq<byte> | |s| > 0 witness [0]

  /** The config byte of a stream: block mode and the widest code. */
  datatype Params = Params(multi: bool, limitBits: nat) {
    predicate Valid() {
      MIN_CODE_LEN <= limitBits <= MAX_CODE_LEN
    }

    /** The first code that stands for a sequence. */
    function First(): nat {
      if multi then 257 else 256
    }

    function Limit(): nat {
      Pow2(limitBits)
    }
  }

  /** The dictionary (code `First() + i` stands for `entries[i]`) and the previous string of the block. */
  datatype Lzw = Lzw(entries: seq<Text>, prev: Option<Text>)

  const EMPTY := Lzw([], None)

  function NextFree(p: Params, st: Lzw): nat {
    p.First() + |st.entries|
  }

  predicate Known(p: Params, entries: seq<Text>, code: nat) {
    code < 256 || p.First() <= code < p.First() + |entries|
  }

  function TextOf(p: Params, entries: seq<Text>, code: nat): Text
    requires Known(p, entries, code)
  {
    if code < 256 then [code] else entries[code - p.First()]
  }

  lemma {:induction false} KnownExtend(p: Params, entries: seq<Text>, t: Text, code: nat)
    requires Known(p, entries, code)
    ensures Known(p, entries + [t], code) && TextOf(p, entries + [t], code) == TextOf(p, entries, code)
  {
  }

  /** The string of a code. The next free code stands for the entry that is about to be made. */
  function Lookup(p: Params, st: Lzw, code: nat): Option<Text> {
    if code >= p.Limit() then None
    else if Known(p, st.entries, code) then Some(TextOf(p, st.entries, code))
    else if code == NextFree(p, st) && st.prev.Some? then Some(st.prev.value + [st.prev.value[0]])
    else None
  }

  /** The dictionary after reading string `s`: the previous string extended by the first byte of `s`. */
  function Learn(p: Params, st: Lzw, s: Text): Lzw {
    if st.prev.Some? && NextFree(p, st) < p.Limit() then
      Lzw(st.entries + [st.prev.value + [s[0]]], Some(s))
    else
      Lzw(st.entries, Some(s))
  }

  function Step(p: Params, st: Lzw, code: nat): Option<(Lzw, Text)> {
    match Lookup(p, st, code)
    case None => None
    case Some(s) => Some((Learn(p, st, s), s))
  }

  /** Strings grow by at most one byte per entry, so every string fits in `Limit()` bytes. */
  predicate Sized(p: Params, st: Lzw) {
    && NextFree(p, st) <= p.Limit()
    && (forall i :: 0 <= i < |st.entries| ==> |st.entries[i]| <= i + 2)
    && (st.prev.Some? ==> |st.prev.value| <= |st.entries| + 1)
  }

  lemma {:induction false} LimitBounds(p: Params)
    requires p.Valid()
    ensures 512 <= p.Limit() <= 65536
    ensures Pow2(9) == 512 && Pow2(10) == 1024 && Pow2(16) == 65536
  {
    Pow2Monotone(9, p.limitBits);
    Pow2Monotone(p.limitBits, 16);
  }

  lemma {:induction false} SizedInit(p: Params)
    requires p.Valid()
    ensures Sized(p, EMPTY)
  {
    LimitBounds(p);
  }

  lemma {:induction false} SizedStep(p: Params, st: Lzw, code: nat)
    requires Sized(p, st) && Step(p, st, code).Some?
    ensures Sized(p, Step(p, st, code).value.0)
  {
  }

  // ----- codes in groups -----

  /** A reader position: the bytes after the current group, the bits left in it, and the code width. */
  datatype Source = Source(rest: seq<byte>, chunk: seq<bool>, codeLen: nat, maxCode: nat)

  function BitsAhead(src: Source): nat {
    8 * |src.rest| + |src.chunk|
  }

  function MaxCodeFor(p: Params, n: nat): nat {
    if n == p.limitBits then p.Limit() else Pow2(n) - 1
  }

  function SetCodeLen(p: Params, src: Source, n: nat): Source {
    src.(codeLen := n, maxCode := MaxCodeFor(p, n))
  }

  function Min(a: nat, b: nat): nat {
    if a < b then a else b
  }

  /** Drops what is left of the group and takes the next one: `codeLen` bytes, or all there are. */
  function StartChunk(src: Source): (r: Source)
    ensures BitsAhead(r) <= BitsAhead(src) && r.codeLen == src.codeLen && r.maxCode == src.maxCode
  {
    var n := Min(src.codeLen, |src.rest|);
    src.(rest := src.rest[n..], chunk := BytesToBits(src.rest[..n]))
  }

  /** Moves to the next group when the current one is spent, or when the free code no longer
  fits: widening abandons the rest of the group. */
  function Refill(p: Params, src: Source, next: nat): (r: Source)
    ensures BitsAhead(r) <= BitsAhead(src) && src.codeLen <= r.codeLen
  {
    if next > src.maxCode then StartChunk(SetCodeLen(p, src, src.codeLen + 1))
    else if |src.chunk| < src.codeLen then StartChunk(src)
    else src
  }

  function ReadCode(p: Params, src: Source, next: nat): (r: (Option<nat>, Source))
    ensures src.codeLen <= r.1.codeLen
    ensures r.0.Some? && src.codeLen > 0 ==> BitsAhead(r.1) < BitsAhead(src)
  {
    var ready := Refill(p, src, next);
    if |ready.chunk| < ready.codeLen then (None, ready)
    else (Some(FromBits(ready.chunk[..ready.codeLen])), ready.(chunk := ready.chunk[ready.codeLen..]))
  }

  function StartBlock(p: Params, src: Source): (r: Source)
    ensures BitsAhead(r) <= BitsAhead(src) && r.codeLen > 0
  {
    StartChunk(SetCodeLen(p, src, MIN_CODE_LEN))
  }

  /** What one code does: end the reading, start a new block, or write a string. */
  datatype Turn = Stop(result: Result<seq<byte>>) | NewBlock(src: Source) | Write(st: Lzw, src: Source, s: Text)

  /** A stream that ends early is an error, except in compatibility mode. */
  function TakeTurn(p: Params, compat: bool, st: Lzw, src: Source): (t: Turn)
    requires src.codeLen > 0
    ensures t.Stop? && t.result.Ok? ==> t.result.value == []
    ensures !t.Stop? ==> t.src.codeLen > 0 && BitsAhead(t.src) < BitsAhead(src)
  {
    var (code, src') := ReadCode(p, src, NextFree(p, st));
    if code.None? then Stop(if compat then Ok([]) else Err("unexpected end of compressed data"))
    else if p.multi && code.value == CODE_END_BLOCK then NewBlock(StartBlock(p, src'))
    else
      match Step(p, st, code.value)
      case None => Stop(Err("bad code"))
      case Some((st', s)) => Write(st', src', s)
  }

  /** Putting decoded bytes in front of what is still to be decoded. */
  function After(done: seq<byte>, r: Result<seq<byte>>): Result<seq<byte>> {
    match r
    case Err(e) => Err(e)
    case Ok(more) => Ok(done + more)
  }

  /** The bytes a stream decodes to, until `left` of them are out. */
  function Decode(p: Params, compat: bool, st: Lzw, src: Source, left: int): Result<seq<byte>>
    requires src.codeLen > 0
    decreases BitsAhead(src)
  {
    if left <= 0 then Ok([])
    else
      match TakeTurn(p, compat, st, src)
      case Stop(r) => r
      case NewBlock(src') => Decode(p, compat, EMPTY, src', left)
      case Write(st', src', s) => After(s, Decode(p, compat, st', src', left - |s|))
  }

  /** Where a reader stands before the first code: the width is the minimum, with the plain maximum code. */
  function Start(data: seq<byte>): Source {
    StartChunk(Source(data, [], MIN_CODE_LEN, Pow2(MIN_CODE_LEN) - 1))
  }

  // ----- the 8-byte header -----

  const HDR_SIZE := 8

  datatype Header = Header(length: nat, algo: nat, version: nat, config: nat)

  function ParseHeader(data: seq<byte>): Result<Header> {
    if |data| < HDR_SIZE then Err("header truncated")
    else if data[5..7] != [0x1f, 0x9d] then Err("bad SAPCOMPRESS magic")
    else Ok(Header(LittleEndian(data[..4]), data[4] % 16, data[4] / 16, data[7]))
  }

  function HeaderBytes(h: Header): (b: seq<byte>)
    requires h.length < 0x1_0000_0000 && h.algo < 16 && h.version < 16 && h.config < 256
    ensures |b| == HDR_SIZE
  {
    LittleEndianBytes(h.length, 4) + [h.algo + 16 * h.version, 0x1f, 0x9d, h.config]
  }

  /** A header in front of any bytes is read back, and the bytes are what comes after it. */
  lemma {:induction false} HeaderBack(h: Header, body: seq<byte>)
    requires h.length < 0x1_0000_0000 && h.algo < 16 && h.version < 16 && h.config < 256
    ensures ParseHeader(HeaderBytes(h) + body) == Ok(h) && (HeaderBytes(h) + body)[HDR_SIZE..] == body
  {
    hide LittleEndian, LittleEndianBytes;
    var l, data := LittleEndianBytes(h.length, 4), HeaderBytes(h) + body;
    Pow256Values();
    LittleEndianRoundTrip(h.length, 4);
    assert data[..4] == l && data[5..7] == [0x1f, 0x9d];
  }

  /** The LZC stream behind a header: its declared length, parameters and payload. */
  function OpenLzc(data: seq<byte>): Result<(nat, Params, seq<byte>)> {
    match ParseHeader(data)
    case Err(e) => Err(e)
    case Ok(h) =>
      var p := Params(h.config / 128 == 1, h.config % 32);
      if h.algo != 1 then Err("expected LZC algo")
      else if !p.Valid() then Err("code_len_limit out of range")
      else Ok((h.length, p, data[HDR_SIZE..]))
  }

  /** What the LZC decompressor returns for a block. */
  function Decompressed(data: seq<byte>, compat: bool): Result<seq<byte>> {
    match OpenLzc(data)
    case Err(e) => Err(e)
    case Ok((length, p, payload)) => Decode(p, compat, EMPTY, Start(payload), length)
  }
}
