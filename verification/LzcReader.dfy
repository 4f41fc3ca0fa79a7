/** The LZC decompressor of `compress.py`: a chain table and a reused chain buffer, proved to
decode exactly what `LzwSpec.Decode` says. */
module LzcReader {
  import opened Bits
  import opened BitReader
  import opened LzwSpec

  /** An entry of the chain table: parent code, last byte, and distance from the first byte. */
  datatype CodeDef = CodeDef(base: nat, next: byte, chainIndex: nat)

  /** The chain entry of code `First() + i` spells `entries[i]`. */
  ghost predicate Spells(p: Params, entries: seq<Text>, codes: map<nat, CodeDef>, i: nat)
    requires i < |entries|
  {
    && p.First() + i in codes
    && var d := codes[p.First() + i];
       && Known(p, entries, d.base)
       && entries[i] == TextOf(p, entries, d.base) + [d.next]
       && d.chainIndex == |entries[i]| - 1
  }

  /** `codes` holds every current entry. Entries of an earlier block may linger above the free code. */
  ghost predicate Chains(p: Params, entries: seq<Text>, codes: map<nat, CodeDef>) {
    && (forall c :: c in codes ==> c >= p.First())
    && forall i :: 0 <= i < |entries| ==> Spells(p, entries, codes, i)
  }

  function ChainIndexOf(codes: map<nat, CodeDef>, code: nat): nat {
    if code in codes then codes[code].chainIndex else 0
  }

  lemma {:induction false} ChainIndexIsDepth(p: Params, entries: seq<Text>, codes: map<nat, CodeDef>, code: nat)
    requires Chains(p, entries, codes) && Known(p, entries, code)
    ensures ChainIndexOf(codes, code) == |TextOf(p, entries, code)| - 1
  {
    if code >= 256 {
      assert Spells(p, entries, codes, code - p.First());
    }
  }

  lemma {:induction false} ChainsExtend(p: Params, st: Lzw, codes: map<nat, CodeDef>, prevCode: nat, s: Text)
    requires Chains(p, st.entries, codes) && st.prev.Some?
    requires Known(p, st.entries, prevCode) && TextOf(p, st.entries, prevCode) == st.prev.value
    ensures Chains(p, st.entries + [st.prev.value + [s[0]]],
                   codes[NextFree(p, st) := CodeDef(prevCode, s[0], |st.prev.value|)])
  {
    var entries := st.entries + [st.prev.value + [s[0]]];
    var codes' := codes[NextFree(p, st) := CodeDef(prevCode, s[0], |st.prev.value|)];
    forall i | 0 <= i < |entries|
      ensures Spells(p, entries, codes', i)
    {
      if i < |st.entries| {
        assert Spells(p, st.entries, codes, i);
        KnownExtend(p, st.entries, entries[|st.entries|], codes[p.First() + i].base);
      } else {
        KnownExtend(p, st.entries, entries[i], prevCode);
      }
    }
  }

  /** Everything the reading loop knows: the chain table spells the dictionary `st`, and the
  buffer starts with the previous code's string. */
  ghost predicate Tracks(p: Params, st: Lzw, codes: map<nat, CodeDef>, buf: seq<byte>, nextFree: nat, prevCode: Option<nat>) {
    && nextFree == NextFree(p, st) && Sized(p, st)
    && |buf| == p.Limit() && p.Valid()
    && Chains(p, st.entries, codes)
    && (st.prev.Some? <==> prevCode.Some?)
    && (prevCode.Some? ==> Known(p, st.entries, prevCode.value) &&
                           TextOf(p, st.entries, prevCode.value) == st.prev.value &&
                           st.prev.value <= buf)
  }

  /** Storing a new entry for the free code, which the source does after writing a string. */
  function Store(p: Params, codes: map<nat, CodeDef>, nextFree: nat, prevCode: Option<nat>, first: byte): map<nat, CodeDef> {
    if prevCode.Some? && nextFree < p.Limit() then
      codes[nextFree := CodeDef(prevCode.value, first, ChainIndexOf(codes, prevCode.value) + 1)]
    else
      codes
  }

  lemma {:induction false} TracksStep(p: Params, st: Lzw, codes: map<nat, CodeDef>, buf: seq<byte>, nextFree: nat, prevCode: Option<nat>,
                   code: nat, buf': seq<byte>)
    requires Tracks(p, st, codes, buf, nextFree, prevCode)
    requires Lookup(p, st, code).Some? && Lookup(p, st, code).value <= buf' && |buf'| == |buf|
    ensures var s := Lookup(p, st, code).value;
            Tracks(p, Learn(p, st, s), Store(p, codes, nextFree, prevCode, s[0]), buf',
                   if prevCode.Some? && nextFree < p.Limit() then nextFree + 1 else nextFree, Some(code))
  {
    var s := Lookup(p, st, code).value;
    SizedStep(p, st, code);
    if prevCode.Some? && nextFree < p.Limit() {
      ChainIndexIsDepth(p, st.entries, codes, prevCode.value);
      ChainsExtend(p, st, codes, prevCode.value, s);
      if Known(p, st.entries, code) {
        KnownExtend(p, st.entries, st.prev.value + [s[0]], code);
      }
    }
  }

  lemma {:induction false} AfterNothing(r: Result<seq<byte>>)
    ensures After([], r) == r
  {
    if r.Ok? {
      assert [] + r.value == r.value;
    }
  }

  lemma {:induction false} AfterAfter(done: seq<byte>, s: seq<byte>, r: Result<seq<byte>>)
    ensures After(done + s, r) == After(done, After(s, r))
  {
    if r.Ok? {
      assert done + s + r.value == done + (s + r.value);
    }
  }

  lemma {:induction false} TracksInit(p: Params, buf: seq<byte>)
    requires p.Valid() && |buf| == p.Limit()
    ensures Tracks(p, EMPTY, map[], buf, p.First(), None)
  {
    SizedInit(p);
  }

  /** A block reset keeps the stale entries: none of them is a current one. */
  lemma {:induction false} TracksReset(p: Params, st: Lzw, codes: map<nat, CodeDef>, buf: seq<byte>, nextFree: nat, prevCode: Option<nat>)
    requires Tracks(p, st, codes, buf, nextFree, prevCode)
    ensures Tracks(p, EMPTY, codes, buf, p.First(), None)
  {
    SizedInit(p);
  }

  /** One turn of the reading loop, on the specification. */
  lemma {:induction false} DecodeTurn(p: Params, compat: bool, st: Lzw, src: Source, left: int, done: seq<byte>)
    requires src.codeLen > 0
    ensures left <= 0 ==> After(done, Decode(p, compat, st, src, left)) == Ok(done)
    ensures left > 0 ==>
              match TakeTurn(p, compat, st, src)
              case Stop(r) => Decode(p, compat, st, src, left) == r
              case NewBlock(src') => Decode(p, compat, st, src, left) == Decode(p, compat, EMPTY, src', left)
              case Write(st', src', s) =>
                After(done, Decode(p, compat, st, src, left)) ==
                After(done + s, Decode(p, compat, st', src', left - |s|))
  {
    hide TakeTurn;
    assert done + [] == done;
    match TakeTurn(p, compat, st, src)
    case Write(st', src', s) => AfterAfter(done, s, Decode(p, compat, st', src', left - |s|));
    case _ =>
  }

  /** What one code did: ended the reading, reset the block, or spelled `chainLen` bytes. */
  datatype ReadResult = End(r: Result<seq<byte>>) | Reset | Text(code: nat, chainLen: nat)

  class LzcDecompress {
    const compat: bool
    var params: Params
    var reader: Reader
    var chunk: Reader?
    var codeLen: nat
    var maxCode: nat
    var nextFree: nat
    var written: seq<byte>
    ghost var Repr: set<object>

    ghost predicate Valid()
      reads this, Repr
    {
      && this in Repr && reader in Repr && reader.Valid() && reader.bitsCount == 0
      && (chunk != null ==> chunk in Repr && chunk.Valid() && chunk != reader)
      && codeLen > 0
    }

    ghost function Src(): Source
      reads this, Repr
      requires Valid()
    {
      Source(reader.data[reader.pos..], if chunk == null then [] else chunk.Rest(), codeLen, maxCode)
    }

    constructor (data: seq<byte>, compat: bool)
      ensures Valid() && fresh(Repr)
      ensures this.compat == compat && written == [] && reader.data == data && reader.pos == 0 && chunk == null
      ensures Src() == Source(data, [], MIN_CODE_LEN, Pow2(MIN_CODE_LEN) - 1)
    {
      this.compat := compat;
      params := Params(true, 13);
      var r := new Reader(data);
      reader := r;
      chunk := null;
      codeLen := MIN_CODE_LEN;
      maxCode := Pow2(MIN_CODE_LEN) - 1;
      nextFree := 0;
      written := [];
      Repr := {this, r};
      new;
      assert data[0..] == data;
    }

    method SetCodeLen(n: nat)
      requires Valid() && n > 0
      modifies this`codeLen, this`maxCode
      ensures Valid() && Src() == LzwSpec.SetCodeLen(params, old(Src()), n)
    {
      codeLen := n;
      maxCode := MaxCodeFor(params, n);
    }

    method StartChunk()
      requires Valid()
      modifies Repr
      ensures Valid() && fresh(Repr - old(Repr))
      ensures Src() == LzwSpec.StartChunk(old(Src()))
      ensures params == old(params) && nextFree == old(nextFree) && written == old(written)
    {
      hide ToBits, Packed, FromBits, Pow2;
      var n := Min(codeLen, reader.BytesLeft());
      ghost var src := Src();
      assert n == 0 ==> src.rest[0..] == src.rest && BytesToBits(src.rest[..0]) == [];
      if n > 0 {
        var part := reader.Read(n);
        assert part.value == src.rest[..n] && reader.data[reader.pos..] == src.rest[n..];
        var c := new Reader(part.value);
        chunk := c;
        Repr := Repr + {c};
      } else {
        chunk := null;
      }
    }

    method StartBlock()
      requires Valid()
      modifies Repr
      ensures Valid() && fresh(Repr - old(Repr))
      ensures nextFree == params.First() && Src() == LzwSpec.StartBlock(params, old(Src()))
      ensures params == old(params) && written == old(written)
    {
      nextFree := params.First();
      SetCodeLen(MIN_CODE_LEN);
      StartChunk();
    }

    method Refill()
      requires Valid()
      modifies Repr
      ensures Valid() && fresh(Repr - old(Repr))
      ensures Src() == LzwSpec.Refill(params, old(Src()), nextFree)
      ensures params == old(params) && nextFree == old(nextFree) && written == old(written)
    {
      hide ToBits, Packed, FromBits, Pow2, LzwSpec.StartChunk, MaxCodeFor;
      if chunk == null || chunk.BitsLeft() < codeLen || nextFree > maxCode {
        if nextFree > maxCode {
          SetCodeLen(codeLen + 1);
        }
        StartChunk();
      }
    }

    method ReadCode() returns (code: Option<nat>)
      requires Valid()
      modifies Repr
      ensures Valid() && fresh(Repr - old(Repr))
      ensures code == LzwSpec.ReadCode(params, old(Src()), nextFree).0
      ensures Src() == LzwSpec.ReadCode(params, old(Src()), nextFree).1
      ensures params == old(params) && nextFree == old(nextFree) && written == old(written)
    {
      Refill();
      if chunk == null || chunk.BitsLeft() < codeLen {
        return None;
      }
      code := chunk.ReadBits(codeLen);
    }

    /** Reads the header; the payload is what stays in the reader. */
    method ReadHeader() returns (r: Result<nat>)
      requires Valid() && reader.pos == 0 && chunk == null
      modifies Repr
      ensures Valid() && Repr == old(Repr)
      ensures match OpenLzc(reader.data)
              case Err(e) => r == Err(e)
              case Ok((length, p, payload)) =>
                r == Ok(length) && params == p && Src() == old(Src()).(rest := payload)
      ensures reader == old(reader) && written == old(written) && chunk == null
    {
      var header := reader.Read(HDR_SIZE);
      if header.None? {
        return Err("header truncated");
      }
      var parsed := ParseHeader(header.value);
      assert header.value == reader.data[..8];
      assert header.value[5..7] == reader.data[5..7] && header.value[..4] == reader.data[..4];
      if parsed.Err? {
        return Err(parsed.reason);
      }
      if parsed.value.algo != 1 {
        return Err("expected LZC algo");
      }
      var p := Params(parsed.value.config / 128 == 1, parsed.value.config % 32);
      if !p.Valid() {
        return Err("code_len_limit out of range");
      }
      params := p;
      return Ok(parsed.value.length);
    }

    /** Walks a known code back to its literal, filling the buffer from the end. */
    static method Resolve(p: Params, ghost entries: seq<Text>, codes: map<nat, CodeDef>, chainBuf: array<byte>,
                          nextFree: nat, code: nat)
      returns (chainLen: nat)
      requires Chains(p, entries, codes) && Known(p, entries, code) && nextFree == p.First() + |entries|
      requires |TextOf(p, entries, code)| <= chainBuf.Length
      modifies chainBuf
      ensures chainLen == |TextOf(p, entries, code)|
      ensures chainBuf[..chainLen] == TextOf(p, entries, code)
    {
      ghost var text := TextOf(p, entries, code);
      var resolve: nat := code;
      chainLen := 0;
      while resolve >= 256
        invariant Known(p, entries, resolve) && TextOf(p, entries, resolve) <= text
        invariant chainLen == |text| - |TextOf(p, entries, resolve)|
        invariant chainBuf[|TextOf(p, entries, resolve)|..|text|] == text[|TextOf(p, entries, resolve)|..]
        decreases |TextOf(p, entries, resolve)|
      {
        assert Spells(p, entries, codes, resolve - p.First());
        var d := codes[resolve];
        chainBuf[d.chainIndex] := d.next;
        chainLen := chainLen + 1;
        resolve := d.base;
      }
      chainBuf[0] := resolve;
      chainLen := chainLen + 1;
      assert chainBuf[..|text|] == [chainBuf[0]] + chainBuf[1..|text|];
    }

    /** The chain buffer after a code holds that code's string; `None` for a code the stream cannot have. */
    static method Spell(p: Params, ghost st: Lzw, codes: map<nat, CodeDef>, chainBuf: array<byte>, nextFree: nat,
                        code: nat, prevCode: Option<nat>)
      returns (chainLen: Option<nat>)
      requires Tracks(p, st, codes, chainBuf[..], nextFree, prevCode)
      requires code < p.Limit()
      modifies chainBuf
      ensures p.Limit() == chainBuf.Length
      ensures chainLen.Some? <==> Lookup(p, st, code).Some?
      ensures chainLen.Some? ==>
                var s := Lookup(p, st, code).value;
                chainLen.value == |s| && |s| <= chainBuf.Length && chainBuf[..|s|] == s
    {
      if prevCode == Some(code) {
        ChainIndexIsDepth(p, st.entries, codes, code);
        return Some(ChainIndexOf(codes, code) + 1);
      }
      if code < 256 || (p.First() <= code < nextFree) {
        var n := Resolve(p, st.entries, codes, chainBuf, nextFree, code);
        return Some(n);
      }
      if code == nextFree && prevCode.Some? {
        ChainIndexIsDepth(p, st.entries, codes, prevCode.value);
        var prevCi := ChainIndexOf(codes, prevCode.value);
        chainBuf[prevCi + 1] := chainBuf[0];
        assert chainBuf[..prevCi + 2] == chainBuf[..prevCi + 1] + [chainBuf[prevCi + 1]];
        return Some(prevCi + 2);
      }
      return None;
    }

    /** Reads one code and spells its string into the buffer. */
    method ReadText(ghost st: Lzw, codes: map<nat, CodeDef>, chainBuf: array<byte>, prevCode: Option<nat>)
      returns (read: ReadResult)
      requires Valid() && chainBuf !in Repr
      requires Tracks(params, st, codes, chainBuf[..], nextFree, prevCode)
      modifies Repr, chainBuf
      ensures Valid() && fresh(Repr - old(Repr)) && chainBuf !in Repr
      ensures params == old(params) && written == old(written)
      ensures match TakeTurn(params, compat, st, old(Src()))
              case Stop(r) => read == End(r)
              case NewBlock(src) =>
                read == Reset && Src() == src && nextFree == params.First() &&
                Tracks(params, EMPTY, codes, chainBuf[..], nextFree, None)
              case Write(st', src, s) =>
                && read.Text? && read.chainLen == |s| && |s| <= chainBuf.Length && chainBuf[..|s|] == s
                && Lookup(params, st, read.code) == Some(s) && st' == Learn(params, st, s)
                && Src() == src && nextFree == old(nextFree)
    {
      hide LzwSpec.Refill, LzwSpec.StartChunk, Chains, Sized, Spells;
      var code := ReadCode();
      if params.multi && code == Some(CODE_END_BLOCK) {
        StartBlock();
        TracksReset(params, st, codes, chainBuf[..], old(nextFree), prevCode);
        return Reset;
      }
      if code.None? {
        return End(if compat then Ok([]) else Err("unexpected end of compressed data"));
      }
      if code.value >= params.Limit() {
        return End(Err("bad code"));
      }
      LimitBounds(params);
      var chainLen := Spell(params, st, codes, chainBuf, nextFree, code.value, prevCode);
      if chainLen.None? {
        return End(Err("bad code"));
      }
      return Text(code.value, chainLen.value);
    }

    /** A text read: write it, and enter the text before it, one byte longer, under the free code. */
    method TakeText(code: nat, text: seq<byte>, codes: map<nat, CodeDef>, prevCode: Option<nat>,
                    ghost st: Lzw, ghost was: seq<byte>, ghost buf: seq<byte>)
      returns (stored: map<nat, CodeDef>)
      requires Tracks(params, st, codes, was, nextFree, prevCode)
      requires Lookup(params, st, code) == Some(text) && text <= buf && |buf| == |was|
      modifies `written, `nextFree
      ensures written == old(written) + text
      ensures Tracks(params, Learn(params, st, text), stored, buf, nextFree, Some(code))
    {
      hide Tracks, Learn, Lookup;
      TracksStep(params, st, codes, was, nextFree, prevCode, code, buf);
      written := written + text;
      stored := Store(params, codes, nextFree, prevCode, text[0]);
      if prevCode.Some? && nextFree < params.Limit() {
        nextFree := nextFree + 1;
      }
    }

    /** The reading loop, from an empty dictionary. */
    method ReadAll(length: nat) returns (r: Result<seq<byte>>)
      requires Valid() && params.Valid() && written == [] && nextFree == params.First()
      modifies Repr
      ensures r == Decode(old(params), compat, EMPTY, old(Src()), length)
    {
      hide Decode, TakeTurn, Tracks, Store, Learn, Lookup, ToBits, FromBits, Packed, Pow2, Shl, RestOf, BytesToBits;
      var p := params;
      var decompLeft: int := length;
      var codes: map<nat, CodeDef> := map[];
      var chainBuf := new byte[p.Limit()];
      var prevCode: Option<nat> := None;
      ghost var st := EMPTY;
      ghost var goal := Decode(p, compat, st, Src(), decompLeft);
      AfterNothing(goal);
      TracksInit(p, chainBuf[..]);
      while decompLeft > 0
        invariant Valid() && fresh(Repr - old(Repr)) && chainBuf !in Repr && fresh(chainBuf)
        invariant params == p && Tracks(p, st, codes, chainBuf[..], nextFree, prevCode)
        invariant goal == After(written, Decode(p, compat, st, Src(), decompLeft))
        decreases BitsAhead(Src())
      {
        ghost var buf := chainBuf[..];
        DecodeTurn(p, compat, st, Src(), decompLeft, written);
        var read := ReadText(st, codes, chainBuf, prevCode);
        match read
        case End(Err(e)) =>
          return Err(e);
        case End(Ok(none)) =>
          assert written + none == written;
          return Ok(written);
        case Reset =>
          prevCode := None;
          st := EMPTY;
        case Text(code, chainLen) =>
          codes := TakeText(code, chainBuf[..chainLen], codes, prevCode, st, buf, chainBuf[..]);
          st := Learn(p, st, chainBuf[..chainLen]);
          decompLeft := decompLeft - chainLen;
          prevCode := Some(code);
      }
      DecodeTurn(p, compat, st, Src(), decompLeft, written);
      return Ok(written);
    }

    /** The decompressor refines the string-dictionary reading of the stream, errors included. */
    method Decompress() returns (r: Result<seq<byte>>)
      requires Valid() && reader.pos == 0 && chunk == null && written == []
      requires codeLen == MIN_CODE_LEN && maxCode == Pow2(MIN_CODE_LEN) - 1
      modifies Repr
      ensures r == Decompressed(old(reader.data), compat)
    {
      hide Decode, ParseHeader, LzwSpec.StartChunk, ToBits, Packed, Pow2;
      var header := ReadHeader();
      if header.Err? {
        return Err(header.reason);
      }
      nextFree := params.First();
      StartChunk();
      r := ReadAll(header.value);
    }
  }
}
