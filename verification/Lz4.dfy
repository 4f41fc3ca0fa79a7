/** LZ4 blocks and the SAP LZ4 frame of `compress.py`. */
module Lz4 {
  import opened Bits
  import opened Words
  import opened Lz77

  // ----- the decoder -----

  /** Length extension: bytes are added up to and including the first that is not 255. A stream that
  ends inside the extension ends it. */
  function ReadExtra(src: seq<byte>, base: nat): (r: (nat, seq<byte>))
    ensures |r.1| <= |src|
  {
    if src == [] then (base, [])
    else if src[0] != 255 then (base + src[0], src[1..])
    else ReadExtra(src[1..], base + 255)
  }

  function ReadLength(nibble: nat, src: seq<byte>): (r: (nat, seq<byte>))
    ensures |r.1| <= |src|
  {
    if nibble == 15 then ReadExtra(src, 15) else (nibble, src)
  }

  /** What one sequence does: end the block, or leave more to decode behind a longer output. */
  datatype Turn = Stop(result: Result<seq<byte>>) | More(rest: seq<byte>, out: seq<byte>)

  /** The match of a sequence, after its literals. */
  function TakeMatch(nibble: nat, src: seq<byte>, out: seq<byte>): (t: Turn)
    ensures t.More? ==> |t.rest| <= |src|
  {
    if src == [] then Stop(Ok(out))
    else if |src| < 2 then Stop(Err("offset bytes truncated"))
    else
      var offset := LittleEndian(src[..2]);
      if offset == 0 then Stop(Err("match offset 0"))
      else
        var (extra, rest) := ReadLength(nibble, src[2..]);
        if offset > |out| then Stop(Err("offset exceeds output"))
        else More(rest, CopyFrom(out, offset, extra + 4))
  }

  function TakeSequence(src: seq<byte>, out: seq<byte>): (t: Turn)
    requires src != []
    ensures t.More? ==> |t.rest| < |src|
  {
    var (litLen, rest) := ReadLength(src[0] / 16, src[1..]);
    if |rest| < litLen then Stop(Err("literal overrun"))
    else TakeMatch(src[0] % 16, rest[litLen..], out + rest[..litLen])
  }

  /** Decoding the rest of a block behind the output so far. */
  function DecodeFrom(src: seq<byte>, out: seq<byte>): Result<seq<byte>>
    decreases |src|
  {
    if src == [] then Ok(out)
    else
      match TakeSequence(src, out)
      case Stop(r) => r
      case More(rest, out') => DecodeFrom(rest, out')
  }

  lemma {:induction false} LittleEndian2(b: seq<byte>)
    requires |b| == 2
    ensures LittleEndian(b) == b[0] as int + 256 * b[1] as int
  {
    assert LittleEndian(b[1..]) == b[1] as int + 256 * LittleEndian(b[1..][1..]);
  }

  /** The 4-bit length with its extension bytes. */
  method TakeLength(src: seq<byte>, start: nat, nibble: nat) returns (length: nat, pos: nat)
    requires start <= |src| && nibble <= 15
    ensures start <= pos <= |src|
    ensures ReadLength(nibble, src[start..]) == (length, src[pos..])
  {
    length, pos := nibble, start;
    if nibble == 15 {
      while pos < |src|
        invariant start <= pos <= |src|
        invariant ReadExtra(src[start..], 15) == ReadExtra(src[pos..], length)
      {
        var extra := src[pos];
        assert src[pos..][1..] == src[pos + 1..];
        pos := pos + 1;
        length := length + extra;
        if extra != 255 {
          return;
        }
      }
    }
  }

  /** The overlapping copy: bytes written by this match may be read by it. */
  method CopyMatch(out: seq<byte>, offset: nat, matchLen: nat) returns (out': seq<byte>)
    requires 0 < offset <= |out|
    ensures out' == CopyFrom(out, offset, matchLen)
  {
    var copyFrom := |out| - offset;
    out' := out;
    for i := 0 to matchLen
      invariant out' == CopyFrom(out, offset, i) && |out'| == |out| + i
    {
      out' := out' + [out'[copyFrom + i]];
    }
  }

  /** Offset, match length and copy. */
  method ReadMatch(src: seq<byte>, start: nat, nibble: nat, out: seq<byte>) returns (t: Turn, ghost pos: nat)
    requires start <= |src| && nibble <= 15
    ensures t == TakeMatch(nibble, src[start..], out)
    ensures t.More? ==> start <= pos <= |src| && t.rest == src[pos..]
  {
    pos := start;
    if start >= |src| {
      return Stop(Ok(out)), pos;
    }
    if start + 2 > |src| {
      return Stop(Err("offset bytes truncated")), pos;
    }
    assert src[start..][..2] == [src[start], src[start + 1]] && src[start..][2..] == src[start + 2..];
    LittleEndian2([src[start], src[start + 1]]);
    hide LittleEndian, ReadLength, CopyFrom;
    var offset: nat := src[start] as int + 256 * src[start + 1] as int;
    if offset == 0 {
      return Stop(Err("match offset 0")), pos;
    }
    var extra, afterMatch := TakeLength(src, start + 2, nibble);
    if offset > |out| {
      return Stop(Err("offset exceeds output")), pos;
    }
    var out' := CopyMatch(out, offset, extra + 4);
    return More(src[afterMatch..], out'), afterMatch;
  }

  /** The block decoder, errors included. `max_output` plays no part in it. */
  method Lz4BlockDecompress(src: seq<byte>) returns (r: Result<seq<byte>>)
    ensures r == DecodeFrom(src, [])
  {
    var out: seq<byte> := [];
    var left := src;
    hide TakeMatch, ReadLength;
    while left != []
      invariant DecodeFrom(src, []) == DecodeFrom(left, out)
      decreases |left|
    {
      var token: nat := left[0];
      var litLen, pos := TakeLength(left, 1, token / 16);
      if pos + litLen > |left| {
        return Err("literal overrun");
      }
      assert left[pos..][..litLen] == left[pos..pos + litLen] && left[pos..][litLen..] == left[pos + litLen..];
      var t, afterMatch := ReadMatch(left, pos + litLen, token % 16, out + left[pos..pos + litLen]);
      if t.Stop? {
        return t.result;
      }
      left, out := t.rest, t.out;
    }
    return Ok(out);
  }

  // ----- well-formed blocks -----

  /** Literals, then a match. */
  datatype Sequence = Sequence(literals: seq<byte>, offset: nat, matchLen: nat)

  predicate SequencesOk(out: seq<byte>, seqs: seq<Sequence>)
    decreases |seqs|
  {
    seqs == [] ||
    (&& seqs[0].matchLen >= 4 && 0 < seqs[0].offset < 0x1_0000
     && seqs[0].offset <= |out + seqs[0].literals|
     && SequencesOk(CopyFrom(out + seqs[0].literals, seqs[0].offset, seqs[0].matchLen), seqs[1..]))
  }

  /** The LZ77 meaning of a block: sequences, then a literal-only tail if there is one. */
  function Meaning(out: seq<byte>, seqs: seq<Sequence>, tail: Option<seq<byte>>): seq<byte>
    requires SequencesOk(out, seqs)
    decreases |seqs|
  {
    if seqs == [] then (if tail.Some? then out + tail.value else out)
    else Meaning(CopyFrom(out + seqs[0].literals, seqs[0].offset, seqs[0].matchLen), seqs[1..], tail)
  }

  function Nibble(n: nat): (d: nat)
    ensures d <= 15
  {
    if n >= 15 then 15 else n
  }

  function ExtraBytes(n: nat): seq<byte> {
    if n < 255 then [n] else [255] + ExtraBytes(n - 255)
  }

  function LengthBytes(n: nat): seq<byte> {
    if n >= 15 then ExtraBytes(n - 15) else []
  }

  function Token(litLen: nat, matchExtra: nat): byte {
    16 * Nibble(litLen) + Nibble(matchExtra)
  }

  function TailBytes(tail: Option<seq<byte>>): seq<byte> {
    if tail.None? then [] else [Token(|tail.value|, 0)] + (LengthBytes(|tail.value|) + tail.value)
  }

  function SequenceBytes(s: Sequence, rest: seq<byte>): seq<byte>
    requires s.matchLen >= 4 && s.offset < 0x1_0000
  {
    [Token(|s.literals|, s.matchLen - 4)] +
    (LengthBytes(|s.literals|) + (s.literals + (LittleEndianBytes(s.offset, 2) + (LengthBytes(s.matchLen - 4) + rest))))
  }

  function Serialise(out: seq<byte>, seqs: seq<Sequence>, tail: Option<seq<byte>>): seq<byte>
    requires SequencesOk(out, seqs)
    decreases |seqs|
  {
    if seqs == [] then TailBytes(tail)
    else
      var out' := CopyFrom(out + seqs[0].literals, seqs[0].offset, seqs[0].matchLen);
      SequenceBytes(seqs[0], Serialise(out', seqs[1..], tail))
  }

  lemma {:induction false} ExtraBack(n: nat, base: nat, rest: seq<byte>)
    ensures ReadExtra(ExtraBytes(n) + rest, base) == (base + n, rest)
    decreases n
  {
    var src := ExtraBytes(n) + rest;
    if n < 255 {
      assert src[1..] == rest;
    } else {
      assert src[1..] == ExtraBytes(n - 255) + rest;
      ExtraBack(n - 255, base + 255, rest);
    }
  }

  lemma {:induction false} LengthBack(n: nat, rest: seq<byte>)
    ensures ReadLength(Nibble(n), LengthBytes(n) + rest) == (n, rest)
  {
    if n >= 15 {
      ExtraBack(n - 15, 15, rest);
    } else {
      assert [] + rest == rest;
    }
  }

  lemma {:induction false} SequenceBack(s: Sequence, rest: seq<byte>, out: seq<byte>)
    requires s.matchLen >= 4 && 0 < s.offset < 0x1_0000 && s.offset <= |out + s.literals|
    ensures DecodeFrom(SequenceBytes(s, rest), out) == DecodeFrom(rest, CopyFrom(out + s.literals, s.offset, s.matchLen))
  {
    var b4 := LengthBytes(s.matchLen - 4) + rest;
    var b3 := LittleEndianBytes(s.offset, 2) + b4;
    var b2 := s.literals + b3;
    var b1 := LengthBytes(|s.literals|) + b2;
    var token := Token(|s.literals|, s.matchLen - 4);
    assert ([token] + b1)[1..] == b1 && token / 16 == Nibble(|s.literals|) && token % 16 == Nibble(s.matchLen - 4);
    LengthBack(|s.literals|, b2);
    assert b2[..|s.literals|] == s.literals && b2[|s.literals|..] == b3;
    MatchBack(s, rest, out + s.literals);
    hide CopyFrom, TakeMatch, LittleEndianBytes, ReadLength, LengthBytes, Nibble, Token;
    assert TakeSequence([token] + b1, out) == More(rest, CopyFrom(out + s.literals, s.offset, s.matchLen));
  }

  lemma {:induction false} MatchBack(s: Sequence, rest: seq<byte>, out: seq<byte>)
    requires s.matchLen >= 4 && 0 < s.offset < 0x1_0000 && s.offset <= |out|
    ensures TakeMatch(Nibble(s.matchLen - 4), LittleEndianBytes(s.offset, 2) + (LengthBytes(s.matchLen - 4) + rest), out)
            == More(rest, CopyFrom(out, s.offset, s.matchLen))
  {
    var b4 := LengthBytes(s.matchLen - 4) + rest;
    var b3 := LittleEndianBytes(s.offset, 2) + b4;
    LengthBack(s.matchLen - 4, rest);
    assert b3[..2] == LittleEndianBytes(s.offset, 2) && b3[2..] == b4;
    Pow256Values();
    LittleEndianRoundTrip(s.offset, 2);
    hide CopyFrom, LittleEndian, LittleEndianBytes, ReadLength, LengthBytes, Nibble;
  }

  lemma {:induction false} TailBack(tail: Option<seq<byte>>, out: seq<byte>)
    ensures DecodeFrom(TailBytes(tail), out) == Ok(if tail.Some? then out + tail.value else out)
  {
    if tail.Some? {
      var src := TailBytes(tail);
      var lits := tail.value;
      assert src[1..] == LengthBytes(|lits|) + lits;
      LengthBack(|lits|, lits);
      assert src[0] / 16 == Nibble(|lits|);
      assert lits[..|lits|] == lits && lits[|lits|..] == [];
    }
  }

  /** Decoding the serialisation of any valid list of sequences gives its LZ77 meaning. */
  lemma {:induction false} SerialiseBack(out: seq<byte>, seqs: seq<Sequence>, tail: Option<seq<byte>>)
    requires SequencesOk(out, seqs)
    ensures DecodeFrom(Serialise(out, seqs, tail), out) == Ok(Meaning(out, seqs, tail))
    decreases |seqs|
  {
    if seqs == [] {
      TailBack(tail, out);
    } else {
      var s := seqs[0];
      var out' := CopyFrom(out + s.literals, s.offset, s.matchLen);
      SequenceBack(s, Serialise(out', seqs[1..], tail), out);
      SerialiseBack(out', seqs[1..], tail);
    }
  }

  // ----- the SAP frame -----

  const MARKER: byte := 0x34

  function FrameMeaning(data: seq<byte>): Result<seq<byte>> {
    if |data| < 9 || data[0] != MARKER then Err("bad frame header")
    else
      var uncompLen, compLen := LittleEndian(data[1..5]), LittleEndian(data[5..9]);
      if |data| < 9 + compLen then Err("frame truncated")
      else
        match DecodeFrom(data[9..9 + compLen], [])
        case Err(e) => Err(e)
        case Ok(out) => if |out| != uncompLen then Err("wrong length") else Ok(out)
  }

  method SapLz4FrameDecompress(data: seq<byte>) returns (r: Result<seq<byte>>)
    ensures r == FrameMeaning(data)
    ensures r.Ok? ==> |data| >= 9 && |r.value| == LittleEndian(data[1..5])
  {
    if |data| < 9 || data[0] != MARKER {
      return Err("bad frame header");
    }
    var uncompLen, compLen := LittleEndian(data[1..5]), LittleEndian(data[5..9]);
    if |data| < 9 + compLen {
      return Err("frame truncated");
    }
    r := Lz4BlockDecompress(data[9..9 + compLen]);
    if r.Ok? && |r.value| != uncompLen {
      return Err("wrong length");
    }
  }

  /** A frame around a valid block, with whatever follows it, gives the block's meaning. */
  lemma {:induction false} FrameBack(seqs: seq<Sequence>, tail: Option<seq<byte>>, trailing: seq<byte>)
    requires SequencesOk([], seqs)
    requires |Serialise([], seqs, tail)| < 0x1_0000_0000 && |Meaning([], seqs, tail)| < 0x1_0000_0000
    ensures var block := Serialise([], seqs, tail);
            FrameMeaning([MARKER] + LittleEndianBytes(|Meaning([], seqs, tail)|, 4) + LittleEndianBytes(|block|, 4) + block + trailing)
            == Ok(Meaning([], seqs, tail))
  {
    SerialiseBack([], seqs, tail);
    FrameParts(Serialise([], seqs, tail), Meaning([], seqs, tail), trailing);
  }

  lemma {:induction false} FrameParts(block: seq<byte>, out: seq<byte>, trailing: seq<byte>)
    requires |block| < 0x1_0000_0000 && |out| < 0x1_0000_0000 && DecodeFrom(block, []) == Ok(out)
    ensures FrameMeaning([MARKER] + LittleEndianBytes(|out|, 4) + LittleEndianBytes(|block|, 4) + block + trailing) == Ok(out)
  {
    var a, b := LittleEndianBytes(|out|, 4), LittleEndianBytes(|block|, 4);
    Pow256Values();
    LittleEndianRoundTrip(|out|, 4);
    LittleEndianRoundTrip(|block|, 4);
    hide LittleEndianBytes, LittleEndian, DecodeFrom;
    var data := [MARKER] + a + b + block + trailing;
    assert data[1..5] == a && data[5..9] == b && data[9..9 + |block|] == block;
  }
}
