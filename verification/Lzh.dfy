/** One LZH block of `compress.py`: Huffman-coded literals, lengths and distances, and the ring
window, proved to produce the LZ77 expansion of the tokens read. */
module Lzh {
  import opened Bits
  import opened BitReader
  import opened Huffman
  import opened HuffTrees
  import opened Lz77

  const MIN_MATCH := 3
  const MAX_MATCH := 258
  const END_BLOCK := 256
  const LEN_EXTRA: seq<nat> := [0, 0, 0, 0, 0, 0, 0, 0, 1, 1, 1, 1, 2, 2, 2, 2, 3, 3, 3, 3, 4, 4, 4, 4, 5, 5, 5, 5, 0, 99, 99]
  const DIST_EXTRA: seq<nat> := [0, 0, 0, 0, 1, 1, 2, 2, 3, 3, 4, 4, 5, 5, 6, 6, 7, 7, 8, 8, 9, 9, 10, 10, 11, 11, 12, 12, 13, 13]

  /** The shortest match of a length code: section 3.2.5 of RFC 1951. Code 28 is 258 alone. */
  function LenStart(code: nat): nat
    requires code < 29
  {
    if code == 0 then MIN_MATCH else if code == 28 then MAX_MATCH else LenStart(code - 1) + Pow2(LEN_EXTRA[code - 1])
  }

  function DistStart(code: nat): (d: nat)
    requires code < 30
    ensures d > 0
  {
    if code == 0 then 1 else DistStart(code - 1) + Pow2(DIST_EXTRA[code - 1])
  }

  lemma {:induction false} ExtraSizes()
    ensures |LEN_EXTRA| == 31 && |DIST_EXTRA| == 30
  {
  }

  lemma {:induction false} LenStartNext(code: nat)
    requires code < 29
    ensures LenStart(code) == if code == 0 then MIN_MATCH else if code == 28 then MAX_MATCH
                              else LenStart(code - 1) + Pow2(LEN_EXTRA[code - 1])
  {
    hide Pow2;
  }

  lemma {:induction false} DistStartNext(code: nat)
    requires code < 30
    ensures DistStart(code) == if code == 0 then 1 else DistStart(code - 1) + Pow2(DIST_EXTRA[code - 1])
  {
    hide Pow2;
  }

  method GetLenStarts() returns (starts: seq<nat>)
    ensures |starts| == 29 && forall c :: 0 <= c < 29 ==> starts[c] == LenStart(c)
  {
    hide LenStart, Pow2, LEN_EXTRA;
    ExtraSizes();
    starts := [];
    var length := MIN_MATCH;
    LenStartNext(0);
    for code := 0 to 28
      invariant |starts| == code && (code < 28 ==> length == LenStart(code))
      invariant forall c :: 0 <= c < code ==> starts[c] == LenStart(c)
    {
      LenStartNext(code + 1);
      starts := starts + [length];
      length := length + Pow2(LEN_EXTRA[code]);
    }
    LenStartNext(28);
    starts := starts + [MAX_MATCH];
  }

  method GetDistStarts() returns (starts: seq<nat>)
    ensures |starts| == 30 && forall c :: 0 <= c < 30 ==> starts[c] == DistStart(c)
  {
    hide DistStart, Pow2, DIST_EXTRA;
    ExtraSizes();
    starts := [];
    var dist := 1;
    DistStartNext(0);
    for code := 0 to 30
      invariant |starts| == code && (code < 30 ==> dist == DistStart(code))
      invariant forall c :: 0 <= c < code ==> starts[c] == DistStart(c)
    {
      if code + 1 < 30 {
        DistStartNext(code + 1);
      }
      starts := starts + [dist];
      dist := dist + Pow2(DIST_EXTRA[code]);
    }
  }

  // ----- what a block means -----

  datatype TokenRead = Tok(t: Token, rest: seq<bool>) | Done(rest: seq<bool>) | Bad

  /** How long the end-of-block word is: the width of the first look. */
  function EobLen(lit: seq<nat>): nat {
    if Used(lit, END_BLOCK) then lit[END_BLOCK] else MaxLen(lit)
  }

  function ReadLitLen(lit: seq<nat>, bits: seq<bool>): (r: Option<(nat, seq<bool>)>)
    ensures r.Some? ==> Used(lit, r.value.0) && |r.value.1| < |bits|
  {
    if EobLen(lit) >= MaxLen(lit) then ReadSymbol(lit, bits) else ReadTwoStaged(lit, bits, EobLen(lit))
  }

  function TakeExtra(bits: seq<bool>, n: nat): (r: Option<(nat, seq<bool>)>)
    ensures r.Some? ==> |r.value.1| <= |bits|
  {
    if |bits| < n then None else Some((FromBits(bits[..n]), bits[n..]))
  }

  lemma {:induction false} ExtraBack(v: nat, n: nat, rest: seq<bool>)
    requires v < Pow2(n)
    ensures TakeExtra(ToBits(v, n) + rest, n) == Some((v, rest))
  {
    FromToBits(v, n);
    LowBitsFits(v, n);
    assert (ToBits(v, n) + rest)[..n] == ToBits(v, n) && (ToBits(v, n) + rest)[n..] == rest;
  }

  /** The length of a match, after its symbol. */
  function ReadLength(sym: nat, bits: seq<bool>): (r: Option<(nat, seq<bool>)>)
    requires sym > END_BLOCK
    ensures r.Some? ==> |r.value.1| <= |bits|
  {
    var lc := sym - 257;
    if lc >= 29 then None
    else
      match TakeExtra(bits, LEN_EXTRA[lc])
      case None => None
      case Some((extra, rest)) => if LenStart(lc) + extra > MAX_MATCH then None else Some((LenStart(lc) + extra, rest))
  }

  function ReadDistance(dist: seq<nat>, bits: seq<bool>): (r: Option<(nat, seq<bool>)>)
    ensures r.Some? ==> 1 <= r.value.0 <= WINDOW_SIZE && |r.value.1| < |bits|
  {
    match ReadSymbol(dist, bits)
    case None => None
    case Some((dc, rest)) =>
      if dc >= 30 then None
      else
        match TakeExtra(rest, DIST_EXTRA[dc])
        case None => None
        case Some((extra, end)) => if DistStart(dc) + extra > WINDOW_SIZE then None else Some((DistStart(dc) + extra, end))
  }

  function ReadToken(lit: seq<nat>, dist: seq<nat>, bits: seq<bool>): (r: TokenRead)
    ensures r.Tok? && r.t.Copy? ==> 1 <= r.t.distance <= WINDOW_SIZE
    ensures !r.Bad? ==> |r.rest| < |bits|
  {
    match ReadLitLen(lit, bits)
    case None => Bad
    case Some((sym, rest)) =>
      if sym <= 255 then Tok(Literal(sym), rest)
      else if sym == END_BLOCK then Done(rest)
      else
        match ReadLength(sym, rest)
        case None => Bad
        case Some((length, rest1)) =>
          match ReadDistance(dist, rest1)
          case None => Bad
          case Some((distance, rest2)) => Tok(Copy(length, distance), rest2)
  }

  /** The tokens of a block, up to its end-of-block code. */
  function ReadTokens(lit: seq<nat>, dist: seq<nat>, bits: seq<bool>): (r: Option<(seq<Token>, seq<bool>)>)
    ensures r.Some? ==> TokensOk(r.value.0) && |r.value.1| < |bits|
    decreases |bits|
  {
    match ReadToken(lit, dist, bits)
    case Bad => None
    case Done(rest) => Some(([], rest))
    case Tok(t, rest) =>
      match ReadTokens(lit, dist, rest)
      case None => None
      case Some((more, end)) => Some(([t] + more, end))
  }

  /** Putting tokens in front of what is still to be read. */
  function Prefixed(ts: seq<Token>, r: Option<(seq<Token>, seq<bool>)>): Option<(seq<Token>, seq<bool>)> {
    match r
    case None => None
    case Some((more, end)) => Some((ts + more, end))
  }

  lemma {:induction false} PrefixedStep(lit: seq<nat>, dist: seq<nat>, bits: seq<bool>, ts: seq<Token>)
    ensures match ReadToken(lit, dist, bits)
            case Bad => Prefixed(ts, ReadTokens(lit, dist, bits)) == None
            case Done(rest) => Prefixed(ts, ReadTokens(lit, dist, bits)) == Some((ts, rest))
            case Tok(t, rest) =>
              Prefixed(ts, ReadTokens(lit, dist, bits)) == Prefixed(ts + [t], ReadTokens(lit, dist, rest))
  {
    hide ReadToken;
    assert ts + [] == ts;
    match ReadToken(lit, dist, bits)
    case Tok(t, rest) =>
      match ReadTokens(lit, dist, rest) {
        case Some((more, end)) => assert ts + ([t] + more) == (ts + [t]) + more;
        case None =>
      }
    case _ =>
  }

  // ----- the decoder -----

  datatype Got = GotToken(t: Token) | GotEnd | GotBad

  class LzhDecompress {
    const reader: Reader
    const window: array<byte>
    var wpos: nat
    var written: seq<byte>

    ghost predicate Valid()
      reads this, reader, window
    {
      reader.Valid() && Ring(window[..], written) && wpos == |written| % WINDOW_SIZE
    }

    constructor (reader: Reader)
      requires reader.Valid()
      ensures this.reader == reader && fresh(window) && written == [] && Valid()
    {
      this.reader := reader;
      window := new byte[WINDOW_SIZE](i => 0);
      wpos := 0;
      written := [];
      new;
      RingStart(window[..]);
    }

    method PutLiteral(b: byte)
      requires Valid()
      modifies this, window
      ensures Valid() && written == old(written) + [b]
    {
      RingPut(window[..], written, b);
      window[wpos] := b;
      written := written + [b];
      wpos := (wpos + 1) % WINDOW_SIZE;
    }

    /** Copies one run that wraps neither at its source nor at its destination. */
    method CopyChunk(src: nat, chunk: nat, ghost distance: nat)
      requires Valid() && 1 <= distance <= WINDOW_SIZE && src == (|written| - distance) % WINDOW_SIZE
      requires wpos + chunk <= WINDOW_SIZE && src + chunk <= WINDOW_SIZE
      modifies window, this
      ensures Valid() && written == CopyFrom(old(written), distance, chunk)
    {
      ghost var before := written;
      assert CopyFrom(before, distance, 0) == before;
      hide *;
      for i := 0 to chunk
        invariant Ring(window[..], CopyFrom(before, distance, i))
        invariant written == before && wpos == |before| % WINDOW_SIZE
      {
        CopyByte(window[..], before, distance, src, i);
        ghost var w := window[..];
        window[wpos + i] := window[src + i];
        assert window[..] == w[wpos + i := w[src + i]];
      }
      ChunkWritten(window[..], before, distance, chunk);
      written := written + window[wpos..wpos + chunk];
      wpos := (wpos + chunk) % WINDOW_SIZE;
    }

    /** The chunked, wrapping, overlapping copy is the byte-at-a-time copy. */
    method CopyMatch(length: nat, distance: nat)
      requires Valid() && 1 <= distance <= WINDOW_SIZE
      modifies this, window
      ensures Valid() && written == CopyFrom(old(written), distance, length)
    {
      var copyLeft := length;
      var src := (wpos - distance + WINDOW_SIZE) % WINDOW_SIZE;
      ghost var before := written;
      SourceSlot(|written|, distance);
      assert CopyFrom(before, distance, 0) == before;
      hide CopyFrom, Ring;
      while copyLeft > 0
        invariant Valid() && 0 <= copyLeft <= length && src == (|written| - distance) % WINDOW_SIZE
        invariant written == CopyFrom(before, distance, length - copyLeft)
        decreases copyLeft
      {
        var higher := if src > wpos then src else wpos;
        var chunk := if WINDOW_SIZE - higher < copyLeft then WINDOW_SIZE - higher else copyLeft;
        CopyAppend(before, distance, length - copyLeft, chunk);
        CopyLength(written, distance, chunk);
        SourceAdvance(|written|, distance, chunk);
        CopyChunk(src, chunk, distance);
        src := (src + chunk) % WINDOW_SIZE;
        copyLeft := copyLeft - chunk;
      }
    }

    /** Reads a block: the output grows by the LZ77 expansion of exactly the tokens the bits hold. */
    method ReadBlock(lit: HuffTree, dist: HuffTree) returns (ok: bool)
      requires Valid() && lit.Valid() && dist.Valid() && lit != dist
      modifies this, window, reader, lit, dist
      ensures Valid() && lit.Valid() && dist.Valid()
      ensures match ReadTokens(lit.lengths, dist.lengths, old(reader.Rest()))
              case None => !ok
              case Some((ts, rest)) => ok && reader.Rest() == rest && written == Expand(old(written), ts)
    {
      var lenStarts := GetLenStarts();
      var distStarts := GetDistStarts();
      var eobLen := EobLen(lit.lengths);
      ghost var before := written;
      ghost var goal := ReadTokens(lit.lengths, dist.lengths, reader.Rest());
      ghost var ts: seq<Token> := [];
      assert goal.Some? ==> [] + goal.value.0 == goal.value.0;
      hide LenStart, DistStart, ReadToken, ReadTokens, EobLen;
      while true
        invariant Valid() && lit.Valid() && dist.Valid()
        invariant TokensOk(ts) && written == Expand(before, ts)
        invariant goal == Prefixed(ts, ReadTokens(lit.lengths, dist.lengths, reader.Rest()))
        decreases |reader.Rest()|
      {
        PrefixedStep(lit.lengths, dist.lengths, reader.Rest(), ts);
        var got := ReadOne(reader, lit, dist, eobLen, lenStarts, distStarts);
        match got
        case GotBad =>
          return false;
        case GotEnd =>
          return true;
        case GotToken(t) =>
          ExpandSnoc(before, ts, t);
          ts := ts + [t];
          if t.Literal? {
            PutLiteral(t.b);
          } else {
            CopyMatch(t.length, t.distance);
          }
      }
    }
  }

  /** One step of the block loop: the symbol, and for a match its length and distance. */
  method ReadOne(reader: Reader, lit: HuffTree, dist: HuffTree, eobLen: nat, lenStarts: seq<nat>, distStarts: seq<nat>)
    returns (got: Got)
    requires reader.Valid() && lit.Valid() && dist.Valid() && lit != dist && eobLen == EobLen(lit.lengths)
    requires |lenStarts| == 29 && forall c :: 0 <= c < 29 ==> lenStarts[c] == LenStart(c)
    requires |distStarts| == 30 && forall c :: 0 <= c < 30 ==> distStarts[c] == DistStart(c)
    modifies reader, lit, dist
    ensures reader.Valid() && lit.Valid() && dist.Valid()
    ensures match ReadToken(lit.lengths, dist.lengths, old(reader.Rest()))
            case Bad => got == GotBad
            case Done(rest) => got == GotEnd && reader.Rest() == rest
            case Tok(t, rest) => got == GotToken(t) && reader.Rest() == rest
  {
    var sym := lit.ReadCodeTwoStaged(reader, eobLen);
    hide LenStart, DistStart, ReadSymbol, ReadTwoStaged, EobLen, MaxLen;
    if sym.None? {
      return GotBad;
    }
    if sym.value <= 255 {
      return GotToken(Literal(sym.value));
    }
    if sym.value == END_BLOCK {
      return GotEnd;
    }
    var length := ReadMatchLength(reader, sym.value, lenStarts);
    if length.None? {
      return GotBad;
    }
    var distance := ReadMatchDistance(reader, dist, distStarts);
    if distance.None? {
      return GotBad;
    }
    return GotToken(Copy(length.value, distance.value));
  }

  method ReadMatchLength(reader: Reader, sym: nat, lenStarts: seq<nat>) returns (length: Option<nat>)
    requires reader.Valid() && sym > END_BLOCK
    requires |lenStarts| == 29 && forall c :: 0 <= c < 29 ==> lenStarts[c] == LenStart(c)
    modifies reader
    ensures reader.Valid()
    ensures match ReadLength(sym, old(reader.Rest()))
            case None => length == None
            case Some((n, rest)) => length == Some(n) && reader.Rest() == rest
  {
    hide LenStart, LEN_EXTRA, FromBits, RestOf;
    ExtraSizes();
    var lc := sym - 257;
    if lc >= 29 {
      return None;
    }
    var extra := reader.ReadBits(LEN_EXTRA[lc]);
    if extra.None? || lenStarts[lc] + extra.value > MAX_MATCH {
      return None;
    }
    return Some(lenStarts[lc] + extra.value);
  }

  method ReadMatchDistance(reader: Reader, dist: HuffTree, distStarts: seq<nat>) returns (distance: Option<nat>)
    requires reader.Valid() && dist.Valid()
    requires |distStarts| == 30 && forall c :: 0 <= c < 30 ==> distStarts[c] == DistStart(c)
    modifies reader, dist
    ensures reader.Valid() && dist.Valid()
    ensures match ReadDistance(dist.lengths, old(reader.Rest()))
            case None => distance == None
            case Some((n, rest)) => distance == Some(n) && reader.Rest() == rest
  {
    hide DistStart, ReadSymbol, DIST_EXTRA, FromBits, RestOf, RightTable, RightCode;
    ExtraSizes();
    var dc := dist.ReadCode(reader);
    if dc.None? || dc.value >= 30 {
      return None;
    }
    var extra := reader.ReadBits(DIST_EXTRA[dc.value]);
    if extra.None? || distStarts[dc.value] + extra.value > WINDOW_SIZE {
      return None;
    }
    return Some(distStarts[dc.value] + extra.value);
  }

  /** One byte of a copy, in the ring. */
  lemma {:induction false} CopyByte(window: seq<byte>, before: seq<byte>, distance: nat, src: nat, i: nat)
    requires 1 <= distance <= WINDOW_SIZE && src == (|before| - distance) % WINDOW_SIZE
    requires src + i < WINDOW_SIZE && |before| % WINDOW_SIZE + i < WINDOW_SIZE
    requires Ring(window, CopyFrom(before, distance, i))
    ensures |window| == WINDOW_SIZE
    ensures Ring(window[|before| % WINDOW_SIZE + i := window[src + i]], CopyFrom(before, distance, i + 1))
  {
    var out := CopyFrom(before, distance, i);
    CopyLength(before, distance, i);
    RingGet(window, out, distance);
    SlotAdvance(|before|, distance, i);
    RingPut(window, out, window[src + i]);
  }

  lemma {:induction false} ChunkWritten(window: seq<byte>, before: seq<byte>, distance: nat, chunk: nat)
    requires distance > 0 && |before| % WINDOW_SIZE + chunk <= WINDOW_SIZE
    requires Ring(window, CopyFrom(before, distance, chunk))
    ensures |window| == WINDOW_SIZE
    ensures var wpos := |before| % WINDOW_SIZE;
            && before + window[wpos..wpos + chunk] == CopyFrom(before, distance, chunk)
            && (wpos + chunk) % WINDOW_SIZE == |CopyFrom(before, distance, chunk)| % WINDOW_SIZE
  {
    var out := CopyFrom(before, distance, chunk);
    CopyLength(before, distance, chunk);
    RingSlice(window, out, chunk);
    assert out == before + out[|before|..];
  }

  lemma {:induction false} SlotAdvance(n: nat, distance: nat, i: nat)
    requires 1 <= distance <= WINDOW_SIZE
    requires n % WINDOW_SIZE + i < WINDOW_SIZE && (n - distance) % WINDOW_SIZE + i < WINDOW_SIZE
    ensures (n + i) % WINDOW_SIZE == n % WINDOW_SIZE + i
    ensures (n + i - distance) % WINDOW_SIZE == (n - distance) % WINDOW_SIZE + i
  {
  }

  lemma {:induction false} SourceSlot(n: nat, distance: nat)
    requires 1 <= distance <= WINDOW_SIZE
    ensures (n % WINDOW_SIZE - distance + WINDOW_SIZE) % WINDOW_SIZE == (n - distance) % WINDOW_SIZE
  {
  }

  lemma {:induction false} SourceAdvance(n: nat, distance: nat, chunk: nat)
    ensures ((n - distance) % WINDOW_SIZE + chunk) % WINDOW_SIZE == (n + chunk - distance) % WINDOW_SIZE
  {
  }
}
