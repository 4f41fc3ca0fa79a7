/** A whole LZH block of SAPCOMPRESS (compress.py): the header, some noise bits, and deflate blocks
with static or dynamic trees up to the one marked as the last. */
module LzhStream {
  import opened Bits
  import opened BitReader
  import opened Huffman
  import opened HuffTrees
  import opened Lz77
  import opened Lzh
  import opened LzhTrees
  import LzhBlock
  import LzwSpec

  const ALG_LZH := 2
  const TREETYPE_STATIC := 1
  const TREETYPE_DYNAMIC := 2

  // ----- what a stream means -----

  /** Two bits say how many noise bits follow. */
  function SkipNoise(bits: seq<bool>): Option<seq<bool>> {
    match TakeExtra(bits, 2)
    case None => None
    case Some((n, rest)) => if |rest| < n then None else Some(rest[n..])
  }

  function BlockTrees(bits: seq<bool>): (r: Option<(Trees, seq<bool>)>)
    ensures r.Some? ==> |r.value.1| <= |bits|
  {
    match TakeExtra(bits, 2)
    case None => None
    case Some((kind, rest)) =>
      if kind == TREETYPE_STATIC then Some((Trees(LzhBlock.StaticLitLen(), LzhBlock.StaticDist()), rest))
      else if kind == TREETYPE_DYNAMIC then ReadTrees(rest)
      else None
  }

  /** One block: is it the last, and its tokens. */
  datatype BlockRead = BlockRead(last: bool, tokens: seq<Token>, rest: seq<bool>)

  function ReadOneBlock(bits: seq<bool>): (r: Option<BlockRead>)
    ensures r.Some? ==> TokensOk(r.value.tokens) && |r.value.rest| < |bits|
  {
    match TakeExtra(bits, 1)
    case None => None
    case Some((last, rest1)) =>
      match BlockTrees(rest1)
      case None => None
      case Some((t, rest2)) =>
        match ReadTokens(t.lit, t.dist, rest2)
        case None => None
        case Some((ts, rest3)) => Some(BlockRead(last == 1, ts, rest3))
  }

  /** The tokens of all blocks, up to the last one. */
  function ReadBlocks(bits: seq<bool>): (r: Option<(seq<Token>, seq<bool>)>)
    ensures r.Some? ==> TokensOk(r.value.0)
    decreases |bits|
  {
    match ReadOneBlock(bits)
    case None => None
    case Some(b) =>
      if b.last then Some((b.tokens, b.rest))
      else
        match ReadBlocks(b.rest)
        case None => None
        case Some((more, end)) => Some((b.tokens + more, end))
  }

  /** The LZ77 expansion of a stream's tokens, across its blocks. */
  function Decompressed(data: seq<byte>): Result<seq<byte>> {
    match LzwSpec.ParseHeader(data)
    case Err(e) => Err(e)
    case Ok(h) =>
      if h.algo != ALG_LZH then Err("expected LZH algo")
      else
        match SkipNoise(BytesToBits(data[LzwSpec.HDR_SIZE..]))
        case None => Err("bad LZH stream")
        case Some(bits) =>
          match ReadBlocks(bits)
          case None => Err("bad LZH stream")
          case Some((ts, _)) => Ok(Expand([], ts))
  }

  // ----- the decompressor -----

  method ReadBlockTrees(reader: Reader) returns (lit: HuffTree?, dist: HuffTree?)
    requires reader.Valid()
    modifies reader
    ensures reader.Valid()
    ensures match BlockTrees(old(reader.Rest()))
            case None => lit == null
            case Some((trees, rest)) =>
              && lit != null && dist != null && fresh(lit) && fresh(dist) && lit != dist
              && lit.Valid() && lit.lengths == trees.lit && dist.Valid() && dist.lengths == trees.dist
              && reader.Rest() == rest
  {
    hide ReadTrees, FromBits, RestOf, RightTable, RightCode, LzhBlock.StaticLitLen, LzhBlock.StaticDist;
    var kind := reader.ReadBits(2);
    if kind.None? {
      return null, null;
    }
    if kind.value == TREETYPE_STATIC {
      lit := new HuffTree.FromDistribution(LzhBlock.StaticLitLen());
      dist := new HuffTree.FromDistribution(LzhBlock.StaticDist());
    } else if kind.value == TREETYPE_DYNAMIC {
      lit, dist := ReadDynamicTrees(reader);
    } else {
      return null, null;
    }
  }

  /** One block through the ring window. */
  method TakeBlock(d: LzhDecompress) returns (r: Option<bool>)
    requires d.Valid()
    modifies d, d.window, d.reader
    ensures d.Valid()
    ensures match ReadOneBlock(old(d.reader.Rest()))
            case None => r == None
            case Some(b) => r == Some(b.last) && d.reader.Rest() == b.rest && d.written == Expand(old(d.written), b.tokens)
  {
    hide BlockTrees, ReadTokens, FromBits, RestOf, Ring, RightTable, RightCode, Expand;
    var last := d.reader.ReadBits(1);
    if last.None? {
      return None;
    }
    var lit, dist := ReadBlockTrees(d.reader);
    if lit == null {
      return None;
    }
    var ok := d.ReadBlock(lit, dist);
    if !ok {
      return None;
    }
    return Some(last.value == 1);
  }

  method SkipNoiseBits(reader: Reader) returns (ok: bool)
    requires reader.Valid()
    modifies reader
    ensures reader.Valid()
    ensures match SkipNoise(old(reader.Rest()))
            case None => !ok
            case Some(rest) => ok && reader.Rest() == rest
  {
    hide FromBits, RestOf;
    var noise := reader.ReadBits(2);
    if noise.None? {
      return false;
    }
    if noise.value > 0 {
      var skipped := reader.ReadBits(noise.value);
      return skipped.Some?;
    }
    return true;
  }

  /** Putting tokens in front of what is still to be read. */
  lemma {:induction false} BlocksStep(bits: seq<bool>, ts: seq<Token>)
    ensures match ReadOneBlock(bits)
            case None => Prefixed(ts, ReadBlocks(bits)) == None
            case Some(b) =>
              Prefixed(ts, ReadBlocks(bits)) ==
              if b.last then Some((ts + b.tokens, b.rest)) else Prefixed(ts + b.tokens, ReadBlocks(b.rest))
  {
    hide ReadOneBlock;
    var r := ReadOneBlock(bits);
    if r.Some? && !r.value.last {
      var more := ReadBlocks(r.value.rest);
      if more.Some? {
        assert ts + r.value.tokens + more.value.0 == ts + (r.value.tokens + more.value.0);
      }
    }
  }

  /** The whole decompressor: the window carries over from block to block, and what comes out is the
  expansion of all tokens together. */
  method Decompress(data: seq<byte>) returns (r: Result<seq<byte>>)
    ensures r == Decompressed(data)
  {
    hide ReadOneBlock, ReadBlocks, SkipNoise, Expand, Ring, RestOf, BytesToBits;
    var header := LzwSpec.ParseHeader(data);
    var reader := new Reader(data);
    var head := reader.Read(LzwSpec.HDR_SIZE);
    if header.Err? {
      return Err(header.reason);
    }
    if header.value.algo != ALG_LZH {
      return Err("expected LZH algo");
    }
    assert reader.Rest() == BytesToBits(data[LzwSpec.HDR_SIZE..]) by { NoBuffered(reader); }
    var ok := SkipNoiseBits(reader);
    if !ok {
      return Err("bad LZH stream");
    }
    var d := new LzhDecompress(reader);
    ghost var ts: seq<Token> := [];
    ghost var goal := ReadBlocks(reader.Rest());
    assert goal.Some? ==> [] + goal.value.0 == goal.value.0;
    ExpandNothing();
    while true
      invariant d.Valid() && d.reader == reader && fresh(d) && fresh(d.window) && fresh(reader)
      invariant TokensOk(ts) && d.written == Expand([], ts)
      invariant goal == Prefixed(ts, ReadBlocks(reader.Rest()))
      decreases |reader.Rest()|
    {
      BlocksStep(reader.Rest(), ts);
      ghost var block := ReadOneBlock(reader.Rest());
      var last := TakeBlock(d);
      if last.None? {
        return Err("bad LZH stream");
      }
      ExpandAppend([], ts, block.value.tokens);
      ts := ts + block.value.tokens;
      if last.value {
        return Ok(d.written);
      }
    }
  }

  lemma {:induction false} ExpandNothing()
    ensures Expand([], []) == []
  {
  }

  lemma {:induction false} NoBuffered(reader: Reader)
    requires reader.Valid() && reader.bitsCount == 0
    ensures reader.Rest() == BytesToBits(reader.data[reader.pos..])
  {
    assert ToBits(reader.bits, 0) == [];
  }

  // ----- writing streams -----

  datatype Block =
    | Fixed(items: seq<LzhBlock.Item>)
    | Dynamic(header: TreeHeader, items: seq<LzhBlock.Item>)

  predicate TreesGood(b: Block) {
    b.Dynamic? ==> HeaderOk(b.header)
  }

  function BlockCodes(b: Block): Trees {
    if b.Fixed? then Trees(LzhBlock.StaticLitLen(), LzhBlock.StaticDist()) else TreesOf(b.header)
  }

  /** Valid trees, a code for the end of the block, and codes for every item. */
  predicate BlockOk(b: Block) {
    var t := BlockCodes(b);
    && TreesGood(b) && Kraft(t.lit) && Kraft(t.dist)
    && Used(t.lit, END_BLOCK) && LzhBlock.ItemsOk(t.lit, t.dist, b.items)
  }

  function BlockTokens(b: Block): (ts: seq<Token>)
    requires BlockOk(b)
    ensures TokensOk(ts)
  {
    TokensFine(BlockCodes(b), b.items);
    LzhBlock.Tokens(BlockCodes(b).lit, BlockCodes(b).dist, b.items)
  }

  lemma {:induction false} TokensFine(t: Trees, items: seq<LzhBlock.Item>)
    requires LzhBlock.ItemsOk(t.lit, t.dist, items)
    ensures TokensOk(LzhBlock.Tokens(t.lit, t.dist, items))
  {
    hide Pow2, Kraft, LenStart;
    if items != [] {
      assert LzhBlock.ItemOk(t.lit, t.dist, items[0]);
      TokensFine(t, items[1..]);
    }
  }

  function TypeBits(b: Block): seq<bool>
    requires TreesGood(b)
  {
    if b.Fixed? then ToBits(TREETYPE_STATIC, 2) else ToBits(TREETYPE_DYNAMIC, 2) + HeaderBits(b.header)
  }

  function BlockBits(b: Block, last: bool): seq<bool>
    requires BlockOk(b)
  {
    [last] + (TypeBits(b) + LzhBlock.BlockBits(BlockCodes(b).lit, BlockCodes(b).dist, b.items))
  }

  predicate BlocksOk(bs: seq<Block>) {
    forall i :: 0 <= i < |bs| ==> BlockOk(bs[i])
  }

  /** The blocks one after the other, only the final one marked as the last. */
  function StreamBits(bs: seq<Block>): seq<bool>
    requires BlocksOk(bs)
  {
    if bs == [] then [] else BlockBits(bs[0], |bs| == 1) + StreamBits(bs[1..])
  }

  function StreamTokens(bs: seq<Block>): (ts: seq<Token>)
    requires BlocksOk(bs)
    ensures TokensOk(ts)
  {
    if bs == [] then [] else BlockTokens(bs[0]) + StreamTokens(bs[1..])
  }

  /** The items of a block and its end, in bits. */
  function BodyBits(b: Block): seq<bool>
    requires BlockOk(b)
  {
    LzhBlock.BlockBits(BlockCodes(b).lit, BlockCodes(b).dist, b.items)
  }

  /** Every block can be read, with the rest of the stream and n bits behind it. */
  predicate StreamReadable(bs: seq<Block>, n: nat)
    requires BlocksOk(bs)
  {
    bs == [] ||
    (BlockReadable(bs[0], |StreamBits(bs[1..])| + n) && StreamReadable(bs[1..], n))
  }

  /** With n bits behind a block, its tree header and every one of its items can be looked at. */
  predicate BlockReadable(b: Block, n: nat)
    requires BlockOk(b)
  {
    && HeadReadable(b, |BodyBits(b)| + n)
    && LzhBlock.BlockReadable(BlockCodes(b).lit, BlockCodes(b).dist, b.items, n)
  }

  predicate HeadReadable(b: Block, n: nat)
    requires TreesGood(b)
  {
    b.Dynamic? ==> HeaderReadable(b.header, n)
  }

  /** Dynamic trees have words of up to 15 bits, so 15 bits behind the stream are always enough. */
  predicate Spare(bs: seq<Block>, n: nat) {
    n >= 15 || forall i :: 0 <= i < |bs| ==> bs[i].Fixed?
  }

  lemma {:induction false} RoomBehindBlock(b: Block, spare: nat)
    requires BlockOk(b) && (b.Fixed? || spare >= 15)
    ensures BlockReadable(b, spare)
  {
    RoomOf(b, spare);
    hide *;
    var t := BlockCodes(b);
    BlockShape(b, false, []);
    LzhBlock.RoomForBlock(t.lit, t.dist, b.items, spare);
    ReadableOfParts(b, spare);
  }

  lemma {:induction false} RoomOf(b: Block, spare: nat)
    requires BlockOk(b) && (b.Fixed? || spare >= 15)
    ensures Used(BlockCodes(b).lit, END_BLOCK) && LzhBlock.Room(BlockCodes(b).lit, BlockCodes(b).dist, spare)
    ensures HeadReadable(b, |BodyBits(b)| + spare)
  {
    hide Kraft, MaxLen, LengthsOf, HeaderOk, HeaderReadable, LzhBlock.ItemsOk, LzhBlock.BlockBits, LzhBlock.Room,
         LzhBlock.StaticLitLen, LzhBlock.StaticDist;
    if b.Fixed? {
      LzhBlock.StaticRoom(spare);
    } else {
      LengthsSmall(b.header.lit, 0);
      LengthsSmall(b.header.dist, 0);
      RoomForShort(BlockCodes(b).lit, BlockCodes(b).dist, spare);
      SixEnough(b.header, |BodyBits(b)| + spare);
    }
  }

  lemma {:induction false} RoomForShort(lit: seq<nat>, dist: seq<nat>, spare: nat)
    requires Used(lit, END_BLOCK) && spare >= 15
    requires forall i :: 0 <= i < |lit| ==> lit[i] < 16
    requires forall i :: 0 <= i < |dist| ==> dist[i] < 16
    ensures LzhBlock.Room(lit, dist, spare)
  {
    MaxLenBound(lit, 15);
    MaxLenBound(dist, 15);
    hide MaxLen;
  }

  lemma {:induction false} ReadableOfParts(b: Block, n: nat)
    requires BlockOk(b) && HeadReadable(b, |BodyBits(b)| + n)
    requires LzhBlock.BlockReadable(BlockCodes(b).lit, BlockCodes(b).dist, b.items, n)
    ensures BlockReadable(b, n)
  {
    hide BlockOk, HeadReadable, LzhBlock.BlockReadable, BodyBits, BlockCodes;
  }

  lemma {:induction false} SpareEnough(bs: seq<Block>, n: nat)
    requires BlocksOk(bs) && Spare(bs, n)
    ensures StreamReadable(bs, n)
    decreases |bs|
  {
    hide BlockOk, BlockBits, BodyBits, BlockReadable;
    if bs != [] {
      assert BlockOk(bs[0]);
      RoomBehindBlock(bs[0], |StreamBits(bs[1..])| + n);
      SpareEnough(bs[1..], n);
    }
  }

  lemma {:induction false} KindIff(b: Block, rest: seq<bool>)
    requires TreesGood(b)
    ensures BlockTrees(TypeBits(b) + rest) == if HeadReadable(b, |rest|) then Some((BlockCodes(b), rest)) else None
  {
    hide HeaderOk, HeaderBits, HeaderReadable, ReadTrees, TakeExtra, ToBits, LzhBlock.StaticLitLen, LzhBlock.StaticDist, TreesOf;
    TwoBits();
    if b.Fixed? {
      ExtraBack(TREETYPE_STATIC, 2, rest);
    } else {
      assert TypeBits(b) + rest == ToBits(TREETYPE_DYNAMIC, 2) + (HeaderBits(b.header) + rest);
      ExtraBack(TREETYPE_DYNAMIC, 2, HeaderBits(b.header) + rest);
      TreesIff(b.header, rest);
    }
  }

  lemma {:induction false} TwoBits()
    ensures Pow2(2) == 4
  {
  }

  lemma {:induction false} LastBit(last: bool, rest: seq<bool>)
    ensures TakeExtra([last] + rest, 1) == Some((if last then 1 else 0, rest))
  {
    assert ([last] + rest)[..1] == [last] && ([last] + rest)[1..] == rest;
    assert FromBits([last]) == if last then 1 else 0;
  }

  /** One block is read back to its tokens and its place in the stream, or refused. */
  lemma {:induction false} OneBlockIff(b: Block, last: bool, rest: seq<bool>)
    requires BlockOk(b)
    ensures ReadOneBlock(BlockBits(b, last) + rest) ==
            if BlockReadable(b, |rest|) then Some(BlockRead(last, BlockTokens(b), rest)) else None
  {
    hide *;
    BlockShape(b, last, rest);
    var t := BlockCodes(b);
    var body := LzhBlock.BlockBits(t.lit, t.dist, b.items) + rest;
    LastBit(last, TypeBits(b) + body);
    KindIff(b, body);
    LzhBlock.BlockIff(t.lit, t.dist, b.items, rest);
    BlockOfParts(BlockBits(b, last) + rest, last, TypeBits(b) + body, t, body, HeadReadable(b, |body|),
                 LzhBlock.BlockReadable(t.lit, t.dist, b.items, |rest|), BlockTokens(b), rest);
  }

  lemma {:induction false} BlockShape(b: Block, last: bool, rest: seq<bool>)
    requires BlockOk(b)
    ensures
      var t := BlockCodes(b);
      && Kraft(t.lit) && Kraft(t.dist) && LzhBlock.ItemsOk(t.lit, t.dist, b.items) && Used(t.lit, END_BLOCK)
      && TreesGood(b) && BlockTokens(b) == LzhBlock.Tokens(t.lit, t.dist, b.items)
      && BodyBits(b) == LzhBlock.BlockBits(t.lit, t.dist, b.items)
      && (BlockReadable(b, |rest|) <==>
            HeadReadable(b, |BodyBits(b)| + |rest|) && LzhBlock.BlockReadable(t.lit, t.dist, b.items, |rest|))
      && BlockBits(b, last) + rest ==
         [last] + (TypeBits(b) + (LzhBlock.BlockBits(t.lit, t.dist, b.items) + rest))
  {
    hide Kraft, Used, TreesGood, LzhBlock.ItemsOk, TypeBits, BlockCodes, LzhBlock.BlockBits, LzhBlock.Tokens,
         LzhBlock.BlockReadable, HeadReadable;
  }

  lemma {:induction false} BlockOfParts(bits: seq<bool>, last: bool, b1: seq<bool>, t: Trees, b2: seq<bool>,
                                        headed: bool, readable: bool, ts: seq<Token>, rest: seq<bool>)
    requires TakeExtra(bits, 1) == Some((if last then 1 else 0, b1))
    requires BlockTrees(b1) == if headed then Some((t, b2)) else None
    requires ReadTokens(t.lit, t.dist, b2) == if readable then Some((ts, rest)) else None
    ensures ReadOneBlock(bits) == if headed && readable then Some(BlockRead(last, ts, rest)) else None
  {
    hide TakeExtra, BlockTrees, ReadTokens;
  }

  /** Reading a stream of any valid blocks gives the tokens of all of them and stops right behind the
  last one exactly when every tree header and every item can be read with what is behind it; otherwise it
  is refused. */
  lemma {:induction false} StreamIff(bs: seq<Block>, spare: seq<bool>)
    requires bs != [] && BlocksOk(bs)
    ensures ReadBlocks(StreamBits(bs) + spare) ==
            if StreamReadable(bs, |spare|) then Some((StreamTokens(bs), spare)) else None
    decreases |bs|
  {
    hide BlockOk, BlockBits, BodyBits, BlockTokens, BlockReadable, ReadOneBlock;
    assert BlockOk(bs[0]);
    var rest := StreamBits(bs[1..]) + spare;
    assert StreamBits(bs) + spare == BlockBits(bs[0], |bs| == 1) + rest;
    OneBlockIff(bs[0], |bs| == 1, rest);
    if |bs| == 1 {
      assert bs[1..] == [] && rest == spare;
      assert StreamTokens(bs) == BlockTokens(bs[0]) + StreamTokens([]) == BlockTokens(bs[0]);
    } else {
      StreamIff(bs[1..], spare);
    }
  }

  // ----- in bytes -----

  function ToBytes(bits: seq<bool>): seq<byte>
    decreases |bits|
  {
    if bits == [] then []
    else if |bits| <= 8 then ByteBound(bits); [FromBits(bits)]
    else ByteBound(bits[..8]); [FromBits(bits[..8])] + ToBytes(bits[8..])
  }

  lemma {:induction false} ByteBound(bits: seq<bool>)
    requires |bits| <= 8
    ensures FromBits(bits) < 256
  {
    FromBitsBound(bits);
    Pow2Monotone(|bits|, 8);
  }

  /** How many bits are missing to whole bytes. */
  function PadOf(n: nat): nat {
    if n % 8 == 0 then 0 else 8 - n % 8
  }

  lemma {:induction false} PadStep(n: nat)
    ensures n > 8 ==> PadOf(n - 8) == PadOf(n)
    ensures 0 < n <= 8 ==> PadOf(n) == 8 - n
  {
  }

  /** Whole bytes carry the bits, and zeros up to the next byte. */
  lemma {:induction false} ToBytesBack(bits: seq<bool>) returns (pad: nat)
    ensures BytesToBits(ToBytes(bits)) == bits + Zeros(pad) && pad == PadOf(|bits|)
    decreases |bits|
  {
    PadStep(|bits|);
    if bits == [] {
      pad := 0;
    } else {
      hide PadOf;
      var n := if |bits| <= 8 then |bits| else 8;
      var head := bits[..n];
      ByteBound(head);
      PaddedByte(head);
      if |bits| <= 8 {
        assert head == bits;
        pad := 8 - n;
        BytesHead(ToBytes(bits));
        assert BytesToBits([]) == [];
        assert ToBytes(bits)[1..] == [];
      } else {
        pad := ToBytesBack(bits[8..]);
        BytesHead(ToBytes(bits));
        assert ToBytes(bits)[1..] == ToBytes(bits[8..]);
        assert bits == head + bits[8..];
      }
    }
  }

  lemma {:induction false} PaddedByte(head: seq<bool>)
    requires |head| <= 8
    ensures ToBits(FromBits(head), 8) == head + Zeros(8 - |head|)
  {
    PadValue(head, 8 - |head|);
  }

  function NoiseBits(noise: seq<bool>): seq<bool> {
    ToBits(|noise|, 2) + noise
  }

  lemma {:induction false} NoiseBack(noise: seq<bool>, rest: seq<bool>)
    requires |noise| < 4
    ensures SkipNoise(NoiseBits(noise) + rest) == Some(rest)
  {
    hide TakeExtra, ToBits;
    TwoBits();
    assert NoiseBits(noise) + rest == ToBits(|noise|, 2) + (noise + rest);
    ExtraBack(|noise|, 2, noise + rest);
    assert (noise + rest)[|noise|..] == rest;
  }

  function FileHeader(length: nat, config: byte): LzwSpec.Header {
    LzwSpec.Header(length, ALG_LZH, 1, config)
  }

  /** A file: the header, then noise, blocks and spare bits in whole bytes. */
  function File(length: nat, config: byte, noise: seq<bool>, bs: seq<Block>, spare: seq<bool>): seq<byte>
    requires length < 0x1_0000_0000 && BlocksOk(bs)
  {
    LzwSpec.HeaderBytes(FileHeader(length, config)) + ToBytes(NoiseBits(noise) + StreamBits(bs) + spare)
  }

  /** How many bits follow the last block in a file, the zeros up to a whole byte included. */
  function Behind(noise: seq<bool>, bs: seq<Block>, spare: seq<bool>): nat
    requires BlocksOk(bs)
  {
    |spare| + PadOf(|NoiseBits(noise) + StreamBits(bs) + spare|)
  }

  /** Whatever valid blocks a file holds, decompressing it gives the LZ77 expansion of their tokens
  exactly when the last headers and items have enough behind them to be looked at, and fails otherwise. */
  lemma {:induction false} FileIff(length: nat, config: byte, noise: seq<bool>, bs: seq<Block>, spare: seq<bool>)
    requires length < 0x1_0000_0000 && |noise| < 4 && bs != [] && BlocksOk(bs)
    ensures
      var r := Decompressed(File(length, config, noise, bs, spare));
      if StreamReadable(bs, Behind(noise, bs, spare)) then r == Ok(Expand([], StreamTokens(bs))) else r.Err?
  {
    hide BlocksOk, NoiseBits, SkipNoise, ReadBlocks, StreamBits, BytesToBits, ToBytes, Expand, LzwSpec.ParseHeader,
         LzwSpec.HeaderBytes, StreamReadable;
    var bits := NoiseBits(noise) + StreamBits(bs) + spare;
    LzwSpec.HeaderBack(FileHeader(length, config), ToBytes(bits));
    var pad := ToBytesBack(bits);
    assert bits + Zeros(pad) == NoiseBits(noise) + (StreamBits(bs) + (spare + Zeros(pad)));
    NoiseBack(noise, StreamBits(bs) + (spare + Zeros(pad)));
    StreamIff(bs, spare + Zeros(pad));
  }

  lemma {:induction false} FileReadable(noise: seq<bool>, bs: seq<Block>, spare: seq<bool>)
    requires BlocksOk(bs) && Spare(bs, |spare|)
    ensures StreamReadable(bs, Behind(noise, bs, spare))
  {
    hide BlocksOk, NoiseBits, StreamBits, StreamReadable;
    SpareEnough(bs, Behind(noise, bs, spare));
  }

  /** With spare bits enough for any tree, every file is read. */
  lemma {:induction false} FileBack(length: nat, config: byte, noise: seq<bool>, bs: seq<Block>, spare: seq<bool>)
    requires length < 0x1_0000_0000 && |noise| < 4 && bs != [] && BlocksOk(bs) && Spare(bs, |spare|)
    ensures Decompressed(File(length, config, noise, bs, spare)) == Ok(Expand([], StreamTokens(bs)))
  {
    hide BlocksOk, NoiseBits, StreamBits, Decompressed, File, Expand, StreamReadable;
    FileReadable(noise, bs, spare);
    FileIff(length, config, noise, bs, spare);
  }

  // ----- every token list has a file -----

  /** The matches the format allows. */
  predicate InRange(t: Token) {
    t.Copy? ==> MIN_MATCH <= t.length <= MAX_MATCH && 1 <= t.distance <= WINDOW_SIZE
  }

  lemma {:induction false} StaticUses(sym: nat)
    ensures sym < 288 ==> Used(LzhBlock.StaticLitLen(), sym)
    ensures sym < 30 ==> Used(LzhBlock.StaticDist(), sym)
  {
  }

  lemma {:induction false} ItemFor(t: Token) returns (it: LzhBlock.Item)
    requires InRange(t)
    ensures LzhBlock.ItemOk(LzhBlock.StaticLitLen(), LzhBlock.StaticDist(), it)
    ensures LzhBlock.ItemToken(LzhBlock.StaticLitLen(), LzhBlock.StaticDist(), it) == t
  {
    hide Pow2, LenStart, DistStart, LzhBlock.StaticLitLen, LzhBlock.StaticDist, Used;
    match t
    case Literal(b) =>
      StaticUses(b);
      it := LzhBlock.Lit(b);
    case Copy(length, distance) =>
      var lc, le, dc, de := LzhBlock.MatchHasCodes(length, distance);
      StaticUses(257 + lc);
      StaticUses(dc);
      it := LzhBlock.Match(lc, le, dc, de);
  }

  lemma {:induction false} ItemsFor(ts: seq<Token>) returns (its: seq<LzhBlock.Item>)
    requires forall i :: 0 <= i < |ts| ==> InRange(ts[i])
    ensures LzhBlock.ItemsOk(LzhBlock.StaticLitLen(), LzhBlock.StaticDist(), its)
    ensures LzhBlock.Tokens(LzhBlock.StaticLitLen(), LzhBlock.StaticDist(), its) == ts
  {
    hide LzhBlock.ItemOk, LzhBlock.ItemToken, LzhBlock.StaticLitLen, LzhBlock.StaticDist, InRange;
    if ts == [] {
      its := [];
    } else {
      var it := ItemFor(ts[0]);
      var more := ItemsFor(ts[1..]);
      its := [it] + more;
      assert its[1..] == more && its[0] == it;
    }
  }

  /** Every list of literals and allowed matches has a file that decompresses to its expansion. */
  lemma {:induction false} EveryListHasFile(length: nat, config: byte, ts: seq<Token>) returns (bs: seq<Block>)
    requires length < 0x1_0000_0000 && forall i :: 0 <= i < |ts| ==> InRange(ts[i])
    ensures BlocksOk(bs) && TokensOk(ts)
    ensures Decompressed(File(length, config, [], bs, [])) == Ok(Expand([], ts))
  {
    hide LzhBlock.ItemsOk, LzhBlock.Tokens, LzhBlock.StaticLitLen, LzhBlock.StaticDist, Kraft, Used, Decompressed, File;
    var items := ItemsFor(ts);
    LzhBlock.StaticTreesValid();
    bs := [Fixed(items)];
    assert bs[1..] == [] && StreamTokens(bs) == BlockTokens(bs[0]) + StreamTokens([]) == ts;
    FileBack(length, config, [], bs, []);
  }
}
