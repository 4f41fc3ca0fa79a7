/** A valid LZH file the decompressor refuses, byte for byte, and the same file one byte longer, which it
reads (compress.py): one dynamic block holding the letter "A", whose last bits end the data. */
module LzhNearEnd {
  import opened Bits
  import opened Words
  import opened Huffman
  import opened HuffTrees
  import opened Lz77
  import opened Lzh
  import opened LzhTrees
  import opened LzhStream
  import LzhBlock
  import LzwSpec
  import Sapcompress

  /** The code-length lengths in sending order: two bits each for the symbols 18, 4, 2 and 1. */
  const SENT: seq<nat> := [0, 0, 2, 0, 0, 0, 0, 0, 0, 0, 0, 2, 0, 0, 0, 2, 0, 2]

  /** 65 zeros, 1, 190 zeros, 2, 4. */
  const LIT_OPS: seq<Op> := [Op(18, 54), Op(1, 0), Op(18, 127), Op(18, 41), Op(2, 0), Op(4, 0)]
  const DIST_OPS: seq<Op> := [Op(1, 0)]
  const HEAD: TreeHeader := TreeHeader(SENT, LIT_OPS, DIST_OPS)
  const LETTER_A: Block := Dynamic(HEAD, [LzhBlock.Lit(65)])

  function BitLens(): seq<nat> {
    [0, 2, 2, 0, 2] + Repeat(13, 0) + [2]
  }

  // ----- the code-length code -----

  lemma {:induction false} RankingPlaces(i: nat)
    requires i < 19
    ensures |RANKING| == 19 && RANKING[i] < 19
    ensures RANKING[i] == 18 <==> i == 2
    ensures RANKING[i] == 4 <==> i == 11
    ensures RANKING[i] == 2 <==> i == 15
    ensures RANKING[i] == 1 <==> i == 17
    ensures i < 18 ==> SENT[i] == if i == 2 || i == 11 || i == 15 || i == 17 then 2 else 0
  {
  }

  /** What is known after i of the lengths have come. */
  predicate Half(bl: seq<nat>, i: nat) {
    && |bl| == 19
    && bl[18] == (if i > 2 then 2 else 0) && bl[4] == (if i > 11 then 2 else 0)
    && bl[2] == (if i > 15 then 2 else 0) && bl[1] == (if i > 17 then 2 else 0)
    && forall p :: 0 <= p < 19 && p != 18 && p != 4 && p != 2 && p != 1 ==> bl[p] == 0
  }

  lemma {:induction false} HalfRanked(i: nat)
    requires i <= 18
    ensures Half(LzhTrees.Ranked(SENT[..i]), i)
  {
    hide RANKING, LzhTrees.Ranked;
    if i == 0 {
      RankedNone();
      assert SENT[..0] == [];
    } else {
      HalfRanked(i - 1);
      RankingPlaces(i - 1);
      RankedNext(SENT[..i - 1], SENT[i - 1]);
      assert SENT[..i] == SENT[..i - 1] + [SENT[i - 1]];
    }
  }

  lemma {:induction false} SentRanked()
    ensures |SENT| == 18 && LzhTrees.Ranked(SENT) == BitLens()
  {
    HalfRanked(18);
    assert SENT[..18] == SENT;
    hide LzhTrees.Ranked;
    var bl, want := LzhTrees.Ranked(SENT), BitLens();
    forall p | 0 <= p < 19 ensures bl[p] == want[p] {
    }
  }

  lemma {:induction false} CountAdds(a: seq<nat>, b: seq<nat>, l: nat)
    ensures Count(a + b, l) == Count(a, l) + Count(b, l)
  {
    if b == [] {
      assert a + b == a;
    } else {
      var n := |b| - 1;
      assert (a + b)[..|a + b| - 1] == a + b[..n];
      CountAdds(a, b[..n], l);
    }
  }

  lemma {:induction false} CountZeros(n: nat, l: nat)
    requires l > 0
    ensures Count(Repeat(n, 0), l) == 0
  {
    if n > 0 {
      assert Repeat(n, 0)[..n - 1] == Repeat(n - 1, 0);
      CountZeros(n - 1, l);
    }
  }

  lemma {:induction false} CountOne(v: nat, l: nat)
    ensures Count([v], l) == if v == l then 1 else 0
  {
    assert [v][..0] == [];
  }

  lemma {:induction false} CountFew(l: nat)
    requires l > 0
    ensures Count([0], l) == 0 && Count([0, 2], l) == (if l == 2 then 1 else 0)
    ensures Count([0, 2, 2, 0], l) == (if l == 2 then 2 else 0) && Count([0, 2, 2, 0, 2], l) == if l == 2 then 3 else 0
  {
    CountOne(0, l);
    CountOne(2, l);
    hide Count;
    CountAdds([0], [2], l);
    CountAdds([0, 2], [2], l);
    CountAdds([0, 2, 2], [0], l);
    CountAdds([0, 2, 2, 0], [2], l);
    assert [0] + [2] == [0, 2] && [0, 2] + [2] == [0, 2, 2];
    assert [0, 2, 2] + [0] == [0, 2, 2, 0] && [0, 2, 2, 0] + [2] == [0, 2, 2, 0, 2];
  }

  lemma {:induction false} BitLenCounts()
    ensures Count(BitLens(), 1) == 0
    ensures Count(BitLens()[..1], 2) == 0 && Count(BitLens()[..2], 2) == 1
    ensures Count(BitLens()[..4], 2) == 2 && Count(BitLens()[..18], 2) == 3
  {
    var few := [0, 2, 2, 0, 2];
    CountFew(1);
    CountFew(2);
    CountZeros(13, 1);
    CountZeros(13, 2);
    CountOne(2, 1);
    CountAdds(few, Repeat(13, 0), 1);
    CountAdds(few + Repeat(13, 0), [2], 1);
    CountAdds(few, Repeat(13, 0), 2);
    hide Count;
    assert BitLens()[..1] == [0] && BitLens()[..2] == [0, 2] && BitLens()[..4] == [0, 2, 2, 0];
    assert BitLens()[..18] == few + Repeat(13, 0);
  }

  lemma {:induction false} FirstCodes(lengths: seq<nat>)
    ensures FirstCode(lengths, 1) == 0 && FirstCode(lengths, 2) == 2 * Count(lengths, 1)
  {
    hide Count;
    assert FirstCode(lengths, 0) == 0;
  }

  lemma {:induction false} TwoMsb()
    ensures MsbBits(0, 1) == [false]
    ensures MsbBits(0, 2) == [false, false] && MsbBits(1, 2) == [false, true]
    ensures MsbBits(2, 2) == [true, false] && MsbBits(3, 2) == [true, true]
  {
    assert MsbBits(0, 0) == [] && MsbBits(0, 1) == [] + [false] && MsbBits(1, 1) == [] + [true];
  }

  lemma {:induction false} BitLenWords()
    ensures |BitLens()| == 19 && BitLens()[1] == BitLens()[2] == BitLens()[4] == BitLens()[18] == 2
    ensures Word(BitLens(), 1) == [false, false] && Word(BitLens(), 2) == [false, true]
    ensures Word(BitLens(), 4) == [true, false] && Word(BitLens(), 18) == [true, true]
  {
    BitLenCounts();
    FirstCodes(BitLens());
    TwoMsb();
    hide Count, FirstCode, MsbBits;
  }

  lemma {:induction false} BitLensValid()
    ensures MaxLen(BitLens()) == 2 && Kraft(BitLens())
  {
    var a := [] + [0] + [2] + [2] + [0];
    var b := a + [2] + Repeat(13, 0);
    assert BitLens() == b + [2];
    EmptySum();
    ZeroAdds([], 2);
    LzhBlock.SnocAdds([] + [0], 2, 2);
    LzhBlock.SnocAdds([] + [0] + [2], 2, 2);
    ZeroAdds([] + [0] + [2] + [2], 2);
    LzhBlock.SnocAdds(a, 2, 2);
    LzhBlock.RepeatNothing(a + [2], 13, 2);
    LzhBlock.SnocAdds(b, 2, 2);
    assert Pow2(0) == 1 && Pow2(2) == 4;
    hide KraftSum, MaxLen, Pow2, Repeat;
  }

  lemma {:induction false} EmptySum()
    ensures KraftSum([], 2) == 0 && MaxLen([]) == 0
  {
  }

  lemma {:induction false} ZeroAdds(s: seq<nat>, m: nat)
    ensures KraftSum(s + [0], m) == KraftSum(s, m) && MaxLen(s + [0]) == MaxLen(s)
  {
    LzhBlock.RepeatNothing(s, 1, m);
    assert Repeat(1, 0) == [0];
  }

  // ----- the block -----

  lemma {:induction false} OpLengths()
    ensures LengthsOf(LIT_OPS, 0) == LzhBlock.CloseLit() && LengthsOf(DIST_OPS, 0) == [1]
  {
    var six := LIT_OPS;
    assert LengthsOf([], 4) == [] && LengthsOf([], 1) == [];
    assert six[5..] == [Op(4, 0)] && six[4..][1..] == six[5..] && six[3..][1..] == six[4..];
    assert six[2..][1..] == six[3..] && six[1..][1..] == six[2..] && six[5..][1..] == [];
    assert LengthsOf(six[5..], 2) == [4];
    assert LengthsOf(six[4..], 0) == [2] + [4];
    assert LengthsOf(six[3..], 0) == Repeat(52, 0) + ([2] + [4]);
    assert LengthsOf(six[2..], 1) == Repeat(138, 0) + (Repeat(52, 0) + ([2] + [4]));
    assert LengthsOf(six[1..], 0) == [1] + (Repeat(138, 0) + (Repeat(52, 0) + ([2] + [4])));
    assert Repeat(138, 0) + Repeat(52, 0) == Repeat(190, 0);
    assert DIST_OPS[1..] == [];
  }

  lemma {:induction false} OpsFine()
    ensures OpsOk(BitLens(), LIT_OPS) && OpsOk(BitLens(), DIST_OPS)
  {
    BitLenWords();
    assert Pow2(0) == 1 && Pow2(7) == 128;
    hide Pow2, BitLens;
  }

  lemma {:induction false} HeadOk()
    ensures HeaderOk(HEAD) && TreesOf(HEAD) == Trees(LzhBlock.CloseLit(), [1])
  {
    SentRanked();
    BitLensValid();
    OpsFine();
    OpLengths();
    LzhBlock.CloseTrees();
    hide LzhTrees.Ranked, Kraft, OpsOk, LengthsOf, BitLens, LzhBlock.CloseLit;
  }

  lemma {:induction false} LetterOk()
    ensures BlockOk(LETTER_A) && BlockTokens(LETTER_A) == [Literal(65)]
    ensures BodyBits(LETTER_A) == [false, true, false]
  {
    HeadOk();
    LzhBlock.CloseBlock(0);
    BodyOfLetter();
    hide HeaderOk, TreesOf, Kraft, LzhBlock.ItemsOk, LzhBlock.CloseLit, LzhBlock.Tokens, LzhBlock.BlockBits;
  }

  lemma {:induction false} BodyOfLetter()
    requires LzhBlock.ItemsOk(LzhBlock.CloseLit(), [1], [LzhBlock.Lit(65)]) && Used(LzhBlock.CloseLit(), END_BLOCK)
    ensures LzhBlock.BlockBits(LzhBlock.CloseLit(), [1], [LzhBlock.Lit(65)]) == [false, true, false]
  {
    CloseWords();
    var its := [LzhBlock.Lit(65)];
    assert its[1..] == [];
    hide Word, LzhBlock.CloseLit;
    assert LzhBlock.BlockBits(LzhBlock.CloseLit(), [1], []) == [true, false];
    assert [false] + [true, false] == [false, true, false];
  }

  lemma {:induction false} CloseParts()
    ensures
      var lit, a := LzhBlock.CloseLit(), Repeat(65, 0);
      && |lit| == 258 && lit[..65] == a
      && lit[..256] == a + [1] + Repeat(190, 0) && lit == a + [1] + Repeat(190, 0) + [2] + [4]
  {
    assert [] + Repeat(65, 0) == Repeat(65, 0);
    hide Repeat;
  }

  lemma {:induction false} CloseCounts()
    ensures |LzhBlock.CloseLit()| == 258 && Count(LzhBlock.CloseLit(), 1) == 1
    ensures Count(LzhBlock.CloseLit()[..65], 1) == 0 && Count(LzhBlock.CloseLit()[..256], 2) == 0
  {
    hide *;
    CloseParts();
    var a, z := Repeat(65, 0), Repeat(190, 0);
    CountZeros(65, 1);
    CountZeros(65, 2);
    CountZeros(190, 1);
    CountZeros(190, 2);
    CountOne(1, 1);
    CountOne(1, 2);
    CountOne(2, 1);
    CountOne(4, 1);
    CountAdds(a, [1], 1);
    CountAdds(a + [1], z, 1);
    CountAdds(a + [1] + z, [2], 1);
    CountAdds(a + [1] + z + [2], [4], 1);
    CountAdds(a, [1], 2);
    CountAdds(a + [1], z, 2);
  }

  lemma {:induction false} WordIs(lengths: seq<nat>, i: nat, l: nat, v: nat)
    requires i < |lengths| && lengths[i] == l && FirstCode(lengths, l) + Count(lengths[..i], l) == v
    ensures Word(lengths, i) == MsbBits(v, l)
  {
    hide FirstCode, Count, MsbBits;
  }

  lemma {:induction false} CloseWords()
    ensures |LzhBlock.CloseLit()| == 258
    ensures Word(LzhBlock.CloseLit(), 65) == [false] && Word(LzhBlock.CloseLit(), END_BLOCK) == [true, false]
  {
    hide FirstCode, Count, MsbBits, Word, MaxLen, Kraft, LzhBlock.CloseLit;
    LzhBlock.CloseTrees();
    CloseCounts();
    FirstCodes(LzhBlock.CloseLit());
    TwoMsb();
    WordIs(LzhBlock.CloseLit(), 65, 1, 0);
    WordIs(LzhBlock.CloseLit(), 256, 2, 2);
  }

  /** The header can be read whatever follows, the letter only with a bit behind the block. */
  lemma {:induction false} LetterReadable(n: nat)
    ensures BlockOk(LETTER_A) && BlocksOk([LETTER_A])
    ensures StreamReadable([LETTER_A], n) <==> n >= 1
  {
    hide *;
    LetterOk();
    HeadOk();
    LzhBlock.CloseBlock(n);
    HeadReads(3 + n);
    LetterParts(n);
    OneReadable(LETTER_A, n);
  }

  lemma {:induction false} LetterParts(n: nat)
    requires BlockOk(LETTER_A) && HeaderOk(HEAD) && TreesOf(HEAD) == Trees(LzhBlock.CloseLit(), [1])
    requires |BodyBits(LETTER_A)| == 3 && HeaderReadable(HEAD, 3 + n)
    ensures LzhBlock.ItemsOk(LzhBlock.CloseLit(), [1], [LzhBlock.Lit(65)]) && Used(LzhBlock.CloseLit(), END_BLOCK)
    ensures BlockReadable(LETTER_A, n) <==> LzhBlock.BlockReadable(LzhBlock.CloseLit(), [1], [LzhBlock.Lit(65)], n)
  {
    hide HeaderOk, HeaderReadable, TreesOf, BodyBits, LzhBlock.BlockReadable, LzhBlock.CloseLit, LzhBlock.ItemsOk, Kraft;
  }

  lemma {:induction false} OneReadable(b: Block, n: nat)
    requires BlockOk(b)
    ensures BlocksOk([b]) && (StreamReadable([b], n) <==> BlockReadable(b, n))
  {
    hide BlockOk, BlockReadable, BlockBits;
    assert [b][1..] == [];
    assert BlocksOk([]) && StreamBits([]) == [] && StreamReadable([], n);
  }

  lemma {:induction false} HeadReads(n: nat)
    requires HeaderOk(HEAD)
    ensures HeaderReadable(HEAD, n)
  {
    SentRanked();
    BitLensValid();
    BitLenWords();
    hide LzhTrees.Ranked, Kraft, OpsBits, LengthsOf, BitLens, MaxLen;
    TwoEach(BitLens(), LIT_OPS, |OpsBits(BitLens(), DIST_OPS)| + n);
    TwoEach(BitLens(), DIST_OPS, n);
  }

  lemma {:induction false} TwoEach(bl: seq<nat>, ops: seq<Op>, n: nat)
    requires OpsOk(bl, ops) && MaxLen(bl) == 2
    requires forall k :: 0 <= k < |ops| ==> ops[k].sym < |bl| && bl[ops[k].sym] == 2
    ensures OpsReadable(bl, ops, n)
    decreases |ops|
  {
    hide MaxLen, Word, Pow2, Width;
    if ops != [] {
      assert OpOk(bl, ops[0]);
      TwoEach(bl, ops[1..], n);
    }
  }

  // ----- the file, bit for bit -----

  lemma {:induction false} ByteOut(d: seq<bool>, rest: seq<bool>)
    requires |d| == 8
    ensures FromBits(d) < 256 && ToBytes(d + rest) == [FromBits(d) as byte] + ToBytes(rest)
  {
    ByteBound(d);
    hide FromBits;
    if rest == [] {
      assert d + rest == d;
    } else {
      assert (d + rest)[..8] == d && (d + rest)[8..] == rest;
    }
  }

  lemma {:induction false} TripleBits()
    ensures ToBits(0, 3) == [false, false, false] && ToBits(2, 3) == [false, true, false]
  {
    assert ToBits(0, 0) == [] && ToBits(0, 1) == [false] && ToBits(1, 1) == [true];
    assert ToBits(0, 2) == [false] + ToBits(0, 1) && ToBits(1, 2) == [true] + ToBits(0, 1);
  }

  lemma {:induction false} PackedZeros(n: nat)
    ensures Packed(Repeat(n, 0), 3) == Zeros(3 * n)
  {
    if n == 0 {
      assert Repeat(0, 0) == [] && Packed([], 3) == Zeros(0);
    } else {
      TripleBits();
      PackedZeros(n - 1);
      hide ToBits;
      assert Repeat(n, 0)[1..] == Repeat(n - 1, 0);
      assert [false, false, false] + Zeros(3 * (n - 1)) == Zeros(3 * n);
    }
  }

  lemma {:induction false} SentBits()
    ensures Packed(SENT, 3) ==
            Zeros(6) + ([false, true, false] + (Zeros(24) + ([false, true, false] + (Zeros(9) +
            ([false, true, false] + (Zeros(3) + [false, true, false]))))))
  {
    TripleBits();
    PackedZeros(2);
    PackedZeros(8);
    PackedZeros(3);
    PackedZeros(1);
    PackedSingle(2, 3);
    var e := [2] + (Repeat(1, 0) + [2]);
    var d := [2] + (Repeat(3, 0) + e);
    var c := [2] + (Repeat(8, 0) + d);
    assert SENT == Repeat(2, 0) + c;
    hide Packed, ToBits, Repeat, Zeros;
    PackedConcat(Repeat(1, 0), [2], 3);
    PackedConcat([2], Repeat(1, 0) + [2], 3);
    PackedConcat(Repeat(3, 0), e, 3);
    PackedConcat([2], Repeat(3, 0) + e, 3);
    PackedConcat(Repeat(8, 0), d, 3);
    PackedConcat([2], Repeat(8, 0) + d, 3);
    PackedConcat(Repeat(2, 0), c, 3);
  }

  lemma {:induction false} ExtraBits54()
    ensures ToBits(54, 7) == [false, true, true, false, true, true, false]
  {
  }

  lemma {:induction false} ExtraBits127()
    ensures ToBits(127, 7) == [true, true, true, true, true, true, true]
  {
  }

  lemma {:induction false} ExtraBits41()
    ensures ToBits(41, 7) == [true, false, false, true, false, true, false]
  {
  }

  lemma {:induction false} CountNumbers()
    ensures ToBits(1, 5) == [true, false, false, false, false] && ToBits(0, 5) == [false, false, false, false, false]
    ensures ToBits(14, 4) == [false, true, true, true] && ToBits(2, 2) == [false, true] && ToBits(1, 2) == [true, false]
  {
  }

  lemma {:induction false} OpsStep(bl: seq<nat>, op: Op, ops: seq<Op>)
    requires OpsOk(bl, [op] + ops)
    ensures op.sym < |bl| && OpsOk(bl, ops)
    ensures OpsBits(bl, [op] + ops) == Word(bl, op.sym) + (ToBits(op.extra, Width(op.sym)) + OpsBits(bl, ops))
  {
    hide OpOk, Word, ToBits, Width;
    assert OpOk(bl, ([op] + ops)[0]);
    OpSym(bl, op);
    assert ([op] + ops)[1..] == ops;
    forall k | 0 <= k < |ops| ensures OpOk(bl, ops[k]) {
      assert ops[k] == ([op] + ops)[k + 1];
    }
  }

  lemma {:induction false} OpSym(bl: seq<nat>, op: Op)
    requires OpOk(bl, op)
    ensures op.sym < |bl|
  {
  }

  lemma {:induction false} PlainStep(bl: seq<nat>, op: Op, ops: seq<Op>)
    requires OpsOk(bl, [op] + ops) && op.sym < 16
    ensures op.sym < |bl| && OpsOk(bl, ops)
    ensures OpsBits(bl, [op] + ops) == Word(bl, op.sym) + OpsBits(bl, ops)
  {
    OpsStep(bl, op, ops);
    hide OpsOk, OpsBits, Word;
    assert ToBits(op.extra, 0) + OpsBits(bl, ops) == OpsBits(bl, ops);
  }

  lemma {:induction false} LitOpBits()
    ensures OpsOk(BitLens(), LIT_OPS) && OpsOk(BitLens(), DIST_OPS)
    ensures OpsBits(BitLens(), LIT_OPS) ==
            [true, true] + (ToBits(54, 7) + ([false, false] + ([true, true] + (ToBits(127, 7) +
            ([true, true] + (ToBits(41, 7) + ([false, true] + [true, false])))))))
    ensures OpsBits(BitLens(), DIST_OPS) == [false, false]
  {
    OpsFine();
    BitLenWords();
    hide Word, ToBits, OpsOk, BitLens, OpsBits;
    var bl := BitLens();
    var e := [Op(2, 0)] + ([Op(4, 0)] + []);
    var c := [Op(18, 127)] + ([Op(18, 41)] + e);
    assert LIT_OPS == [Op(18, 54)] + ([Op(1, 0)] + c) && DIST_OPS == [Op(1, 0)] + [];
    NoOps(bl);
    OpsStep(bl, Op(18, 54), [Op(1, 0)] + c);
    PlainStep(bl, Op(1, 0), c);
    OpsStep(bl, Op(18, 127), [Op(18, 41)] + e);
    OpsStep(bl, Op(18, 41), e);
    PlainStep(bl, Op(2, 0), [Op(4, 0)] + []);
    PlainStep(bl, Op(4, 0), []);
    PlainStep(bl, Op(1, 0), []);
    assert [true, false] + [] == [true, false] && [false, false] + [] == [false, false];
  }

  lemma {:induction false} NoOps(bl: seq<nat>)
    ensures OpsOk(bl, []) && OpsBits(bl, []) == []
  {
  }

  // The bits byte by byte.

  function Bytes0To6(): seq<bool> {
    [true, false, false, true, false, true, true, false] +
    [false, false, false, false, false, false, false, false] +
    [false, true, true, true, false, false, false, false] +
    [false, false, false, true, false, false, false, false] +
    [false, false, false, false, false, false, false, false] +
    [false, false, false, false, false, false, false, false] +
    [false, false, false, false, false, false, true, false]
  }

  function Bytes7To11(): seq<bool> {
    [false, false, false, false, false, false, false, false] +
    [false, false, true, false, false, false, false, false] +
    [true, false, true, true, false, true, true, false] +
    [true, true, false, false, false, true, true, true] +
    [true, true, true, true, true, true, true, true]
  }

  function Bytes12To13(): seq<bool> {
    [true, false, false, true, false, true, false, false] +
    [true, true, false, false, false, false, true, false]
  }

  lemma {:induction false} FirstPart()
    ensures [true, false, false] + [true] + [false, true] + ToBits(1, 5) + ToBits(0, 5) + ToBits(14, 4) +
            Zeros(6) + [false, true, false] + Zeros(24) + [false, true, false] == Bytes0To6()
  {
    CountNumbers();
    hide ToBits;
  }

  lemma {:induction false} MiddlePart()
    ensures Zeros(9) + [false, true, false] + Zeros(3) + [false, true, false] + [true, true] + ToBits(54, 7) +
            [false, false] + [true, true] + ToBits(127, 7) + [true, true] == Bytes7To11()
  {
    ExtraBits54();
    ExtraBits127();
    hide ToBits;
  }

  lemma {:induction false} LastPart()
    ensures ToBits(41, 7) + [false, true] + [true, false] + [false, false] + [false, true, false] == Bytes12To13()
  {
    ExtraBits41();
    hide ToBits;
  }

  /** All bits in front of what follows the block. */
  lemma {:induction false} FileBits()
    ensures BlockOk(LETTER_A) && BlocksOk([LETTER_A])
    ensures NoiseBits([false]) + StreamBits([LETTER_A]) == Bytes0To6() + Bytes7To11() + Bytes12To13()
  {
    HeadOk();
    LetterOk();
    hide *;
    StreamOfOne(LETTER_A);
    BlockParts();
    NoiseParts();
    SentBits();
    LitOpBits();
    FirstPart();
    MiddlePart();
    LastPart();
    Regrouped(ToBits(1, 5), ToBits(0, 5), ToBits(14, 4), ToBits(54, 7), ToBits(127, 7), ToBits(41, 7));
  }

  lemma {:induction false} StreamOfOne(b: Block)
    requires BlockOk(b)
    ensures BlocksOk([b]) && StreamBits([b]) == BlockBits(b, true)
  {
    hide BlockOk, BlockBits;
    assert [b][1..] == [] && BlocksOk([]) && StreamBits([]) == [];
    assert BlockBits(b, true) + [] == BlockBits(b, true);
  }

  lemma {:induction false} NoiseParts()
    ensures NoiseBits([false]) == [true, false, false]
  {
    CountNumbers();
    hide ToBits;
  }

  lemma {:induction false} BlockParts()
    requires BlockOk(LETTER_A) && HeaderOk(HEAD) && TreesOf(HEAD) == Trees(LzhBlock.CloseLit(), [1])
    requires BodyBits(LETTER_A) == [false, true, false]
    ensures OpsOk(BitLens(), LIT_OPS) && OpsOk(BitLens(), DIST_OPS)
    ensures BlockBits(LETTER_A, true) ==
            [true] + (([false, true] + ((ToBits(1, 5) + (ToBits(0, 5) + ToBits(14, 4))) +
            (Packed(SENT, 3) + (OpsBits(BitLens(), LIT_OPS) + OpsBits(BitLens(), DIST_OPS))))) + [false, true, false])
  {
    SentRanked();
    OpsFine();
    CountNumbers();
    LzhBlock.CloseTrees();
    hide HeaderOk, TreesOf, LzhTrees.Ranked, OpsBits, OpsOk, Packed, ToBits, LzhBlock.CloseLit, LzhBlock.BlockBits, Kraft,
         LzhBlock.ItemsOk, BitLens;
  }

  lemma {:induction false} Regrouped(c1: seq<bool>, c0: seq<bool>, c14: seq<bool>, x54: seq<bool>, x127: seq<bool>, x41: seq<bool>)
    requires |c1| == |c0| == 5 && |c14| == 4 && |x54| == |x127| == |x41| == 7
    ensures
      var n: seq<bool> := [false, true, false];
      var sent := Zeros(6) + (n + (Zeros(24) + (n + (Zeros(9) + (n + (Zeros(3) + n))))));
      var lit := [true, true] + (x54 + ([false, false] + ([true, true] + (x127 + ([true, true] + (x41 + ([false, true] + [true, false])))))));
      [true, false, false] + ([true] + (([false, true] + ((c1 + (c0 + c14)) + (sent + (lit + [false, false])))) + n)) ==
      ([true, false, false] + [true] + [false, true] + c1 + c0 + c14 + Zeros(6) + n + Zeros(24) + n) +
      (Zeros(9) + n + Zeros(3) + n + [true, true] + x54 + [false, false] + [true, true] + x127 + [true, true]) +
      (x41 + [false, true] + [true, false] + [false, false] + n)
  {
    hide Zeros;
  }

  lemma {:induction false} FromStep(b: bool, rest: seq<bool>)
    ensures FromBits([b] + rest) == (if b then 1 else 0) + 2 * FromBits(rest)
  {
    assert ([b] + rest)[1..] == rest;
  }

  lemma {:induction false} Four(a: bool, b: bool, c: bool, d: bool, rest: seq<bool>)
    ensures FromBits([a, b, c, d] + rest) ==
            (if a then 1 else 0) + (if b then 2 else 0) + (if c then 4 else 0) + (if d then 8 else 0) + 16 * FromBits(rest)
  {
    hide FromBits;
    FromStep(d, rest);
    FromStep(c, [d] + rest);
    FromStep(b, [c] + ([d] + rest));
    FromStep(a, [b] + ([c] + ([d] + rest)));
    assert [a, b, c, d] + rest == [a] + ([b] + ([c] + ([d] + rest)));
  }

  lemma {:induction false} Eight(a: bool, b: bool, c: bool, d: bool, e: bool, f: bool, g: bool, h: bool)
    ensures FromBits([a, b, c, d, e, f, g, h]) ==
            (if a then 1 else 0) + (if b then 2 else 0) + (if c then 4 else 0) + (if d then 8 else 0) +
            (if e then 16 else 0) + (if f then 32 else 0) + (if g then 64 else 0) + (if h then 128 else 0)
  {
    assert FromBits([]) == 0;
    hide FromBits;
    Four(e, f, g, h, []);
    Four(a, b, c, d, [e, f, g, h]);
    assert [e, f, g, h] + [] == [e, f, g, h];
    assert [a, b, c, d] + [e, f, g, h] == [a, b, c, d, e, f, g, h];
  }

  lemma {:induction false} OutBytes0To6(rest: seq<bool>)
    ensures ToBytes(Bytes0To6() + rest) == BYTES_0_TO_6 + ToBytes(rest)
  {
    Eight(true, false, false, true, false, true, true, false);
    Eight(false, false, false, false, false, false, false, false);
    Eight(false, true, true, true, false, false, false, false);
    Eight(false, false, false, true, false, false, false, false);
    Eight(false, false, false, false, false, false, false, false);
    Eight(false, false, false, false, false, false, false, false);
    Eight(false, false, false, false, false, false, true, false);
    hide FromBits, ToBytes;
    var d0: seq<bool> := [true, false, false, true, false, true, true, false];
    var d1: seq<bool> := [false, false, false, false, false, false, false, false];
    var d2: seq<bool> := [false, true, true, true, false, false, false, false];
    var d3: seq<bool> := [false, false, false, true, false, false, false, false];
    var d4: seq<bool> := [false, false, false, false, false, false, false, false];
    var d5: seq<bool> := [false, false, false, false, false, false, false, false];
    var d6: seq<bool> := [false, false, false, false, false, false, true, false];
    ByteOut(d0, d1 + (d2 + (d3 + (d4 + (d5 + (d6 + rest))))));
    ByteOut(d1, d2 + (d3 + (d4 + (d5 + (d6 + rest)))));
    ByteOut(d2, d3 + (d4 + (d5 + (d6 + rest))));
    ByteOut(d3, d4 + (d5 + (d6 + rest)));
    ByteOut(d4, d5 + (d6 + rest));
    ByteOut(d5, d6 + rest);
    ByteOut(d6, rest);
    assert Bytes0To6() + rest == d0 + (d1 + (d2 + (d3 + (d4 + (d5 + (d6 + rest))))));
  }

  lemma {:induction false} OutBytes7To11(rest: seq<bool>)
    ensures ToBytes(Bytes7To11() + rest) == BYTES_7_TO_11 + ToBytes(rest)
  {
    Eight(false, false, false, false, false, false, false, false);
    Eight(false, false, true, false, false, false, false, false);
    Eight(true, false, true, true, false, true, true, false);
    Eight(true, true, false, false, false, true, true, true);
    Eight(true, true, true, true, true, true, true, true);
    hide FromBits, ToBytes;
    var d7: seq<bool> := [false, false, false, false, false, false, false, false];
    var d8: seq<bool> := [false, false, true, false, false, false, false, false];
    var d9: seq<bool> := [true, false, true, true, false, true, true, false];
    var d10: seq<bool> := [true, true, false, false, false, true, true, true];
    var d11: seq<bool> := [true, true, true, true, true, true, true, true];
    ByteOut(d7, d8 + (d9 + (d10 + (d11 + rest))));
    ByteOut(d8, d9 + (d10 + (d11 + rest)));
    ByteOut(d9, d10 + (d11 + rest));
    ByteOut(d10, d11 + rest);
    ByteOut(d11, rest);
    assert Bytes7To11() + rest == d7 + (d8 + (d9 + (d10 + (d11 + rest))));
  }

  lemma {:induction false} OutBytes12To13(rest: seq<bool>)
    ensures ToBytes(Bytes12To13() + rest) == BYTES_12_TO_13 + ToBytes(rest)
  {
    Eight(true, false, false, true, false, true, false, false);
    Eight(true, true, false, false, false, false, true, false);
    hide FromBits, ToBytes;
    var d12: seq<bool> := [true, false, false, true, false, true, false, false];
    var d13: seq<bool> := [true, true, false, false, false, false, true, false];
    ByteOut(d12, d13 + rest);
    ByteOut(d13, rest);
    assert Bytes12To13() + rest == d12 + (d13 + rest);
  }

  const HEADER_BYTES: seq<byte> := [1, 0, 0, 0, 0x12, 0x1f, 0x9d, 2]
  const BYTES_0_TO_6: seq<byte> := [0x69, 0x00, 0x0e, 0x08, 0x00, 0x00, 0x40]
  const BYTES_7_TO_11: seq<byte> := [0x00, 0x04, 0x6d, 0xe3, 0xff]
  const BYTES_12_TO_13: seq<byte> := [0x29, 0x43]

  /** The file: header, then noise, the block, and nothing else. */
  const CLOSE_FILE: seq<byte> := HEADER_BYTES + (BYTES_0_TO_6 + BYTES_7_TO_11 + BYTES_12_TO_13)

  lemma {:induction false} PayloadBytes(spare: seq<bool>)
    ensures ToBytes(Bytes0To6() + Bytes7To11() + Bytes12To13() + spare) ==
            BYTES_0_TO_6 + BYTES_7_TO_11 + BYTES_12_TO_13 + ToBytes(spare)
  {
    hide ToBytes, Bytes0To6, Bytes7To11, Bytes12To13;
    OutBytes0To6(Bytes7To11() + (Bytes12To13() + spare));
    OutBytes7To11(Bytes12To13() + spare);
    OutBytes12To13(spare);
    assert Bytes0To6() + Bytes7To11() + Bytes12To13() + spare == Bytes0To6() + (Bytes7To11() + (Bytes12To13() + spare));
  }

  lemma {:induction false} FileParts(spare: seq<bool>)
    requires BlocksOk([LETTER_A])
    requires NoiseBits([false]) + StreamBits([LETTER_A]) == Bytes0To6() + Bytes7To11() + Bytes12To13()
    requires ToBytes(Bytes0To6() + Bytes7To11() + Bytes12To13() + spare) ==
             BYTES_0_TO_6 + BYTES_7_TO_11 + BYTES_12_TO_13 + ToBytes(spare)
    requires LzwSpec.HeaderBytes(FileHeader(1, 2)) == HEADER_BYTES
    ensures File(1, 2, [false], [LETTER_A], spare) == CLOSE_FILE + ToBytes(spare)
  {
    hide BlocksOk, NoiseBits, StreamBits, ToBytes, Bytes0To6, Bytes7To11, Bytes12To13, LzwSpec.HeaderBytes, FileHeader, Expand;
  }

  lemma {:induction false} FileBytes(spare: seq<bool>)
    ensures BlocksOk([LETTER_A]) && File(1, 2, [false], [LETTER_A], spare) == CLOSE_FILE + ToBytes(spare)
  {
    FileBits();
    HeaderInBytes();
    PayloadBytes(spare);
    FileParts(spare);
    hide *;
  }

  lemma {:induction false} HeaderInBytes()
    ensures LzwSpec.HeaderBytes(FileHeader(1, 2)) == [1, 0, 0, 0, 0x12, 0x1f, 0x9d, 2]
  {
    assert LittleEndianBytes(0, 0) == [] && LittleEndianBytes(0, 1) == [0] && LittleEndianBytes(0, 2) == [0, 0];
    assert LittleEndianBytes(1, 4) == [1, 0, 0, 0];
    hide LittleEndianBytes;
  }

  lemma {:induction false} SpareByte()
    ensures ToBytes([]) == [] && ToBytes(Zeros(8)) == [0]
  {
    Eight(false, false, false, false, false, false, false, false);
    hide FromBits;
    assert Zeros(8) == [false, false, false, false, false, false, false, false];
  }

  /** A file of one valid block is refused when the block ends the data, and gives its letter when one
  more byte follows. */
  lemma {:induction false} RefusedFile()
    ensures BlocksOk([LETTER_A]) && StreamTokens([LETTER_A]) == [Literal(65)]
    ensures CLOSE_FILE == File(1, 2, [false], [LETTER_A], [])
    ensures Decompressed(CLOSE_FILE).Err? && Sapcompress.Meaning(CLOSE_FILE, 1).Err?
    ensures Decompressed(CLOSE_FILE + [0]) == Ok([65]) && Sapcompress.Meaning(CLOSE_FILE + [0], 1) == Ok([65])
  {
    hide *;
    FileBits();
    FileBytes([]);
    FileBytes(Zeros(8));
    SpareByte();
    BehindNothing();
    LetterTokens();
    LetterRead([]);
    LetterRead(Zeros(8));
    assert CLOSE_FILE + [] == CLOSE_FILE;
  }

  lemma {:induction false} LetterTokens()
    ensures BlocksOk([LETTER_A]) && StreamTokens([LETTER_A]) == [Literal(65)]
  {
    LetterOk();
    hide *;
    OneReadable(LETTER_A, 0);
    OneToken(LETTER_A);
  }

  lemma {:induction false} LetterRead(spare: seq<bool>)
    ensures BlocksOk([LETTER_A])
    ensures
      var r := Decompressed(File(1, 2, [false], [LETTER_A], spare));
      var public := Sapcompress.Meaning(File(1, 2, [false], [LETTER_A], spare), 1);
      if Behind([false], [LETTER_A], spare) >= 1 then r == public == Ok([65]) else r.Err? && public.Err?
  {
    hide *;
    LetterTokens();
    ExpandLetter();
    LetterReadable(Behind([false], [LETTER_A], spare));
    FileIff(1, 2, [false], [LETTER_A], spare);
    Sapcompress.LzhFileIff(2, [false], [LETTER_A], spare, 1);
  }

  lemma {:induction false} BehindNothing()
    requires BlocksOk([LETTER_A])
    requires NoiseBits([false]) + StreamBits([LETTER_A]) == Bytes0To6() + Bytes7To11() + Bytes12To13()
    ensures Behind([false], [LETTER_A], []) == 0 && Behind([false], [LETTER_A], Zeros(8)) == 8
  {
    hide BlocksOk, NoiseBits, StreamBits;
  }

  lemma {:induction false} OneToken(b: Block)
    requires BlockOk(b) && BlocksOk([b])
    ensures StreamTokens([b]) == BlockTokens(b)
  {
    hide BlockOk, BlockTokens;
    assert [b][1..] == [] && StreamTokens([]) == [];
  }

  lemma {:induction false} ExpandLetter()
    ensures Expand([], [Literal(65)]) == [65]
  {
    ExpandSnoc([], [], Literal(65));
    assert [] + [Literal(65)] == [Literal(65)];
  }
}
