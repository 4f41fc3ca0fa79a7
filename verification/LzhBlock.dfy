/** What a well-formed LZH block looks like, and that reading one gives its tokens back. */
module LzhBlock {
  import opened Bits
  import opened Huffman
  import opened HuffTrees
  import opened Lz77
  import opened Lzh

  /** A token with its codes spelled out: length code and extra value, distance code and extra value. */
  datatype Item = Lit(b: byte) | Match(lc: nat, le: nat, dc: nat, de: nat)

  predicate ItemOk(lit: seq<nat>, dist: seq<nat>, it: Item) {
    match it
    case Lit(b) => Used(lit, b)
    case Match(lc, le, dc, de) =>
      && lc < 29 && Used(lit, 257 + lc) && le < Pow2(LEN_EXTRA[lc])
      && dc < 30 && Used(dist, dc) && de < Pow2(DIST_EXTRA[dc]) && DistStart(dc) + de <= WINDOW_SIZE
  }

  function ItemToken(lit: seq<nat>, dist: seq<nat>, it: Item): (t: Token)
    requires ItemOk(lit, dist, it)
    ensures it.Match? ==> t.Copy?
  {
    match it
    case Lit(b) => Literal(b)
    case Match(lc, le, dc, de) => Copy(LenStart(lc) + le, DistStart(dc) + de)
  }

  function ItemBits(lit: seq<nat>, dist: seq<nat>, it: Item): seq<bool>
    requires ItemOk(lit, dist, it)
  {
    match it
    case Lit(b) => Word(lit, b)
    case Match(lc, le, dc, de) =>
      Word(lit, 257 + lc) + (ToBits(le, LEN_EXTRA[lc]) + (Word(dist, dc) + ToBits(de, DIST_EXTRA[dc])))
  }

  predicate ItemsOk(lit: seq<nat>, dist: seq<nat>, its: seq<Item>) {
    forall k :: 0 <= k < |its| ==> ItemOk(lit, dist, its[k])
  }

  function Tokens(lit: seq<nat>, dist: seq<nat>, its: seq<Item>): (ts: seq<Token>)
    requires ItemsOk(lit, dist, its)
  {
    if its == [] then []
    else
      assert ItemOk(lit, dist, its[0]);
      [ItemToken(lit, dist, its[0])] + Tokens(lit, dist, its[1..])
  }

  /** The bits of a block: its items, then the end-of-block word. */
  function BlockBits(lit: seq<nat>, dist: seq<nat>, its: seq<Item>): (b: seq<bool>)
    requires ItemsOk(lit, dist, its) && Used(lit, END_BLOCK)
    ensures |b| >= lit[END_BLOCK]
  {
    if its == [] then Word(lit, END_BLOCK)
    else
      assert ItemOk(lit, dist, its[0]);
      ItemBits(lit, dist, its[0]) + BlockBits(lit, dist, its[1..])
  }

  /** No length code reaches past 258. */
  lemma {:induction false} LengthInRange(lc: nat, le: nat)
    requires lc < 29 && le < Pow2(LEN_EXTRA[lc])
    ensures MIN_MATCH <= LenStart(lc) + le <= MAX_MATCH
  {
    LengthTop();
    LenStartGrows(lc);
  }

  /** Up to code 27 the codes tile the lengths 3 to 258. */
  lemma {:induction false} LenStartGrows(lc: nat)
    requires lc < 29
    ensures lc < 28 ==> MIN_MATCH <= LenStart(lc) && LenStart(lc) + Pow2(LEN_EXTRA[lc]) <= LenStart(27) + 32
    decreases 28 - lc
  {
    if lc < 27 {
      LenStartGrows(lc + 1);
    }
    LenStartLow(lc);
  }

  lemma {:induction false} LenStartLow(lc: nat)
    requires lc < 29
    ensures MIN_MATCH <= LenStart(lc)
  {
    if lc > 0 && lc < 28 {
      LenStartLow(lc - 1);
    }
  }

  /** A symbol with n bits behind its word can be read: there is enough to look at, or its word is as
  long as the end-of-block word, which is what the first look is for. */
  predicate SymbolReadable(lit: seq<nat>, sym: nat, n: nat)
    requires Used(lit, sym) && Used(lit, END_BLOCK)
  {
    lit[sym] + n >= MaxLen(lit) || lit[sym] == lit[END_BLOCK]
  }

  lemma {:induction false} LitLenIff(lit: seq<nat>, sym: nat, rest: seq<bool>)
    requires Kraft(lit) && Used(lit, sym) && Used(lit, END_BLOCK)
    ensures ReadLitLen(lit, Word(lit, sym) + rest) == if SymbolReadable(lit, sym, |rest|) then Some((sym, rest)) else None
  {
    hide Kraft, Word, MaxLen, ReadSymbol, ReadTwoStaged;
    var bits := Word(lit, sym) + rest;
    if |bits| >= MaxLen(lit) {
      ReadWord(lit, sym, rest);
      if EobLen(lit) < MaxLen(lit) {
        TwoStagedAgrees(lit, bits, EobLen(lit));
      }
    } else {
      TooShort(lit, bits);
      if EobLen(lit) < MaxLen(lit) {
        TwoStagedNearEnd(lit, bits, EobLen(lit));
        assert bits[lit[sym]..] == rest;
        if lit[sym] != EobLen(lit) && ReadTwoStaged(lit, bits, EobLen(lit)).Some? {
          OnlyWord(lit, sym, ReadTwoStaged(lit, bits, EobLen(lit)).value.0, bits);
        }
      }
    }
  }

  /** Two words of a valid code cannot both start the same bits. */
  lemma {:induction false} OnlyWord(lit: seq<nat>, i: nat, j: nat, bits: seq<bool>)
    requires Kraft(lit) && Used(lit, i) && Used(lit, j) && Word(lit, i) <= bits && Word(lit, j) <= bits
    ensures i == j
  {
    hide Kraft, Word;
    if i != j {
      NotPrefix(lit, i, j);
      NotPrefix(lit, j, i);
    }
  }

  /** An item with n bits behind it can be read: its symbol, and for a match its distance. */
  predicate ItemReadable(lit: seq<nat>, dist: seq<nat>, it: Item, n: nat)
    requires ItemOk(lit, dist, it) && Used(lit, END_BLOCK)
  {
    match it
    case Lit(b) => SymbolReadable(lit, b, n)
    case Match(lc, _, dc, _) =>
      && SymbolReadable(lit, 257 + lc, LEN_EXTRA[lc] + dist[dc] + DIST_EXTRA[dc] + n)
      && dist[dc] + DIST_EXTRA[dc] + n >= MaxLen(dist)
  }

  lemma {:induction false} MatchIff(lit: seq<nat>, dist: seq<nat>, it: Item, rest: seq<bool>)
    requires Kraft(lit) && Kraft(dist) && ItemOk(lit, dist, it) && Used(lit, END_BLOCK) && it.Match?
    ensures ReadToken(lit, dist, ItemBits(lit, dist, it) + rest) ==
            if ItemReadable(lit, dist, it, |rest|) then Tok(ItemToken(lit, dist, it), rest) else Bad
  {
    MatchParts(lit, dist, it, |rest|);
    hide *;
    SymbolPart(lit, dist, it, rest);
    LengthPart(lit, dist, it, rest);
    DistancePart(lit, dist, it, rest);
    AfterSymbolSize(lit, dist, it, rest);
    var t := ItemToken(lit, dist, it);
    TokenOfParts(lit, dist, ItemBits(lit, dist, it) + rest, 257 + it.lc, AfterSymbol(lit, dist, it, rest),
                 t.length, AfterLength(lit, dist, it, rest),
                 SymbolReadable(lit, 257 + it.lc, |AfterSymbol(lit, dist, it, rest)|),
                 DistanceReadable(dist, it.dc, |rest|), t.distance, rest);
  }

  predicate DistanceReadable(dist: seq<nat>, dc: nat, n: nat)
    requires Used(dist, dc) && dc < 30
  {
    dist[dc] + DIST_EXTRA[dc] + n >= MaxLen(dist)
  }

  lemma {:induction false} MatchParts(lit: seq<nat>, dist: seq<nat>, it: Item, n: nat)
    requires ItemOk(lit, dist, it) && Used(lit, END_BLOCK) && it.Match?
    ensures it.lc < 29 && Used(lit, 257 + it.lc) && it.dc < 30 && Used(dist, it.dc) && |LEN_EXTRA| > it.lc && |DIST_EXTRA| > it.dc
    ensures ItemReadable(lit, dist, it, n) <==>
              && SymbolReadable(lit, 257 + it.lc, LEN_EXTRA[it.lc] + dist[it.dc] + DIST_EXTRA[it.dc] + n)
              && DistanceReadable(dist, it.dc, n)
  {
    hide MaxLen, Pow2, DistStart;
  }

  /** The bits behind the length of a match, and behind its symbol. */
  function AfterLength(lit: seq<nat>, dist: seq<nat>, it: Item, rest: seq<bool>): seq<bool>
    requires ItemOk(lit, dist, it) && it.Match?
  {
    Word(dist, it.dc) + (ToBits(it.de, DIST_EXTRA[it.dc]) + rest)
  }

  function AfterSymbol(lit: seq<nat>, dist: seq<nat>, it: Item, rest: seq<bool>): (b: seq<bool>)
    requires ItemOk(lit, dist, it) && it.Match?
    ensures |b| >= |rest|
  {
    ToBits(it.le, LEN_EXTRA[it.lc]) + AfterLength(lit, dist, it, rest)
  }

  lemma {:induction false} AfterSymbolSize(lit: seq<nat>, dist: seq<nat>, it: Item, rest: seq<bool>)
    requires ItemOk(lit, dist, it) && it.Match?
    ensures |LEN_EXTRA| > it.lc && |DIST_EXTRA| > it.dc && Used(dist, it.dc)
    ensures |AfterSymbol(lit, dist, it, rest)| == LEN_EXTRA[it.lc] + dist[it.dc] + DIST_EXTRA[it.dc] + |rest|
  {
    hide Pow2, DistStart, Word, ToBits;
  }

  lemma {:induction false} SymbolPart(lit: seq<nat>, dist: seq<nat>, it: Item, rest: seq<bool>)
    requires Kraft(lit) && ItemOk(lit, dist, it) && Used(lit, END_BLOCK) && it.Match? && Used(lit, 257 + it.lc)
    ensures
      var after := AfterSymbol(lit, dist, it, rest);
      ReadLitLen(lit, ItemBits(lit, dist, it) + rest) ==
      if SymbolReadable(lit, 257 + it.lc, |after|) then Some((257 + it.lc, after)) else None
  {
    ItemShape(lit, dist, it, rest);
    LitLenIff(lit, 257 + it.lc, AfterSymbol(lit, dist, it, rest));
  }

  lemma {:induction false} LengthPart(lit: seq<nat>, dist: seq<nat>, it: Item, rest: seq<bool>)
    requires ItemOk(lit, dist, it) && it.Match?
    ensures ReadLength(257 + it.lc, AfterSymbol(lit, dist, it, rest)) == Some((ItemToken(lit, dist, it).length, AfterLength(lit, dist, it, rest)))
  {
    hide LenStart, DistStart, Word, ToBits, Pow2, AfterLength, ReadLength;
    LengthBack(it.lc, it.le, AfterLength(lit, dist, it, rest));
  }

  lemma {:induction false} DistancePart(lit: seq<nat>, dist: seq<nat>, it: Item, rest: seq<bool>)
    requires Kraft(dist) && ItemOk(lit, dist, it) && it.Match? && Used(dist, it.dc) && it.dc < 30
    ensures ReadDistance(dist, AfterLength(lit, dist, it, rest)) ==
            if DistanceReadable(dist, it.dc, |rest|) then Some((ItemToken(lit, dist, it).distance, rest)) else None
  {
    hide LenStart, DistStart, Word, ToBits, Pow2, ReadDistance, Kraft, MaxLen, DistanceReadable;
    DistanceIff(dist, it.dc, it.de, rest);
  }

  lemma {:induction false} ItemShape(lit: seq<nat>, dist: seq<nat>, it: Item, rest: seq<bool>)
    requires ItemOk(lit, dist, it) && it.Match?
    ensures ItemBits(lit, dist, it) + rest == Word(lit, 257 + it.lc) + AfterSymbol(lit, dist, it, rest)
  {
    hide Word, ToBits, Pow2, LenStart, DistStart, LEN_EXTRA, DIST_EXTRA;
    ExtraSizes();
    Reassociate(Word(lit, 257 + it.lc), ToBits(it.le, LEN_EXTRA[it.lc]), Word(dist, it.dc), ToBits(it.de, DIST_EXTRA[it.dc]), rest);
  }

  lemma {:induction false} Reassociate(a: seq<bool>, b: seq<bool>, c: seq<bool>, d: seq<bool>, rest: seq<bool>)
    ensures a + (b + (c + d)) + rest == a + (b + (c + (d + rest)))
  {
  }

  lemma {:induction false} TokenOfParts(lit: seq<nat>, dist: seq<nat>, bits: seq<bool>, sym: nat, b1: seq<bool>,
                                        length: nat, b2: seq<bool>, readable: bool, reachable: bool,
                                        distance: nat, rest: seq<bool>)
    requires ReadLitLen(lit, bits) == (if readable then Some((sym, b1)) else None) && sym >= 257
    requires ReadLength(sym, b1) == Some((length, b2))
    requires ReadDistance(dist, b2) == if reachable then Some((distance, rest)) else None
    ensures ReadToken(lit, dist, bits) == if readable && reachable then Tok(Copy(length, distance), rest) else Bad
  {
    hide ReadLitLen, ReadLength, ReadDistance;
  }

  lemma {:induction false} LengthBack(lc: nat, le: nat, rest: seq<bool>)
    requires lc < 29 && le < Pow2(LEN_EXTRA[lc])
    ensures ReadLength(257 + lc, ToBits(le, LEN_EXTRA[lc]) + rest) == Some((LenStart(lc) + le, rest))
  {
    LengthInRange(lc, le);
    ExtraBack(le, LEN_EXTRA[lc], rest);
    hide LenStart, ToBits, TakeExtra;
  }

  lemma {:induction false} DistanceIff(dist: seq<nat>, dc: nat, de: nat, rest: seq<bool>)
    requires Kraft(dist) && dc < 30 && Used(dist, dc) && de < Pow2(DIST_EXTRA[dc])
    requires DistStart(dc) + de <= WINDOW_SIZE
    ensures ReadDistance(dist, Word(dist, dc) + (ToBits(de, DIST_EXTRA[dc]) + rest)) ==
            if DistanceReadable(dist, dc, |rest|) then Some((DistStart(dc) + de, rest)) else None
  {
    var n := DIST_EXTRA[dc];
    DistanceParts(dist, dc, de, n, rest);
  }

  lemma {:induction false} DistanceParts(dist: seq<nat>, dc: nat, de: nat, n: nat, rest: seq<bool>)
    requires Kraft(dist) && dc < 30 && Used(dist, dc) && n == DIST_EXTRA[dc] && de < Pow2(n)
    requires DistStart(dc) + de <= WINDOW_SIZE
    ensures ReadDistance(dist, Word(dist, dc) + (ToBits(de, n) + rest)) ==
            if dist[dc] + n + |rest| >= MaxLen(dist) then Some((DistStart(dc) + de, rest)) else None
  {
    hide Pow2, DistStart, ToBits, TakeExtra, ReadSymbol, Word, Kraft, MaxLen, DIST_EXTRA;
    ExtraSizes();
    if dist[dc] + n + |rest| >= MaxLen(dist) {
      ReadWord(dist, dc, ToBits(de, n) + rest);
      ExtraBack(de, n, rest);
    } else {
      TooShort(dist, Word(dist, dc) + (ToBits(de, n) + rest));
    }
  }

  lemma {:induction false} ItemIff(lit: seq<nat>, dist: seq<nat>, it: Item, rest: seq<bool>)
    requires Kraft(lit) && Kraft(dist) && ItemOk(lit, dist, it) && Used(lit, END_BLOCK)
    ensures ReadToken(lit, dist, ItemBits(lit, dist, it) + rest) ==
            if ItemReadable(lit, dist, it, |rest|) then Tok(ItemToken(lit, dist, it), rest) else Bad
  {
    hide Kraft, MaxLen, Word, ReadLitLen, Pow2;
    if it.Lit? {
      LitLenIff(lit, it.b, rest);
    } else {
      MatchIff(lit, dist, it, rest);
    }
  }

  /** Every item of a block can be read, with the items behind it, the end-of-block word and n bits to
  look at. */
  predicate BlockReadable(lit: seq<nat>, dist: seq<nat>, its: seq<Item>, n: nat)
    requires ItemsOk(lit, dist, its) && Used(lit, END_BLOCK)
  {
    its == [] ||
    (assert ItemOk(lit, dist, its[0]);
     && ItemReadable(lit, dist, its[0], |BlockBits(lit, dist, its[1..])| + n)
     && BlockReadable(lit, dist, its[1..], n))
  }

  /** Reading the bits of a block, for every choice of codes and every valid pair of trees: it gives back
  the tokens and stops right after the end-of-block word exactly when every item can be read with
  what is behind it, and otherwise it is refused. */
  lemma {:induction false} BlockIff(lit: seq<nat>, dist: seq<nat>, its: seq<Item>, spare: seq<bool>)
    requires Kraft(lit) && Kraft(dist) && ItemsOk(lit, dist, its) && Used(lit, END_BLOCK)
    ensures ReadTokens(lit, dist, BlockBits(lit, dist, its) + spare) ==
            if BlockReadable(lit, dist, its, |spare|) then Some((Tokens(lit, dist, its), spare)) else None
    decreases |its|
  {
    hide Kraft, Word, ReadToken, ItemBits, ItemToken, MaxLen, ItemOk, ReadLitLen, ItemReadable;
    if its == [] {
      EndBack(lit, dist, spare);
    } else {
      assert ItemOk(lit, dist, its[0]);
      var rest := BlockBits(lit, dist, its[1..]) + spare;
      assert BlockBits(lit, dist, its) + spare == ItemBits(lit, dist, its[0]) + rest;
      ItemIff(lit, dist, its[0], rest);
      BlockIff(lit, dist, its[1..], spare);
    }
  }

  /** Behind every symbol of a block comes at least the end-of-block word; together with `spare` bits
  after the block that is enough to look at any symbol in full. */
  ghost predicate Room(lit: seq<nat>, dist: seq<nat>, spare: nat)
    requires Used(lit, END_BLOCK)
  {
    && (forall s: nat :: Used(lit, s) && s != END_BLOCK ==> lit[s] + lit[END_BLOCK] + spare >= MaxLen(lit))
    && (forall d: nat :: Used(dist, d) ==> dist[d] + lit[END_BLOCK] + spare >= MaxLen(dist))
  }

  lemma {:induction false} RoomForItem(lit: seq<nat>, dist: seq<nat>, it: Item, spare: nat, n: nat)
    requires Used(lit, END_BLOCK) && Room(lit, dist, spare) && ItemOk(lit, dist, it) && n >= lit[END_BLOCK] + spare
    ensures ItemReadable(lit, dist, it, n)
  {
    hide MaxLen, Pow2, DistStart;
  }

  lemma {:induction false} RoomForBlock(lit: seq<nat>, dist: seq<nat>, its: seq<Item>, spare: nat)
    requires ItemsOk(lit, dist, its) && Used(lit, END_BLOCK) && Room(lit, dist, spare)
    ensures BlockReadable(lit, dist, its, spare)
    decreases |its|
  {
    hide Room, ItemReadable, ItemOk, ItemBits, Word;
    if its != [] {
      assert ItemOk(lit, dist, its[0]);
      RoomForItem(lit, dist, its[0], spare, |BlockBits(lit, dist, its[1..])| + spare);
      RoomForBlock(lit, dist, its[1..], spare);
    }
  }

  lemma {:induction false} EndBack(lit: seq<nat>, dist: seq<nat>, spare: seq<bool>)
    requires Kraft(lit) && Used(lit, END_BLOCK)
    ensures ReadToken(lit, dist, Word(lit, END_BLOCK) + spare) == Done(spare)
  {
    LitLenIff(lit, END_BLOCK, spare);
    hide Word, ReadLitLen;
  }

  /** Every match the format allows has codes: length 3 to 258, distance up to the window. */
  lemma {:induction false} MatchHasCodes(length: nat, distance: nat) returns (lc: nat, le: nat, dc: nat, de: nat)
    requires MIN_MATCH <= length <= MAX_MATCH && 1 <= distance <= WINDOW_SIZE
    ensures lc < 29 && le < Pow2(LEN_EXTRA[lc]) && LenStart(lc) + le == length
    ensures dc < 30 && de < Pow2(DIST_EXTRA[dc]) && DistStart(dc) + de == distance
  {
    LengthTop();
    DistanceTop();
    hide LenStart, DistStart;
    lc := LengthCode(length, 27);
    le := length - LenStart(lc);
    dc := DistanceCode(distance, 27);
    de := distance - DistStart(dc);
  }

  lemma {:induction false} LengthCode(length: nat, c: nat) returns (lc: nat)
    requires c < 28 && MIN_MATCH <= length < LenStart(c) + Pow2(LEN_EXTRA[c])
    ensures lc < 28 && LenStart(lc) <= length < LenStart(lc) + Pow2(LEN_EXTRA[lc])
  {
    hide Pow2;
    if LenStart(c) <= length {
      lc := c;
    } else {
      lc := LengthCode(length, c - 1);
    }
  }

  lemma {:induction false} DistanceCode(distance: nat, c: nat) returns (dc: nat)
    requires c < 28 && 1 <= distance < DistStart(c) + Pow2(DIST_EXTRA[c])
    ensures dc < 28 && DistStart(dc) <= distance < DistStart(dc) + Pow2(DIST_EXTRA[dc])
  {
    hide Pow2;
    if DistStart(c) <= distance {
      dc := c;
    } else {
      dc := DistanceCode(distance, c - 1);
    }
  }

  /** The extra bits where each row of four codes starts, and how many values they have. */
  lemma {:induction false} ExtraRows()
    ensures |LEN_EXTRA| == 31
    ensures LEN_EXTRA[0] == 0 && LEN_EXTRA[4] == 0 && LEN_EXTRA[8] == 1 && LEN_EXTRA[12] == 2
    ensures LEN_EXTRA[16] == 3 && LEN_EXTRA[20] == 4 && LEN_EXTRA[27] == 5
    ensures Pow2(0) == 1 && Pow2(1) == 2 && Pow2(2) == 4 && Pow2(3) == 8 && Pow2(4) == 16 && Pow2(5) == 32
    ensures LenStart(0) == 3
  {
  }

  lemma {:induction false} LengthTop()
    ensures LenStart(27) == 227 && Pow2(LEN_EXTRA[27]) == 32
  {
    hide LenStart, Pow2, LEN_EXTRA;
    ExtraRows();
    LenRow(0, 1);
    LenRow(4, 1);
    LenRow(8, 2);
    LenRow(12, 4);
    LenRow(16, 8);
    LenRow(20, 16);
    LenTail(32);
  }

  /** Four codes share one number of extra bits. */
  lemma {:induction false} LenRow(c: nat, p: nat)
    requires c % 4 == 0 && c < 24 && Pow2(LEN_EXTRA[c]) == p
    ensures LenStart(c + 4) == LenStart(c) + 4 * p
  {
    hide Pow2;
    assert LEN_EXTRA[c] == LEN_EXTRA[c + 1] == LEN_EXTRA[c + 2] == LEN_EXTRA[c + 3];
    assert LenStart(c + 2) == LenStart(c) + 2 * p;
  }

  lemma {:induction false} LenTail(p: nat)
    requires Pow2(5) == p
    ensures LenStart(27) == LenStart(24) + 3 * p
  {
    hide Pow2;
    assert LenStart(26) == LenStart(24) + 2 * p;
  }

  /** Two codes share one number of extra bits. */
  lemma {:induction false} DistRow(c: nat, p: nat)
    requires c % 2 == 0 && c < 28 && Pow2(DIST_EXTRA[c]) == p
    ensures DistStart(c + 2) == DistStart(c) + 2 * p && DistStart(c + 1) == DistStart(c) + p
  {
    hide Pow2;
    assert DIST_EXTRA[c] == DIST_EXTRA[c + 1];
  }

  lemma {:induction false} DistanceMiddle()
    ensures DistStart(14) == 129
  {
    DistRow(0, 1);
    DistRow(2, 1);
    DistRow(4, 2);
    DistRow(6, 4);
    DistRow(8, 8);
    DistRow(10, 16);
    DistRow(12, 32);
  }

  lemma {:induction false} DistanceTop()
    ensures DistStart(27) + Pow2(DIST_EXTRA[27]) == WINDOW_SIZE + 1
  {
    DistanceMiddle();
    hide DistStart;
    DistRow(14, 64);
    DistRow(16, 128);
    DistRow(18, 256);
    DistRow(20, 512);
    DistRow(22, 1024);
    DistRow(24, 2048);
    DistRow(26, 4096);
  }

  // ----- the static trees -----

  /** Section 3.2.6 of RFC 1951. */
  function StaticLitLen(): seq<nat> {
    Repeat(144, 8) + Repeat(112, 9) + Repeat(24, 7) + Repeat(8, 8)
  }

  function StaticDist(): seq<nat> {
    Repeat(30, 5)
  }

  lemma {:induction false} RepeatAdds(s: seq<nat>, n: nat, l: nat, m: nat, p: nat)
    requires 0 < l <= m && p == Pow2(m - l)
    ensures KraftSum(s + Repeat(n, l), m) == KraftSum(s, m) + n * p
    ensures n > 0 ==> MaxLen(s + Repeat(n, l)) == if MaxLen(s) > l then MaxLen(s) else l
  {
    hide KraftSum, MaxLen, Pow2;
    if n == 0 {
      assert s + Repeat(0, l) == s;
    } else {
      RepeatAdds(s, n - 1, l, m, p);
      var shorter := s + Repeat(n - 1, l);
      assert s + Repeat(n, l) == shorter + [l];
      assert n == 1 ==> shorter == s;
      SnocAdds(shorter, l, m);
      MulStep(n, p);
    }
  }

  lemma {:induction false} MulStep(n: nat, p: nat)
    requires n > 0
    ensures n * p == (n - 1) * p + p
  {
  }

  lemma {:induction false} SnocAdds(s: seq<nat>, l: nat, m: nat)
    requires 0 < l <= m
    ensures KraftSum(s + [l], m) == KraftSum(s, m) + Pow2(m - l)
    ensures MaxLen(s + [l]) == if MaxLen(s) > l then MaxLen(s) else l
  {
    assert (s + [l])[..|s|] == s;
  }

  /** Both static trees are valid, so every static block can be read back; the litlen code is complete. */
  lemma {:induction false} StaticTreesValid()
    ensures MaxLen(StaticLitLen()) == 9 && KraftSum(StaticLitLen(), 9) == Pow2(9) && MaxLen(StaticDist()) == 5
    ensures Kraft(StaticLitLen()) && Kraft(StaticDist()) && Used(StaticLitLen(), END_BLOCK)
  {
    hide KraftSum, MaxLen;
    var a := [] + Repeat(144, 8);
    var b := a + Repeat(112, 9);
    var c := b + Repeat(24, 7);
    EmptySums();
    RepeatAdds([], 144, 8, 9, 2);
    RepeatAdds(a, 112, 9, 9, 1);
    RepeatAdds(b, 24, 7, 9, 4);
    RepeatAdds(c, 8, 8, 9, 2);
    assert StaticLitLen() == c + Repeat(8, 8);
    RepeatAdds([], 30, 5, 5, 1);
    assert StaticDist() == [] + Repeat(30, 5);
    assert Pow2(9) == 512 && Pow2(5) == 32;
  }

  lemma {:induction false} RepeatNothing(s: seq<nat>, n: nat, m: nat)
    ensures KraftSum(s + Repeat(n, 0), m) == KraftSum(s, m) && MaxLen(s + Repeat(n, 0)) == MaxLen(s)
  {
    if n == 0 {
      assert s + Repeat(0, 0) == s;
    } else {
      RepeatNothing(s, n - 1, m);
      var longer := s + Repeat(n, 0);
      assert longer[..|longer| - 1] == s + Repeat(n - 1, 0);
    }
  }

  /** Codes for "A", for the end of the block and for a length that is not used: one, two and four bits. */
  function CloseLit(): seq<nat> {
    [] + Repeat(65, 0) + [1] + Repeat(190, 0) + [2] + [4]
  }

  lemma {:induction false} CloseTrees()
    ensures |CloseLit()| == 258 && CloseLit()[65] == 1 && CloseLit()[END_BLOCK] == 2
    ensures Kraft(CloseLit()) && MaxLen(CloseLit()) == 4 && Kraft([1]) && MaxLen([1]) == 1
  {
    var a := [] + Repeat(65, 0);
    var b := a + [1] + Repeat(190, 0);
    RepeatNothing([], 65, 4);
    RepeatNothing(a + [1], 190, 4);
    SnocAdds(a, 1, 4);
    SnocAdds(b, 2, 4);
    SnocAdds(b + [2], 4, 4);
    assert Pow2(0) == 1 && Pow2(2) == 4 && Pow2(3) == 8 && Pow2(4) == 16;
    hide Repeat;
    assert KraftSum([], 4) == 0 && MaxLen([]) == 0;
    assert [1][..0] == [];
  }

  lemma {:induction false} CloseBlock(n: nat)
    ensures Kraft(CloseLit()) && Kraft([1]) && Used(CloseLit(), END_BLOCK) && ItemsOk(CloseLit(), [1], [Lit(65)])
    ensures BlockReadable(CloseLit(), [1], [Lit(65)], n) <==> n >= 1
    ensures Tokens(CloseLit(), [1], [Lit(65)]) == [Literal(65)]
  {
    CloseTrees();
    hide CloseLit, Kraft, MaxLen, Word;
    assert [Lit(65)][1..] == [];
    assert |BlockBits(CloseLit(), [1], [])| == 2;
  }

  /** A valid block the reader refuses: its one literal stands three bits before the end of the data,
      and the longest word has four. With one more bit behind it the block is read. */
  lemma {:induction false} TooCloseToTheEnd()
    ensures
      var lit, dist, its := CloseLit(), [1], [Lit(65)];
      && Kraft(lit) && Kraft(dist) && Used(lit, END_BLOCK) && ItemsOk(lit, dist, its)
      && ReadTokens(lit, dist, BlockBits(lit, dist, its)) == None
      && ReadTokens(lit, dist, BlockBits(lit, dist, its) + [false]) == Some(([Literal(65)], [false]))
  {
    hide *;
    CloseBlock(0);
    CloseBlock(1);
    BlockIff(CloseLit(), [1], [Lit(65)], []);
    BlockIff(CloseLit(), [1], [Lit(65)], [false]);
    assert BlockBits(CloseLit(), [1], [Lit(65)]) + [] == BlockBits(CloseLit(), [1], [Lit(65)]);
  }

  /** A static block needs no bits behind it. */
  lemma {:induction false} StaticRoom(spare: nat)
    ensures Used(StaticLitLen(), END_BLOCK) && Room(StaticLitLen(), StaticDist(), spare)
  {
    StaticTreesValid();
    hide MaxLen;
  }

  lemma {:induction false} EmptySums()
    ensures KraftSum([], 9) == 0 && KraftSum([], 5) == 0 && MaxLen([]) == 0
  {
  }
}
