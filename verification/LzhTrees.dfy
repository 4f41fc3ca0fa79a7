/** The trees of a dynamic LZH block (compress.py): two lists of code lengths, themselves written in
a Huffman code with runs. Both lists start afresh: a run never crosses from the first into the
second, unlike section 3.2.7 of RFC 1951. */
module LzhTrees {
  import opened Bits
  import opened BitReader
  import opened Huffman
  import opened HuffTrees
  import opened Lzh

  const LITLEN_COUNT := 286
  const DIST_COUNT := 30
  const BITLEN_COUNT := 19
  const RANKING: seq<nat> := [16, 17, 18, 0, 8, 7, 9, 6, 10, 5, 11, 4, 12, 3, 13, 2, 14, 1, 15]

  lemma {:induction false} RankingInRange(i: nat)
    requires i < BITLEN_COUNT
    ensures |RANKING| == BITLEN_COUNT && RANKING[i] < BITLEN_COUNT
  {
  }

  // ----- one list of code lengths -----

  /** Extra bits behind a symbol of the code-length alphabet. */
  function Width(sym: nat): nat {
    if sym < 16 then 0 else if sym == 16 then 2 else if sym == 17 then 3 else 7
  }

  /** The lengths a symbol stands for: itself, the last length again, or a run of zeros. */
  function RunOf(sym: nat, extra: nat, last: nat): (run: seq<nat>)
    ensures run != []
  {
    if sym < 16 then [sym]
    else if sym == 16 then Repeat(3 + extra, last)
    else if sym == 17 then Repeat(3 + extra, 0)
    else Repeat(11 + extra, 0)
  }

  /** The length a later repeat would repeat. */
  function LastOf(sym: nat, last: nat): nat {
    if sym < 16 then sym else if sym == 16 then last else 0
  }

  datatype Run = Run(lengths: seq<nat>, last: nat, rest: seq<bool>)

  function ReadRun(bl: seq<nat>, last: nat, bits: seq<bool>): (r: Option<Run>)
    ensures r.Some? ==> r.value.lengths != [] && |r.value.rest| < |bits|
  {
    match ReadSymbol(bl, bits)
    case None => None
    case Some((sym, rest)) =>
      if sym >= BITLEN_COUNT then None
      else
        match TakeExtra(rest, Width(sym))
        case None => None
        case Some((extra, end)) => Some(Run(RunOf(sym, extra, last), LastOf(sym, last), end))
  }

  /** Reading runs until there are `count` lengths; a run that overshoots is an error. */
  function ReadLengths(bl: seq<nat>, count: nat, soFar: seq<nat>, last: nat, bits: seq<bool>)
    : (r: Option<(seq<nat>, seq<bool>)>)
    requires |soFar| <= count
    ensures r.Some? ==> |r.value.0| == count && |r.value.1| <= |bits|
    decreases |bits|
  {
    if |soFar| == count then Some((soFar, bits))
    else
      match ReadRun(bl, last, bits)
      case None => None
      case Some(run) =>
        if |run.lengths| > count - |soFar| then None
        else ReadLengths(bl, count, soFar + run.lengths, run.last, run.rest)
  }

  method ReadOneRun(reader: Reader, tree: HuffTree, last: nat) returns (run: Option<(seq<nat>, nat)>)
    requires reader.Valid() && tree.Valid()
    modifies reader, tree
    ensures reader.Valid() && tree.Valid()
    ensures match ReadRun(tree.lengths, last, old(reader.Rest()))
            case None => run == None
            case Some(r) => run == Some((r.lengths, r.last)) && reader.Rest() == r.rest
  {
    hide ReadSymbol, RunOf, FromBits, RestOf, RightTable, RightCode;
    var sym := tree.ReadCode(reader);
    if sym.None? || sym.value >= BITLEN_COUNT {
      return None;
    }
    var extra := reader.ReadBits(Width(sym.value));
    if extra.None? {
      return None;
    }
    return Some((RunOf(sym.value, extra.value, last), LastOf(sym.value, last)));
  }

  method ReadEncodedLengths(reader: Reader, tree: HuffTree, count: nat) returns (lengths: Option<seq<nat>>)
    requires reader.Valid() && tree.Valid()
    modifies reader, tree
    ensures reader.Valid() && tree.Valid()
    ensures match ReadLengths(tree.lengths, count, [], 0, old(reader.Rest()))
            case None => lengths == None
            case Some((ls, rest)) => lengths == Some(ls) && reader.Rest() == rest
  {
    hide ReadRun, RestOf, RightTable, RightCode;
    var codes: seq<nat> := [];
    var last := 0;
    ghost var goal := ReadLengths(tree.lengths, count, [], 0, reader.Rest());
    while |codes| < count
      invariant reader.Valid() && tree.Valid() && |codes| <= count
      invariant goal == ReadLengths(tree.lengths, count, codes, last, reader.Rest())
      decreases count - |codes|
    {
      var run := ReadOneRun(reader, tree, last);
      if run.None? || |run.value.0| > count - |codes| {
        return None;
      }
      codes, last := codes + run.value.0, run.value.1;
    }
    return Some(codes);
  }

  // ----- the tree header -----

  lemma {:induction false} FourBits(s: seq<bool>)
    requires |s| == 4
    ensures FromBits(s) < 16
  {
    FromBitsBound(s);
  }

  /** How many literal/length, distance and code-length lengths follow. */
  datatype Counts = Counts(lit: nat, dist: nat, bl: nat)

  function ReadCounts(bits: seq<bool>): (r: Option<(Counts, seq<bool>)>)
    ensures r.Some? ==> |r.value.1| <= |bits| && r.value.0.bl <= BITLEN_COUNT
  {
    match TakeExtra(bits, 5)
    case None => None
    case Some((lit, rest1)) =>
      match TakeExtra(rest1, 5)
      case None => None
      case Some((dist, rest2)) =>
        match TakeExtra(rest2, 4)
        case None => None
        case Some((bl, rest3)) =>
          FourBits(rest2[..4]);
          if 257 + lit > LITLEN_COUNT || 1 + dist > DIST_COUNT then None
          else Some((Counts(257 + lit, 1 + dist, 4 + bl), rest3))
  }

  /** `n` numbers of three bits. */
  function ReadTriples(bits: seq<bool>, n: nat): (r: Option<(seq<nat>, seq<bool>)>)
    ensures r.Some? ==> |r.value.0| == n && |r.value.1| <= |bits|
  {
    if n == 0 then Some(([], bits))
    else
      match ReadTriples(bits, n - 1)
      case None => None
      case Some((before, rest)) =>
        match TakeExtra(rest, 3)
        case None => None
        case Some((v, end)) => Some((before + [v], end))
  }

  /** The code-length code: the lengths arrive in a fixed order, the missing ones are zero. */
  function Ranked(sent: seq<nat>): (bl: seq<nat>)
    requires |sent| <= BITLEN_COUNT
    ensures |bl| == BITLEN_COUNT
  {
    if sent == [] then Repeat(BITLEN_COUNT, 0)
    else
      var n := |sent| - 1;
      RankingInRange(n);
      Ranked(sent[..n])[RANKING[n] := sent[n]]
  }

  datatype Trees = Trees(lit: seq<nat>, dist: seq<nat>)

  function ReadTrees(bits: seq<bool>): (r: Option<(Trees, seq<bool>)>)
    ensures r.Some? ==> |r.value.1| <= |bits|
  {
    match ReadCounts(bits)
    case None => None
    case Some((counts, rest1)) =>
      match ReadTriples(rest1, counts.bl)
      case None => None
      case Some((sent, rest2)) =>
        match ReadLengths(Ranked(sent), counts.lit, [], 0, rest2)
        case None => None
        case Some((lit, rest3)) =>
          match ReadLengths(Ranked(sent), counts.dist, [], 0, rest3)
          case None => None
          case Some((dist, rest4)) => Some((Trees(lit, dist), rest4))
  }

  method ReadTreeCounts(reader: Reader) returns (counts: Option<Counts>)
    requires reader.Valid()
    modifies reader
    ensures reader.Valid()
    ensures match ReadCounts(old(reader.Rest()))
            case None => counts == None
            case Some((c, rest)) => counts == Some(c) && reader.Rest() == rest && c.bl <= BITLEN_COUNT
  {
    hide FromBits, RestOf;
    var lit := reader.ReadBits(5);
    if lit.None? {
      return None;
    }
    var dist := reader.ReadBits(5);
    if dist.None? {
      return None;
    }
    var bl := reader.ReadBits(4);
    if bl.None? || 257 + lit.value > LITLEN_COUNT || 1 + dist.value > DIST_COUNT {
      return None;
    }
    return Some(Counts(257 + lit.value, 1 + dist.value, 4 + bl.value));
  }

  method ReadBitLengths(reader: Reader, count: nat) returns (bl: Option<seq<nat>>)
    requires reader.Valid() && count <= BITLEN_COUNT
    modifies reader
    ensures reader.Valid()
    ensures match ReadTriples(old(reader.Rest()), count)
            case None => bl == None
            case Some((sent, rest)) => bl == Some(Ranked(sent)) && reader.Rest() == rest
  {
    hide FromBits, RestOf, RANKING, Ranked, TakeExtra;
    ghost var first := reader.Rest();
    ghost var sent: seq<nat> := [];
    var lengths := Repeat(BITLEN_COUNT, 0);
    RankedNone();
    for i := 0 to count
      invariant reader.Valid() && |sent| == i
      invariant ReadTriples(first, i) == Some((sent, reader.Rest())) && lengths == Ranked(sent)
    {
      RankingInRange(i);
      TriplesNext(first, i, sent, reader.Rest());
      var v := reader.ReadBits(3);
      if v.None? {
        TriplesFail(first, i + 1, count);
        return None;
      }
      RankedNext(sent, v.value);
      lengths := lengths[RANKING[i] := v.value];
      sent := sent + [v.value];
    }
    return Some(lengths);
  }

  lemma {:induction false} RankedNone()
    ensures Ranked([]) == Repeat(BITLEN_COUNT, 0)
  {
  }

  lemma {:induction false} RankedNext(sent: seq<nat>, v: nat)
    requires |sent| < BITLEN_COUNT
    ensures |RANKING| == BITLEN_COUNT && RANKING[|sent|] < BITLEN_COUNT
    ensures Ranked(sent + [v]) == Ranked(sent)[RANKING[|sent|] := v]
  {
    RankingInRange(|sent|);
    assert (sent + [v])[..|sent|] == sent;
  }

  lemma {:induction false} TriplesNext(bits: seq<bool>, n: nat, before: seq<nat>, rest: seq<bool>)
    requires ReadTriples(bits, n) == Some((before, rest))
    ensures ReadTriples(bits, n + 1) ==
            if |rest| < 3 then None else Some((before + [FromBits(rest[..3])], rest[3..]))
  {
    hide FromBits;
  }

  lemma {:induction false} TriplesFail(bits: seq<bool>, n: nat, m: nat)
    requires n <= m && ReadTriples(bits, n) == None
    ensures ReadTriples(bits, m) == None
  {
    if n < m {
      TriplesFail(bits, n, m - 1);
    }
  }

  method ReadDynamicTrees(reader: Reader) returns (lit: HuffTree?, dist: HuffTree?)
    requires reader.Valid()
    modifies reader
    ensures reader.Valid()
    ensures match ReadTrees(old(reader.Rest()))
            case None => lit == null
            case Some((trees, rest)) =>
              && lit != null && dist != null && fresh(lit) && fresh(dist) && lit != dist
              && lit.Valid() && lit.lengths == trees.lit && dist.Valid() && dist.lengths == trees.dist
              && reader.Rest() == rest
  {
    hide ReadLengths, ReadCounts, ReadTriples, Ranked, FromBits, RestOf, RightTable, RightCode;
    var counts := ReadTreeCounts(reader);
    if counts.None? {
      return null, null;
    }
    var bl := ReadBitLengths(reader, counts.value.bl);
    if bl.None? {
      return null, null;
    }
    var tree := new HuffTree.FromDistribution(bl.value);
    var litLengths := ReadEncodedLengths(reader, tree, counts.value.lit);
    if litLengths.None? {
      return null, null;
    }
    var distLengths := ReadEncodedLengths(reader, tree, counts.value.dist);
    if distLengths.None? {
      return null, null;
    }
    lit := new HuffTree.FromDistribution(litLengths.value);
    dist := new HuffTree.FromDistribution(distLengths.value);
  }

  // ----- writing the headers -----

  /** A symbol of the code-length alphabet with its extra value. */
  datatype Op = Op(sym: nat, extra: nat)

  predicate OpOk(bl: seq<nat>, op: Op) {
    op.sym < BITLEN_COUNT && Used(bl, op.sym) && op.extra < Pow2(Width(op.sym))
  }

  predicate OpsOk(bl: seq<nat>, ops: seq<Op>) {
    forall k :: 0 <= k < |ops| ==> OpOk(bl, ops[k])
  }

  function OpsBits(bl: seq<nat>, ops: seq<Op>): seq<bool>
    requires OpsOk(bl, ops)
  {
    if ops == [] then []
    else
      assert OpOk(bl, ops[0]);
      Word(bl, ops[0].sym) + (ToBits(ops[0].extra, Width(ops[0].sym)) + OpsBits(bl, ops[1..]))
  }

  /** The lengths a run of symbols stands for. */
  function LengthsOf(ops: seq<Op>, last: nat): seq<nat>
    decreases |ops|
  {
    if ops == [] then []
    else RunOf(ops[0].sym, ops[0].extra, last) + LengthsOf(ops[1..], LastOf(ops[0].sym, last))
  }

  lemma {:induction false} OpsHead(bl: seq<nat>, ops: seq<Op>, spare: seq<bool>)
    requires OpsOk(bl, ops) && ops != []
    ensures OpOk(bl, ops[0]) && ops[0].sym < |bl| && OpsOk(bl, ops[1..])
    ensures OpsBits(bl, ops) + spare ==
            Word(bl, ops[0].sym) + (ToBits(ops[0].extra, Width(ops[0].sym)) + (OpsBits(bl, ops[1..]) + spare))
  {
    hide Word, ToBits, Pow2, Width;
    assert OpOk(bl, ops[0]);
    forall k | 0 <= k < |ops[1..]|
      ensures OpOk(bl, ops[1..][k])
    {
      assert OpOk(bl, ops[k + 1]);
    }
  }

  /** A run with n bits behind it can be read: there is enough to look at for the longest word. */
  predicate OpReadable(bl: seq<nat>, op: Op, n: nat)
    requires OpOk(bl, op)
  {
    bl[op.sym] + Width(op.sym) + n >= MaxLen(bl)
  }

  lemma {:induction false} RunIff(bl: seq<nat>, op: Op, last: nat, rest: seq<bool>)
    requires Kraft(bl) && OpOk(bl, op)
    ensures ReadRun(bl, last, Word(bl, op.sym) + (ToBits(op.extra, Width(op.sym)) + rest)) ==
            if OpReadable(bl, op, |rest|) then Some(Run(RunOf(op.sym, op.extra, last), LastOf(op.sym, last), rest)) else None
  {
    hide Kraft, Word, ToBits, Pow2, MaxLen, ReadSymbol, TakeExtra, RunOf, Width;
    if OpReadable(bl, op, |rest|) {
      ReadWord(bl, op.sym, ToBits(op.extra, Width(op.sym)) + rest);
      ExtraBack(op.extra, Width(op.sym), rest);
    } else {
      TooShort(bl, Word(bl, op.sym) + (ToBits(op.extra, Width(op.sym)) + rest));
    }
  }

  /** Every run of a list can be read, with the runs after it and n bits behind it. */
  predicate OpsReadable(bl: seq<nat>, ops: seq<Op>, n: nat)
    requires OpsOk(bl, ops)
  {
    ops == [] ||
    (assert OpOk(bl, ops[0]);
     && OpReadable(bl, ops[0], |OpsBits(bl, ops[1..])| + n)
     && OpsReadable(bl, ops[1..], n))
  }

  lemma {:induction false} LengthsStep(bl: seq<nat>, count: nat, soFar: seq<nat>, last: nat, bits: seq<bool>,
                                       readable: bool, run: seq<nat>, runLast: nat, rest: seq<bool>)
    requires run != [] && |soFar| + |run| <= count
    requires ReadRun(bl, last, bits) == if readable then Some(Run(run, runLast, rest)) else None
    ensures ReadLengths(bl, count, soFar, last, bits) ==
            if readable then ReadLengths(bl, count, soFar + run, runLast, rest) else None
  {
    hide ReadRun;
  }

  /** A list of code lengths is read back, however it was split into runs, exactly when every run can be
  looked at with what is behind it; otherwise it is refused. */
  lemma {:induction false} LengthsIff(bl: seq<nat>, ops: seq<Op>, soFar: seq<nat>, last: nat, spare: seq<bool>)
    requires Kraft(bl) && OpsOk(bl, ops)
    ensures ReadLengths(bl, |soFar| + |LengthsOf(ops, last)|, soFar, last, OpsBits(bl, ops) + spare) ==
            if OpsReadable(bl, ops, |spare|) then Some((soFar + LengthsOf(ops, last), spare)) else None
    decreases |ops|
  {
    hide *;
    if ops == [] {
      LengthsNone(bl, soFar, last, spare);
    } else {
      OpsHead(bl, ops, spare);
      var op := ops[0];
      var run, rest := RunOf(op.sym, op.extra, last), OpsBits(bl, ops[1..]) + spare;
      RunIff(bl, op, last, rest);
      LengthsIff(bl, ops[1..], soFar + run, LastOf(op.sym, last), spare);
      LengthsNext(ops, last, soFar);
      OpsReadableStep(bl, ops, |spare|);
      LengthsStep(bl, |soFar| + |LengthsOf(ops, last)|, soFar, last, OpsBits(bl, ops) + spare,
                  OpReadable(bl, op, |rest|), run, LastOf(op.sym, last), rest);
    }
  }

  lemma {:induction false} LengthsNone(bl: seq<nat>, soFar: seq<nat>, last: nat, spare: seq<bool>)
    requires OpsOk(bl, [])
    ensures ReadLengths(bl, |soFar| + |LengthsOf([], last)|, soFar, last, OpsBits(bl, []) + spare) ==
            Some((soFar + LengthsOf([], last), spare))
    ensures OpsReadable(bl, [], |spare|)
  {
    assert OpsBits(bl, []) + spare == spare && soFar + [] == soFar;
  }

  lemma {:induction false} OpsReadableStep(bl: seq<nat>, ops: seq<Op>, n: nat)
    requires OpsOk(bl, ops) && ops != []
    ensures OpOk(bl, ops[0]) && OpsOk(bl, ops[1..])
    ensures OpsReadable(bl, ops, n) <==>
            OpReadable(bl, ops[0], |OpsBits(bl, ops[1..])| + n) && OpsReadable(bl, ops[1..], n)
  {
    hide OpOk, OpReadable, OpsBits;
    assert OpOk(bl, ops[0]);
  }

  lemma {:induction false} LengthsNext(ops: seq<Op>, last: nat, soFar: seq<nat>)
    requires ops != []
    ensures
      var run := RunOf(ops[0].sym, ops[0].extra, last);
      soFar + LengthsOf(ops, last) == soFar + run + LengthsOf(ops[1..], LastOf(ops[0].sym, last))
  {
    hide RunOf, LastOf;
  }

  lemma {:induction false} LengthsSmall(ops: seq<Op>, last: nat)
    requires last < 16
    ensures forall i :: 0 <= i < |LengthsOf(ops, last)| ==> LengthsOf(ops, last)[i] < 16
    decreases |ops|
  {
    if ops != [] {
      LengthsSmall(ops[1..], LastOf(ops[0].sym, last));
    }
  }

  /** Every list of lengths up to 15 can be written, one symbol a length. */
  function PlainOps(lengths: seq<nat>): seq<Op> {
    if lengths == [] then [] else [Op(lengths[0], 0)] + PlainOps(lengths[1..])
  }

  lemma {:induction false} PlainBack(lengths: seq<nat>, last: nat)
    requires forall i :: 0 <= i < |lengths| ==> lengths[i] < 16
    ensures LengthsOf(PlainOps(lengths), last) == lengths
    decreases |lengths|
  {
    if lengths != [] {
      PlainBack(lengths[1..], lengths[0]);
      assert PlainOps(lengths)[1..] == PlainOps(lengths[1..]);
    }
  }

  /** A tree header: the code-length lengths in sending order, then the two lists as runs. */
  datatype TreeHeader = TreeHeader(sent: seq<nat>, lit: seq<Op>, dist: seq<Op>)

  function TreesOf(h: TreeHeader): Trees {
    Trees(LengthsOf(h.lit, 0), LengthsOf(h.dist, 0))
  }

  predicate HeaderOk(h: TreeHeader) {
    && 4 <= |h.sent| <= BITLEN_COUNT && (forall i :: 0 <= i < |h.sent| ==> h.sent[i] < 8)
    && Kraft(Ranked(h.sent)) && OpsOk(Ranked(h.sent), h.lit) && OpsOk(Ranked(h.sent), h.dist)
    && 257 <= |TreesOf(h).lit| <= LITLEN_COUNT && 1 <= |TreesOf(h).dist| <= DIST_COUNT
  }

  function CountBits(lit: nat, dist: nat, bl: nat): seq<bool>
    requires 257 <= lit && 1 <= dist && 4 <= bl
  {
    ToBits(lit - 257, 5) + (ToBits(dist - 1, 5) + ToBits(bl - 4, 4))
  }

  function HeaderBits(h: TreeHeader): seq<bool>
    requires HeaderOk(h)
  {
    CountBits(|TreesOf(h).lit|, |TreesOf(h).dist|, |h.sent|) +
    (Packed(h.sent, 3) + (OpsBits(Ranked(h.sent), h.lit) + OpsBits(Ranked(h.sent), h.dist)))
  }

  lemma {:induction false} SmallPowers()
    ensures Pow2(3) == 8 && Pow2(4) == 16 && Pow2(5) == 32
  {
  }

  lemma {:induction false} CountsBack(lit: nat, dist: nat, bl: nat, rest: seq<bool>)
    requires 257 <= lit <= LITLEN_COUNT && 1 <= dist <= DIST_COUNT && 4 <= bl <= BITLEN_COUNT
    ensures ReadCounts(CountBits(lit, dist, bl) + rest) == Some((Counts(lit, dist, bl), rest))
  {
    hide ToBits, Pow2, TakeExtra;
    SmallPowers();
    var rest2 := ToBits(bl - 4, 4) + rest;
    var rest1 := ToBits(dist - 1, 5) + rest2;
    assert CountBits(lit, dist, bl) + rest == ToBits(lit - 257, 5) + rest1;
    ExtraBack(lit - 257, 5, rest1);
    ExtraBack(dist - 1, 5, rest2);
    ExtraBack(bl - 4, 4, rest);
  }

  lemma {:induction false} TriplesBack(sent: seq<nat>, rest: seq<bool>)
    requires forall i :: 0 <= i < |sent| ==> sent[i] < 8
    ensures ReadTriples(Packed(sent, 3) + rest, |sent|) == Some((sent, rest))
  {
    if sent == [] {
      assert Packed(sent, 3) + rest == rest;
    } else {
      var n := |sent| - 1;
      assert sent == sent[..n] + [sent[n]];
      hide ToBits, Pow2, TakeExtra;
      SmallPowers();
      PackedConcat(sent[..n], [sent[n]], 3);
      PackedSingle(sent[n], 3);
      assert Packed(sent, 3) + rest == Packed(sent[..n], 3) + (ToBits(sent[n], 3) + rest);
      TriplesBack(sent[..n], ToBits(sent[n], 3) + rest);
      ExtraBack(sent[n], 3, rest);
    }
  }

  lemma {:induction false} RankedSmall(sent: seq<nat>)
    requires |sent| <= BITLEN_COUNT && forall i :: 0 <= i < |sent| ==> sent[i] < 8
    ensures forall i :: 0 <= i < BITLEN_COUNT ==> Ranked(sent)[i] < 8
  {
    if sent != [] {
      RankedSmall(sent[..|sent| - 1]);
    }
  }

  /** Every run of both lists can be read, with n bits behind the header. */
  predicate HeaderReadable(h: TreeHeader, n: nat)
    requires HeaderOk(h)
  {
    var bl := Ranked(h.sent);
    OpsReadable(bl, h.lit, |OpsBits(bl, h.dist)| + n) && OpsReadable(bl, h.dist, n)
  }

  /** Reading a tree header gives both lists back and stops right after it exactly when every run of both
  can be looked at with what is behind it; otherwise it is refused. */
  lemma {:induction false} TreesIff(h: TreeHeader, rest: seq<bool>)
    requires HeaderOk(h)
    ensures ReadTrees(HeaderBits(h) + rest) == if HeaderReadable(h, |rest|) then Some((TreesOf(h), rest)) else None
  {
    hide Kraft, OpsOk, Ranked, CountBits, OpsBits, Packed, ReadCounts, ReadTriples, ReadLengths, LengthsOf, MaxLen,
         OpsReadable;
    var bl := Ranked(h.sent);
    var rest3 := OpsBits(bl, h.dist) + rest;
    var rest2 := OpsBits(bl, h.lit) + rest3;
    var rest1 := Packed(h.sent, 3) + rest2;
    assert HeaderBits(h) + rest == CountBits(|TreesOf(h).lit|, |TreesOf(h).dist|, |h.sent|) + rest1;
    CountsBack(|TreesOf(h).lit|, |TreesOf(h).dist|, |h.sent|, rest1);
    TriplesBack(h.sent, rest2);
    LengthsIff(bl, h.lit, [], 0, rest3);
    LengthsIff(bl, h.dist, [], 0, rest);
    assert [] + LengthsOf(h.lit, 0) == LengthsOf(h.lit, 0) && [] + LengthsOf(h.dist, 0) == LengthsOf(h.dist, 0);
  }

  /** The words of the code-length code have at most seven bits, so six bits behind a header are always
  enough. */
  lemma {:induction false} SixEnough(h: TreeHeader, n: nat)
    requires HeaderOk(h) && n >= 6
    ensures HeaderReadable(h, n)
  {
    hide Kraft, OpsOk, Ranked, LengthsOf, OpsReadable, OpsBits;
    RankedSmall(h.sent);
    MaxLenBound(Ranked(h.sent), 7);
    OpsEnough(Ranked(h.sent), h.lit, |OpsBits(Ranked(h.sent), h.dist)| + n);
    OpsEnough(Ranked(h.sent), h.dist, n);
  }

  lemma {:induction false} OpsEnough(bl: seq<nat>, ops: seq<Op>, n: nat)
    requires OpsOk(bl, ops) && n + 1 >= MaxLen(bl)
    ensures OpsReadable(bl, ops, n)
    decreases |ops|
  {
    hide MaxLen, Word, Pow2, Width;
    if ops != [] {
      assert OpOk(bl, ops[0]);
      OpsEnough(bl, ops[1..], n);
    }
  }
}
