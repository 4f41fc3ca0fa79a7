/** The Huffman decoder class of `compress.py`: code assignment, the lookup table, and both ways
of reading a code, proved against module `Huffman`. */
module HuffTrees {
  import opened Bits
  import opened BitReader
  import opened Huffman
  import Shifts

  /** The number stored for a symbol: its word, first bit lowest; -1 for an unused symbol. */
  ghost predicate RightCode(lengths: seq<nat>, i: nat, code: int)
    requires i < |lengths|
  {
    if lengths[i] == 0 then code == -1
    else 0 <= code < Pow2(lengths[i]) && ToBits(code, lengths[i]) == Word(lengths, i)
  }

  lemma {:induction false} CodeStored(lengths: seq<nat>, i: nat, rev: nat)
    requires i < |lengths| && lengths[i] > 0 && rev < Pow2(lengths[i])
    requires ToBits(rev, lengths[i]) == MsbBits(FirstCode(lengths, lengths[i]) + Count(lengths[..i], lengths[i]), lengths[i])
    ensures RightCode(lengths, i, rev)
  {
    hide Pow2, ToBits, MsbBits, FirstCode, Count;
  }

  lemma {:induction false} NothingStored(lengths: seq<nat>, i: nat)
    requires i < |lengths| && lengths[i] == 0
    ensures RightCode(lengths, i, -1)
  {
  }

  lemma {:induction false} CountNone(l: nat)
    ensures Count([], l) == 0
  {
  }

  lemma {:induction false} CountNext(lengths: seq<nat>, i: nat)
    requires i < |lengths|
    ensures forall l: nat :: Count(lengths[..i + 1], l) == Count(lengths[..i], l) + if lengths[i] == l then 1 else 0
  {
    assert lengths[..i + 1][..i] == lengths[..i];
  }

  /** What the lookup table must hold at an index. */
  function Entry(lengths: seq<nat>, upto: nat, raw: nat): Option<nat>
    requires upto <= |lengths|
  {
    Match(lengths, upto, ToBits(raw, MaxLen(lengths)))
  }

  function LengthOf(lengths: seq<nat>, entry: Option<nat>): nat {
    if entry.Some? && entry.value < |lengths| then lengths[entry.value] else 0
  }

  lemma {:induction false} MsbNext(v: nat, k: nat)
    ensures MsbBits(v, k + 1) == [Shr(v, k) % 2 == 1] + MsbBits(v, k)
    decreases k
  {
    if k > 0 {
      MsbNext(v / 2, k - 1);
    }
  }

  lemma {:induction false} ShrNext(v: nat, k: nat)
    ensures Shr(v, k + 1) == Shr(v, k) / 2
    decreases k
  {
    if k > 0 {
      ShrNext(v / 2, k - 1);
    }
  }

  lemma {:induction false} BitOrRight(a: nat)
    ensures BitOr(a, 0) == a
  {
    if a > 0 {
      BitOrRight(a / 2);
    }
  }

  lemma {:induction false} ShlOne(v: nat)
    ensures Shl(v, 1) == 2 * v
  {
    assert Shl(v, 0) == v;
  }

  /** `(a << 1) | b` for a single bit. */
  lemma {:induction false} AppendBit(a: nat, b: nat)
    requires b < 2
    ensures BitOr(Shl(a, 1), b) == 2 * a + b
  {
    ShlOne(a);
    BitOrRight(a);
    assert (2 * a) / 2 == a && b / 2 == 0;
  }

  /** Reverses the low `length` bits of a value. */
  method ReverseInt(value: nat, length: nat) returns (rev: nat)
    ensures rev < Pow2(length) && ToBits(rev, length) == MsbBits(value, length)
  {
    rev := 0;
    var v := value;
    for k := 0 to length
      invariant v == Shr(value, k) && rev < Pow2(k) && ToBits(rev, k) == MsbBits(value, k)
    {
      AppendBit(rev, v % 2);
      MsbNext(value, k);
      ShrNext(value, k);
      var rev' := BitOr(Shl(rev, 1), v % 2);
      rev := rev';
      v := v / 2;
    }
  }

  /** A table index starts with the word of symbol `i` exactly when its low bits are the code. */
  lemma {:induction false} IndexMatches(lengths: seq<nat>, i: nat, code: nat, raw: nat)
    requires Used(lengths, i) && RightCode(lengths, i, code)
    ensures Word(lengths, i) <= ToBits(raw, MaxLen(lengths)) <==> LowBits(raw, lengths[i]) == code
  {
    var cl, m := lengths[i], MaxLen(lengths);
    var low := LowBits(raw, cl);
    assert cl + (m - cl) == m;
    ToBitsSplit(raw, cl, m - cl);
    var bits, word := ToBits(raw, m), Word(lengths, i);
    assert bits[..cl] == ToBits(low, cl);
    assert word <= bits <==> bits[..cl] == word;
    LowBitsBound(raw, cl);
    LowBitsFits(low, cl);
    LowBitsFits(code, cl);
    FromToBits(low, cl);
    FromToBits(code, cl);
  }

  lemma {:induction false} FirstCodeStep(lengths: seq<nat>, l: nat)
    requires l > 0
    ensures FirstCode(lengths, l) == 2 * (FirstCode(lengths, l - 1) + CodesOfLength(lengths, l - 1))
  {
  }

  ghost predicate RightTable(lengths: seq<nat>, lengthLut: seq<nat>, nodeLut: seq<Option<nat>>, upto: nat)
    requires upto <= |lengths|
  {
    && |nodeLut| == Pow2(MaxLen(lengths)) && Aligned(lengths, lengthLut, nodeLut)
    && (forall raw :: 0 <= raw < |nodeLut| ==> nodeLut[raw] == Entry(lengths, upto, raw))
  }

  /** The length table agrees with the symbol table. */
  ghost predicate Aligned(lengths: seq<nat>, lengthLut: seq<nat>, nodeLut: seq<Option<nat>>) {
    |lengthLut| == |nodeLut| &&
    forall raw :: 0 <= raw < |nodeLut| ==> lengthLut[raw] == LengthOf(lengths, nodeLut[raw])
  }

  /** The table once the first `e` entries of a symbol's code are written. */
  ghost predicate Filling(now: seq<Option<nat>>, was: seq<Option<nat>>, code: nat, cl: nat, e: nat, i: nat) {
    |now| == |was| &&
    forall raw :: 0 <= raw < |now| ==>
      now[raw] == if LowBits(raw, cl) == code && Shr(raw, cl) < e then Some(i) else was[raw]
  }

  lemma {:induction false} FillNone(was: seq<Option<nat>>, code: nat, cl: nat, i: nat)
    ensures Filling(was, was, code, cl, 0, i)
  {
  }

  lemma {:induction false} FillNext(now: seq<Option<nat>>, was: seq<Option<nat>>, code: nat, cl: nat, e: nat, i: nat, idx: nat)
    requires Filling(now, was, code, cl, e, i) && code < Pow2(cl)
    requires idx == code + Shl(e, cl) < |now|
    ensures Filling(now[idx := Some(i)], was, code, cl, e + 1, i)
  {
    hide LowBits, Shr, Shl, Pow2;
    Shifts.Fields(code, cl, e);
    forall raw: nat | LowBits(raw, cl) == code && Shr(raw, cl) == e
      ensures raw == idx
    {
      Shifts.Rejoin(raw, cl);
    }
  }

  lemma {:induction false} AlignedNext(lengths: seq<nat>, l: seq<nat>, n: seq<Option<nat>>, idx: nat, i: nat)
    requires Aligned(lengths, l, n) && idx < |n| && i < |lengths|
    ensures Aligned(lengths, l[idx := lengths[i]], n[idx := Some(i)])
  {
  }

  lemma {:induction false} CodeRange(lengths: seq<nat>, i: nat, code: nat)
    requires Used(lengths, i) && RightCode(lengths, i, code)
    ensures code < Pow2(lengths[i]) && lengths[i] <= MaxLen(lengths)
  {
  }

  lemma {:induction false} IndexInRange(code: nat, cl: nat, e: nat, m: nat)
    requires cl <= m && code < Pow2(cl) && e < Pow2(m - cl)
    ensures BitOr(code, Shl(e, cl)) == code + Shl(e, cl) < Pow2(m)
  {
    hide Shl, Pow2, BitOr;
    BitOrShifted(code, cl, e);
    ShlBound(code, cl, e, m - cl);
    assert cl + (m - cl) == m;
  }

  /** The entries of one more symbol, all of them written. */
  lemma {:induction false} TableNext(lengths: seq<nat>, l: seq<nat>, n: seq<Option<nat>>, was: seq<Option<nat>>, i: nat, code: nat)
    requires Used(lengths, i) && RightCode(lengths, i, code)
    requires |was| == Pow2(MaxLen(lengths)) && forall raw :: 0 <= raw < |was| ==> was[raw] == Entry(lengths, i, raw)
    requires Filling(n, was, code, lengths[i], Pow2(MaxLen(lengths) - lengths[i]), i) && Aligned(lengths, l, n)
    ensures RightTable(lengths, l, n, i + 1)
  {
    var cl, m := lengths[i], MaxLen(lengths);
    forall raw | 0 <= raw < |n|
      ensures n[raw] == Entry(lengths, i + 1, raw)
    {
      hide LowBits, Shr, Pow2, MaxLen, RightCode, ToBits, Word, Aligned;
      IndexMatches(lengths, i, code, raw);
      assert cl + (m - cl) == m;
      ShrBound(raw, cl, m - cl);
    }
  }

  class HuffTree {
    const lengths: seq<nat>
    var codes: seq<int>
    var ready: bool
    var lengthLut: seq<nat>
    var nodeLut: seq<Option<nat>>

    ghost predicate Valid()
      reads this
    {
      && |codes| == |lengths|
      && (forall i :: 0 <= i < |lengths| ==> RightCode(lengths, i, codes[i]))
      && (ready ==> TableIs(lengthLut, nodeLut, |lengths|))
    }

    ghost predicate TableIs(lengthLut: seq<nat>, nodeLut: seq<Option<nat>>, upto: nat)
      requires upto <= |lengths|
    {
      RightTable(lengths, lengthLut, nodeLut, upto)
    }

    constructor FromDistribution(dist: seq<nat>)
      ensures Valid() && lengths == dist && !ready
    {
      lengths := dist;
      ready := false;
      lengthLut, nodeLut := [], [];
      new;
      codes := AssignCodes(dist);
    }

    /** Counts the codes of each length. */
    static method Distribution(lengths: seq<nat>, maxLen: nat) returns (dist: array<nat>)
      requires maxLen == MaxLen(lengths)
      ensures fresh(dist) && dist.Length == maxLen + 1
      ensures forall l :: 0 <= l <= maxLen ==> dist[l] == CodesOfLength(lengths, l)
    {
      dist := new nat[maxLen + 1](l => 0);
      for i := 0 to |lengths|
        invariant forall l :: 0 <= l <= maxLen ==> dist[l] == CodesOfLength(lengths[..i], l)
      {
        assert lengths[..i + 1][..i] == lengths[..i];
        if lengths[i] > 0 {
          dist[lengths[i]] := dist[lengths[i]] + 1;
        }
      }
      assert lengths[..|lengths|] == lengths;
    }

    /** The first code value of every length. */
    static method StartingCodes(lengths: seq<nat>, maxLen: nat) returns (nextCodes: seq<nat>)
      requires maxLen == MaxLen(lengths)
      ensures |nextCodes| == maxLen + 1
      ensures forall l :: 0 <= l <= maxLen ==> nextCodes[l] == FirstCode(lengths, l)
    {
      var counts := Distribution(lengths, maxLen);
      var dist := counts[..];
      var code: nat, cl: nat := 0, 1;
      nextCodes := [0];
      while cl <= maxLen
        invariant 1 <= cl <= maxLen + 1 == |dist|
        invariant |nextCodes| == cl && code == FirstCode(lengths, cl - 1)
        invariant forall l :: 0 <= l < cl ==> nextCodes[l] == FirstCode(lengths, l)
      {
        ShlOne(code + dist[cl - 1]);
        FirstCodeStep(lengths, cl);
        code := Shl(code + dist[cl - 1], 1);
        nextCodes := nextCodes + [code];
        cl := cl + 1;
      }
    }

    /** Canonical code assignment. */
    static method AssignCodes(lengths: seq<nat>) returns (codes: seq<int>)
      ensures |codes| == |lengths|
      ensures forall i :: 0 <= i < |lengths| ==> RightCode(lengths, i, codes[i])
    {
      hide RightCode, FirstCode, Count, MaxLen, Word;
      var maxLen := MaxLen(lengths);
      var nextCodes := StartingCodes(lengths, maxLen);
      codes := [];
      forall l: nat ensures Count(lengths[..0], l) == 0 {
        CountNone(l);
        assert lengths[..0] == [];
      }
      for i := 0 to |lengths|
        invariant |codes| == i && |nextCodes| == maxLen + 1
        invariant forall l :: 1 <= l <= maxLen ==> nextCodes[l] == FirstCode(lengths, l) + Count(lengths[..i], l)
        invariant forall j :: 0 <= j < i ==> RightCode(lengths, j, codes[j])
      {
        var cl := lengths[i];
        CountNext(lengths, i);
        if cl > 0 {
          var rev := ReverseInt(nextCodes[cl], cl);
          CodeStored(lengths, i, rev);
          codes := codes + [rev];
          nextCodes := nextCodes[cl := nextCodes[cl] + 1];
        } else {
          NothingStored(lengths, i);
          codes := codes + [-1];
        }
      }
    }

    /** Fills the entries of every symbol's word. No assumption on the lengths: later symbols overwrite. */
    method BuildLookup()
      requires Valid()
      modifies this`ready, this`lengthLut, this`nodeLut
      ensures Valid() && ready
    {
      var maxBits := MaxLen(lengths);
      var lLut := new nat[Pow2(maxBits)](i => 0);
      var nLut := new Option<nat>[Pow2(maxBits)](i => None);
      for i := 0 to |lengths|
        invariant Valid() && TableIs(lLut[..], nLut[..], i)
      {
        if lengths[i] > 0 {
          FillEntries(i, lLut, nLut);
        }
      }
      lengthLut, nodeLut, ready := lLut[..], nLut[..], true;
    }

    method FillEntries(i: nat, lLut: array<nat>, nLut: array<Option<nat>>)
      requires Valid() && i < |lengths| && lengths[i] > 0 && TableIs(lLut[..], nLut[..], i)
      modifies lLut, nLut
      ensures TableIs(lLut[..], nLut[..], i + 1)
    {
      var cl, maxBits := lengths[i], MaxLen(lengths);
      var code: nat := codes[i];
      var extCount := Pow2(maxBits - cl);
      ghost var was := nLut[..];
      CodeRange(lengths, i, code);
      FillNone(was, code, cl, i);
      hide Filling, Aligned, MaxLen, Pow2, LowBits, Shr, Shl, BitOr, Entry, RightCode, ToBits, Word, Valid, TableIs;
      var e := 0;
      while e < extCount
        invariant 0 <= e <= extCount
        invariant Filling(nLut[..], was, code, cl, e, i) && Aligned(lengths, lLut[..], nLut[..])
      {
        var idx := BitOr(code, Shl(e, cl));
        IndexInRange(code, cl, e, maxBits);
        FillNext(nLut[..], was, code, cl, e, i, idx);
        AlignedNext(lengths, lLut[..], nLut[..], idx, i);
        ghost var l', n' := lLut[..][idx := cl], nLut[..][idx := Some(i)];
        lLut[idx] := cl;
        nLut[idx] := Some(i);
        assert lLut[..] == l' && nLut[..] == n';
        e := e + 1;
      }
      TableNext(lengths, lLut[..], nLut[..], was, i, code);
    }

    /** Looks at `MaxLen` bits, consumes the word of the symbol found; fails like `ReadSymbol`. */
    method ReadCode(reader: Reader) returns (r: Option<nat>)
      requires Valid() && reader.Valid()
      modifies this`ready, this`lengthLut, this`nodeLut, reader
      ensures Valid() && reader.Valid()
      ensures match ReadSymbol(lengths, old(reader.Rest()))
              case None => r == None
              case Some((sym, rest)) => r == Some(sym) && reader.Rest() == rest
    {
      if !ready {
        BuildLookup();
      }
      var maxBits := MaxLen(lengths);
      var raw := reader.PeekBits(maxBits);
      if raw.None? {
        return None;
      }
      TableEntry(lengths, raw.value, reader.Rest()[..maxBits]);
      r := nodeLut[raw.value];
      if r.Some? {
        var skipped := reader.ReadBits(lengths[r.value]);
      }
    }

    /** Looks at `n` bits and gives their table index, the missing high bits being zero. */
    method PeekIndex(reader: Reader, n: nat) returns (raw: Option<nat>)
      requires Valid() && ready && reader.Valid() && n <= MaxLen(lengths)
      modifies reader
      ensures reader.Valid() && reader.Rest() == old(reader.Rest()) && Valid()
      ensures raw.Some? <==> n <= |reader.Rest()|
      ensures raw.Some? ==> raw.value < |nodeLut| == |lengthLut|
      ensures raw.Some? ==> lengthLut[raw.value] == LengthOf(lengths, nodeLut[raw.value])
      ensures raw.Some? ==> nodeLut[raw.value] == Match(lengths, |lengths|, reader.Rest()[..n] + Zeros(MaxLen(lengths) - n))
    {
      raw := reader.PeekBits(n);
      if raw.Some? {
        PaddedIndex(lengths, raw.value, reader.Rest()[..n]);
      }
    }

    /** Builds the tables the first time they are needed; the reader stays where it is. */
    method Prepare(reader: Reader)
      requires Valid() && reader.Valid()
      modifies this`ready, this`lengthLut, this`nodeLut
      ensures Valid() && ready && reader.Valid() && reader.Rest() == old(reader.Rest())
    {
      if !ready {
        BuildLookup();
      }
    }

    /** Looks at `firstLen` bits first; falls back to `MaxLen` bits. */
    method ReadCodeTwoStaged(reader: Reader, firstLen: nat) returns (r: Option<nat>)
      requires Valid() && reader.Valid()
      modifies this`ready, this`lengthLut, this`nodeLut, reader
      ensures Valid() && reader.Valid()
      ensures var bits := old(reader.Rest());
              match if firstLen >= MaxLen(lengths) then ReadSymbol(lengths, bits) else ReadTwoStaged(lengths, bits, firstLen)
              case None => r == None
              case Some((sym, rest)) => r == Some(sym) && reader.Rest() == rest
    {
      hide ReadSymbol, ReadTwoStaged, MaxLen, RightTable, RightCode;
      Prepare(reader);
      if firstLen >= MaxLen(lengths) {
        r := ReadCode(reader);
      } else {
        r := ReadStaged(reader, firstLen);
      }
    }

    method ReadStaged(reader: Reader, firstLen: nat) returns (r: Option<nat>)
      requires Valid() && ready && reader.Valid() && firstLen < MaxLen(lengths)
      modifies reader
      ensures Valid() && reader.Valid()
      ensures match ReadTwoStaged(lengths, old(reader.Rest()), firstLen)
              case None => r == None
              case Some((sym, rest)) => r == Some(sym) && reader.Rest() == rest
    {
      hide ReadTwoStaged, Staged, MaxLen, RightTable, RightCode;
      TwoStagedCases(lengths, reader.Rest(), firstLen);
      r := LookStaged(reader, firstLen);
      if r.Some? {
        var skipped := reader.ReadBits(lengths[r.value]);
      }
    }

    /** The symbol the short bits, or else the full width, decide on. Nothing is consumed. */
    method LookStaged(reader: Reader, firstLen: nat) returns (r: Option<nat>)
      requires Valid() && ready && reader.Valid() && firstLen < MaxLen(lengths)
      modifies reader
      ensures reader.Valid() && reader.Rest() == old(reader.Rest()) && Valid()
      ensures r == Staged(lengths, reader.Rest(), firstLen)
    {
      hide *;
      var maxBits := MaxLen(lengths);
      StagedByLength(lengths, reader.Rest(), firstLen);
      var rawShort := PeekIndex(reader, firstLen);
      if rawShort.None? {
        return None;
      }
      if lengthLut[rawShort.value] == firstLen && nodeLut[rawShort.value].Some? {
        return nodeLut[rawShort.value];
      }
      var raw := PeekIndex(reader, maxBits);
      if raw.None? {
        return None;
      }
      r := nodeLut[raw.value];
    }
  }

  /** The symbol the short or else the full table index decides on. */
  function Staged(lengths: seq<nat>, bits: seq<bool>, firstLen: nat): (r: Option<nat>)
    requires firstLen < MaxLen(lengths)
    ensures r.Some? ==> Used(lengths, r.value) && lengths[r.value] <= |bits|
  {
    var m := MaxLen(lengths);
    if |bits| < firstLen then None
    else
      var short := Match(lengths, |lengths|, bits[..firstLen] + Zeros(m - firstLen));
      if LengthOf(lengths, short) == firstLen && short.Some? then short
      else if |bits| < m then None
      else Match(lengths, |lengths|, bits[..m] + Zeros(m - m))
  }

  lemma {:induction false} StagedByLength(lengths: seq<nat>, bits: seq<bool>, firstLen: nat)
    requires firstLen < MaxLen(lengths)
    ensures |bits| < firstLen ==> Staged(lengths, bits, firstLen) == None
    ensures firstLen <= |bits| ==>
              var m := MaxLen(lengths);
              var short := Match(lengths, |lengths|, bits[..firstLen] + Zeros(m - firstLen));
              Staged(lengths, bits, firstLen) ==
              if LengthOf(lengths, short) == firstLen && short.Some? then short
              else if |bits| < m then None
              else Match(lengths, |lengths|, bits[..m] + Zeros(m - m))
  {
  }

  /** Reading in two stages takes the word of that symbol off the bits. */
  lemma {:induction false} TwoStagedCases(lengths: seq<nat>, bits: seq<bool>, firstLen: nat)
    requires firstLen < MaxLen(lengths)
    ensures
      ReadTwoStaged(lengths, bits, firstLen) ==
      match Staged(lengths, bits, firstLen)
      case None => None
      case Some(sym) => Some((sym, bits[lengths[sym]..]))
  {
    var m := MaxLen(lengths);
    if |bits| >= m {
      assert bits[..m] + Zeros(0) == bits[..m];
    }
  }

  /** Two-staged reading with `firstLen < MaxLen`: the short bits decide when they are a whole word
  of exactly that length, otherwise the full width is looked at. */
  function ReadTwoStaged(lengths: seq<nat>, bits: seq<bool>, firstLen: nat): (r: Option<(nat, seq<bool>)>)
    requires firstLen < MaxLen(lengths)
    ensures r.Some? ==> Used(lengths, r.value.0) && |r.value.1| < |bits|
  {
    var m := MaxLen(lengths);
    if |bits| < firstLen then None
    else
      var short := Match(lengths, |lengths|, bits[..firstLen] + Zeros(m - firstLen));
      if LengthOf(lengths, short) == firstLen && short.Some? then
        Some((short.value, bits[firstLen..]))
      else
        ReadSymbol(lengths, bits)
  }

  /** With a valid code and enough bits to look at, two-staged reading is plain reading. */
  lemma {:induction false} TwoStagedAgrees(lengths: seq<nat>, bits: seq<bool>, firstLen: nat)
    requires Kraft(lengths) && firstLen < MaxLen(lengths) <= |bits|
    ensures ReadTwoStaged(lengths, bits, firstLen) == ReadSymbol(lengths, bits)
  {
    var m := MaxLen(lengths);
    var padded := bits[..firstLen] + Zeros(m - firstLen);
    var short := Match(lengths, |lengths|, padded);
    if LengthOf(lengths, short) == firstLen && short.Some? {
      assert Word(lengths, short.value) == padded[..firstLen] == bits[..m][..firstLen];
      MatchUnique(lengths, |lengths|, bits[..m], short.value);
    }
  }

  /** When fewer than `MaxLen` bits are left, plain reading fails; two-staged reading still reads a
  word of exactly `firstLen` bits, and nothing else. */
  lemma {:induction false} TwoStagedNearEnd(lengths: seq<nat>, bits: seq<bool>, firstLen: nat)
    requires Kraft(lengths) && firstLen < MaxLen(lengths) && |bits| < MaxLen(lengths)
    ensures ReadSymbol(lengths, bits) == None
    ensures forall sym: nat :: Used(lengths, sym) && lengths[sym] == firstLen && Word(lengths, sym) <= bits ==>
              ReadTwoStaged(lengths, bits, firstLen) == Some((sym, bits[firstLen..]))
    ensures ReadTwoStaged(lengths, bits, firstLen).Some? ==>
              var sym := ReadTwoStaged(lengths, bits, firstLen).value.0;
              Used(lengths, sym) && lengths[sym] == firstLen && Word(lengths, sym) <= bits
  {
    var m := MaxLen(lengths);
    if |bits| >= firstLen {
      var padded := bits[..firstLen] + Zeros(m - firstLen);
      forall sym: nat | Used(lengths, sym) && lengths[sym] == firstLen && Word(lengths, sym) <= bits
        ensures Match(lengths, |lengths|, padded) == Some(sym)
      {
        assert Word(lengths, sym) == bits[..firstLen] == padded[..firstLen];
        MatchUnique(lengths, |lengths|, padded, sym);
      }
      var short := Match(lengths, |lengths|, padded);
      if short.Some? && lengths[short.value] == firstLen {
        assert Word(lengths, short.value) == padded[..firstLen] == bits[..firstLen];
      }
    }
  }

  lemma {:induction false} PaddedIndex(lengths: seq<nat>, raw: nat, bits: seq<bool>)
    requires |bits| <= MaxLen(lengths) && raw == FromBits(bits)
    ensures raw < Pow2(MaxLen(lengths))
    ensures Entry(lengths, |lengths|, raw) == Match(lengths, |lengths|, bits + Zeros(MaxLen(lengths) - |bits|))
  {
    var m := MaxLen(lengths);
    PadValue(bits, m - |bits|);
    FromBitsBound(bits);
    Pow2Monotone(|bits|, m);
  }

  lemma {:induction false} PadValue(bits: seq<bool>, d: nat)
    ensures ToBits(FromBits(bits), |bits| + d) == bits + Zeros(d)
  {
    hide *;
    var raw := FromBits(bits);
    FromBitsBound(bits);
    ToFromBits(bits);
    ShlZero(|bits|);
    ToBitsConcat(raw, |bits|, 0, d);
    ZeroBits(d);
  }

  /** The table entry for the bits a reader shows. */
  lemma {:induction false} TableEntry(lengths: seq<nat>, raw: nat, bits: seq<bool>)
    requires |bits| == MaxLen(lengths) && raw == FromBits(bits)
    ensures raw < Pow2(MaxLen(lengths)) && Entry(lengths, |lengths|, raw) == Match(lengths, |lengths|, bits)
  {
    FromBitsBound(bits);
    ToFromBits(bits);
  }
}
