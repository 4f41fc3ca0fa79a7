/** The LZC compressor of `compress.py`, and the round trip with the reader. */
module LzcWriter {
  import opened Bits
  import opened Words
  import opened BitReader
  import opened LzwSpec
  import opened LzcLayout

  /** The writer's table: the code of a phrase extended by one byte. */
  type Table = map<(nat, byte), nat>

  /** Every table entry names the string of its prefix code followed by its byte. */
  ghost predicate Faithful(p: Params, entries: seq<Text>, table: Table) {
    forall key :: key in table ==>
      && Known(p, entries, key.0) && Known(p, entries, table[key])
      && TextOf(p, entries, table[key]) == TextOf(p, entries, key.0) + [key.1]
  }

  lemma {:induction false} FaithfulExtend(p: Params, entries: seq<Text>, table: Table, pending: (nat, byte), t: Text)
    requires Faithful(p, entries, table) && Known(p, entries, pending.0)
    requires t == TextOf(p, entries, pending.0) + [pending.1]
    ensures Faithful(p, entries + [t], table[pending := p.First() + |entries|])
  {
    var table' := table[pending := p.First() + |entries|];
    forall key | key in table'
      ensures && Known(p, entries + [t], key.0) && Known(p, entries + [t], table'[key])
              && TextOf(p, entries + [t], table'[key]) == TextOf(p, entries + [t], key.0) + [key.1]
    {
      if key == pending {
        KnownExtend(p, entries, t, pending.0);
      } else {
        KnownExtend(p, entries, t, key.0);
        KnownExtend(p, entries, t, table[key]);
      }
    }
  }

  class LzcCompress {
    const params: Params
    var out: seq<byte>
    var group: seq<nat>
    var codeLen: nat
    var maxCode: nat
    ghost var groups: seq<Group>

    constructor (p: Params)
      requires p.Valid()
      ensures params == p && Lockstep([], p.First()) && out == []
    {
      params := p;
      out, group, groups := [], [], [];
      codeLen := MIN_CODE_LEN;
      maxCode := Pow2(MIN_CODE_LEN) - 1;
    }

    /** What has been emitted, and the width in force, are where a reader of `codes` expects them. */
    ghost predicate Lockstep(codes: seq<nat>, nextFree: nat)
      reads this
    {
      && params.Valid()
      && Laid(params, groups, 0, true) && Bytes(groups) == out
      && codes == Codes(groups) + group && |group| < 8
      && codeLen == WidthAt(params, |codes|) && maxCode == MaxAt(params, codeLen)
      && nextFree == NextAfter(params, |codes|)
      && SameWidth(params, group, codeLen, |Codes(groups)|)
    }

    method SetCodeLen(n: nat)
      modifies this`codeLen, this`maxCode
      ensures codeLen == n && maxCode == MaxCodeFor(params, n)
    {
      codeLen := n;
      maxCode := MaxCodeFor(params, n);
    }

    /** Packs values LSB-first into one group, always of the full width. */
    static method PackGroup(group: seq<nat>, w: nat) returns (packed: seq<byte>)
      requires |group| <= 8 && forall j :: 0 <= j < |group| ==> group[j] < Pow2(w)
      ensures |packed| == w
      ensures |Packed(group, w)| <= 8 * w
      ensures BytesToBits(packed) == Packed(group, w) + Zeros(8 * w - |Packed(group, w)|)
    {
      hide *;
      var bits: nat, nbits: nat := 0, 0;
      packed := [];
      var i := 0;
      NothingPacked(w);
      assert group[..0] == [];
      while i < |group|
        invariant 0 <= i <= |group| && nbits < 8 && bits < Pow2(nbits)
        invariant BytesToBits(packed) + ToBits(bits, nbits) == Packed(group[..i], w)
      {
        BufferCode(packed, bits, nbits, group, i, w);
        bits := BitOr(bits, Shl(group[i], nbits));
        nbits := nbits + w;
        while nbits >= 8
          invariant bits < Pow2(nbits)
          invariant BytesToBits(packed) + ToBits(bits, nbits) == Packed(group[..i + 1], w)
        {
          DrainByte(packed, bits, nbits);
          packed := packed + [LowBits(bits, 8)];
          bits := Shr(bits, 8);
          nbits := nbits - 8;
        }
        i := i + 1;
      }
      assert group[..i] == group;
      GroupFits(group, w);
      FinishGroup(packed, bits, nbits, Packed(group, w), w);
      if nbits > 0 {
        packed := packed + [LowBits(bits, 8)];
      }
      packed := packed + seq(w - |packed|, k => 0);
    }

    /** Writes the pending codes as one group; ghost `last` says it may be the last group of the stream. */
    method FlushGroup(ghost codes: seq<nat>, ghost last: bool)
      requires params.Valid() && Laid(params, groups, 0, true) && Bytes(groups) == out
      requires codes == Codes(groups) + group && |group| <= 8
      requires SameWidth(params, group, codeLen, |Codes(groups)|)
      requires last || |group| == 8 || WidthAt(params, |codes|) > codeLen
      modifies this`out, this`group, this`groups
      ensures group == [] && Codes(groups) == codes && Bytes(groups) == out
      ensures Laid(params, groups, 0, !last || |old(group)| == 0)
    {
      if group == [] {
        LaidOpen(params, groups, 0);
        return;
      }
      AllFit(params, group, codeLen, |Codes(groups)|);
      var packed := PackGroup(group, codeLen);
      AddGroup(params, groups, group, codeLen, packed, last);
      hide *;
      out := out + packed;
      groups := groups + [Group(codeLen, group, packed)];
      group := [];
    }

    method Emit(code: nat, ghost codes: seq<nat>)
      requires Lockstep(codes, NextAfter(params, |codes|)) && code < Pow2(codeLen)
      modifies this`out, this`group, this`groups
      ensures Laid(params, groups, 0, true) && Bytes(groups) == out
      ensures codes + [code] == Codes(groups) + group && |group| < 8
      ensures SameWidth(params, group, codeLen, |Codes(groups)|)
    {
      SameWidthSnoc(params, group, codeLen, |Codes(groups)|, code);
      assert codes + [code] == Codes(groups) + (group + [code]);
      group := group + [code];
      if |group| == 8 {
        FlushGroup(codes + [code], false);
        assert Codes(groups) + group == Codes(groups);
      }
    }

    /** Emits a code and moves the free code and the width on, exactly as the reader will. */
    method EmitAndWiden(code: nat, nextFree: nat, grows: bool, ghost codes: seq<nat>) returns (nextFree': nat)
      requires Lockstep(codes, nextFree) && code < Pow2(codeLen)
      requires grows == (|codes| + 1 >= 2 && nextFree < params.Limit())
      modifies this
      ensures Lockstep(codes + [code], nextFree')
      ensures nextFree' == if grows then nextFree + 1 else nextFree
    {
      nextFree' := nextFree;
      Advance(params, |codes|);
      hide NextAfter, WidthAt, MaxAt, MaxCodeFor, Laid, SameWidth, Codes, Bytes;
      Emit(code, codes);
      if grows {
        nextFree' := nextFree + 1;
        if nextFree' > maxCode {
          FlushGroup(codes + [code], false);
          SetCodeLen(codeLen + 1);
          NothingPending(params, codeLen, codes + [code], groups);
        }
      }
    }

    /** Emits the code of a finished phrase and does what the reader does after reading it. */
    method AccountFor(code: nat, table: Table, nextFree: nat, emitted: nat, pending: Option<(nat, byte)>,
                      ghost codes: seq<nat>, ghost st: Lzw, ghost data: seq<byte>, ghost c: nat, ghost i: nat)
      returns (table': Table, nextFree': nat, ghost st': Lzw)
      requires Lockstep(codes, nextFree) && emitted == |codes|
      requires c < i <= |data| && Parsed(params, st, codes, table, code, pending, data, c, i)
      modifies this
      ensures Lockstep(codes + [code], nextFree')
      ensures Ended(params, st', codes + [code], table', code, data, i)
    {
      Accounted(params, st, codes, table, code, pending, data, c, i);
      st' := Step(params, st, code).value.0;
      var grows := emitted + 1 >= 2 && pending.Some? && nextFree < params.Limit();
      table' := if grows then table[pending.value := nextFree] else table;
      assert codeLen == WidthAt(params, emitted) && nextFree == NextAfter(params, emitted);
      hide *;
      nextFree' := EmitAndWiden(code, nextFree, grows, codes);
    }

    method FlushLast(ghost codes: seq<nat>, ghost nextFree: nat)
      requires Lockstep(codes, nextFree)
      modifies this
      ensures Laid(params, groups, 0, false) && Codes(groups) == codes && Bytes(groups) == out
    {
      FlushGroup(codes, true);
      if !Laid(params, groups, 0, false) {
        LaidOpen(params, groups, 0);
      }
    }

    lemma {:induction false} LockstepParams(codes: seq<nat>, nextFree: nat)
      requires Lockstep(codes, nextFree)
      ensures params.Valid()
    {
    }

    /** The greedy LZW loop. Its codes expand to the input, and its groups hold those codes. */
    method Compress(data: seq<byte>) returns (ghost codes: seq<nat>)
      requires Lockstep([], params.First()) && out == [] && data != []
      modifies this
      ensures Laid(params, groups, 0, false) && Codes(groups) == codes && Bytes(groups) == out
      ensures Run(params, EMPTY, codes).Some? && Run(params, EMPTY, codes).value.1 == data
    {
      hide *;
      var table: Table, nextFree: nat := map[], params.First();
      var emitted: nat := 0;
      var pending: Option<(nat, byte)> := None;
      var prev: nat := data[0];
      ghost var st := EMPTY;
      ghost var c := 0;
      codes := [];
      LockstepParams([], params.First());
      PhraseStarts(params, data);
      var i := 1;
      while i < |data|
        invariant 0 <= c < i <= |data| && emitted == |codes| && params.Valid()
        invariant Lockstep(codes, nextFree)
        invariant Parsed(params, st, codes, table, prev, pending, data, c, i)
      {
        var ch := data[i];
        var key := (prev, ch);
        if key in table {
          PhraseGrows(params, st, codes, table, prev, pending, data, c, i);
          prev := table[key];
        } else {
          table, nextFree, st := AccountFor(prev, table, nextFree, emitted, pending, codes, st, data, c, i);
          emitted, codes, c := emitted + 1, codes + [prev], i;
          PhraseRestarts(params, st, codes, table, prev, data, i);
          pending := Some(key);
          prev := ch;
        }
        i := i + 1;
      }
      table, nextFree, st := AccountFor(prev, table, nextFree, emitted, pending, codes, st, data, c, i);
      codes := codes + [prev];
      EndedRun(params, st, codes, table, prev, data, i);
      FlushLast(codes, nextFree);
      assert data[..i] == data;
    }
  }

  /** The codes so far expand to `data[..c]`; the phrase being matched is `data[c..i]`, the string of
  code `prev`; `pending` extends the last code by the first byte of that phrase. */
  ghost predicate Parsed(p: Params, st: Lzw, codes: seq<nat>, table: Table, prev: nat, pending: Option<(nat, byte)>,
                         data: seq<byte>, c: nat, i: nat)
    requires c < i <= |data|
  {
    && p.Valid() && OnSchedule(p, st, |codes|) && Faithful(p, st.entries, table)
    && Run(p, EMPTY, codes) == Some((st, data[..c]))
    && Known(p, st.entries, prev) && TextOf(p, st.entries, prev) == data[c..i]
    && (pending.Some? <==> st.prev.Some?)
    && (pending.Some? ==> && Known(p, st.entries, pending.value.0)
                          && TextOf(p, st.entries, pending.value.0) == st.prev.value
                          && pending.value.1 == data[c])
  }

  lemma {:induction false} PhraseStarts(p: Params, data: seq<byte>)
    requires p.Valid() && data != []
    ensures Parsed(p, EMPTY, [], map[], data[0], None, data, 0, 1)
  {
    assert data[..0] == [] && data[0..1] == [data[0]];
  }

  lemma {:induction false} PhraseGrows(p: Params, st: Lzw, codes: seq<nat>, table: Table, prev: nat, pending: Option<(nat, byte)>,
                    data: seq<byte>, c: nat, i: nat)
    requires c < i < |data| && Parsed(p, st, codes, table, prev, pending, data, c, i) && (prev, data[i]) in table
    ensures Parsed(p, st, codes, table, table[(prev, data[i])], pending, data, c, i + 1)
  {
    assert data[c..i + 1] == data[c..i] + [data[i]];
  }

  /** The table after emitting a code: the pending phrase gets the free code, if there is one. */
  function Recorded(p: Params, k: nat, table: Table, pending: Option<(nat, byte)>): Table {
    if pending.Some? && NextAfter(p, k) < p.Limit() then table[pending.value := NextAfter(p, k)] else table
  }

  lemma {:induction false} AccountedTable(p: Params, st: Lzw, codes: seq<nat>, table: Table, prev: nat, pending: Option<(nat, byte)>,
                       data: seq<byte>, c: nat, i: nat)
    requires c < i <= |data| && Parsed(p, st, codes, table, prev, pending, data, c, i)
    ensures prev < Pow2(WidthAt(p, |codes|)) && (pending.Some? <==> |codes| > 0)
    ensures Step(p, st, prev).Some?
    ensures Faithful(p, Step(p, st, prev).value.0.entries, Recorded(p, |codes|, table, pending))
  {
    LimitBounds(p);
    CodeFits(p, st.entries, |codes|, prev);
    if pending.Some? && NextAfter(p, |codes|) < p.Limit() {
      FaithfulExtend(p, st.entries, table, pending.value, st.prev.value + [data[c]]);
    }
    hide Run, WidthAt, Faithful;
  }

  lemma {:induction false} AccountedRun(p: Params, st: Lzw, codes: seq<nat>, table: Table, prev: nat, pending: Option<(nat, byte)>,
                     data: seq<byte>, c: nat, i: nat)
    requires c < i <= |data| && Parsed(p, st, codes, table, prev, pending, data, c, i)
    ensures Step(p, st, prev).Some?
    ensures var st' := Step(p, st, prev).value.0;
            && OnSchedule(p, st', |codes| + 1) && Run(p, EMPTY, codes + [prev]) == Some((st', data[..i]))
            && st'.prev.Some? && Known(p, st'.entries, prev) && TextOf(p, st'.entries, prev) == st'.prev.value
  {
    LimitBounds(p);
    RunSnoc(p, EMPTY, codes, prev);
    assert data[..c] + data[c..i] == data[..i];
    StepOnSchedule(p, st, |codes|, prev);
  }

  /** The reader accepts the code of a finished phrase and writes the phrase; its new entry is the
  one the table gets. */
  lemma {:induction false} Accounted(p: Params, st: Lzw, codes: seq<nat>, table: Table, prev: nat, pending: Option<(nat, byte)>,
                  data: seq<byte>, c: nat, i: nat)
    requires c < i <= |data| && Parsed(p, st, codes, table, prev, pending, data, c, i)
    ensures prev < Pow2(WidthAt(p, |codes|)) && (pending.Some? <==> |codes| > 0)
    ensures Step(p, st, prev).Some?
    ensures Ended(p, Step(p, st, prev).value.0, codes + [prev], Recorded(p, |codes|, table, pending), prev, data, i)
  {
    AccountedTable(p, st, codes, table, prev, pending, data, c, i);
    AccountedRun(p, st, codes, table, prev, pending, data, c, i);
    hide Run, WidthAt, Faithful, Step, Recorded, OnSchedule;
  }

  /** A phrase ending at `i` has just been emitted as code `last`. */
  ghost predicate Ended(p: Params, st: Lzw, codes: seq<nat>, table: Table, last: nat, data: seq<byte>, i: nat)
    requires i <= |data|
  {
    && p.Valid() && OnSchedule(p, st, |codes|) && Faithful(p, st.entries, table)
    && Run(p, EMPTY, codes) == Some((st, data[..i])) && st.prev.Some?
    && Known(p, st.entries, last) && TextOf(p, st.entries, last) == st.prev.value
  }

  lemma {:induction false} EndedRun(p: Params, st: Lzw, codes: seq<nat>, table: Table, last: nat, data: seq<byte>, i: nat)
    requires i <= |data| && Ended(p, st, codes, table, last, data, i)
    ensures Run(p, EMPTY, codes) == Some((st, data[..i]))
  {
  }

  /** The next phrase starts as the single byte after the finished one. */
  lemma {:induction false} PhraseRestarts(p: Params, st: Lzw, codes: seq<nat>, table: Table, last: nat, data: seq<byte>, i: nat)
    requires i < |data| && Ended(p, st, codes, table, last, data, i)
    ensures Parsed(p, st, codes, table, data[i], Some((last, data[i])), data, i, i + 1)
  {
    assert data[i..i + 1] == [data[i]];
  }

  lemma {:induction false} NothingPending(p: Params, w: nat, codes: seq<nat>, groups: seq<Group>)
    requires codes == Codes(groups)
    ensures SameWidth(p, [], w, |codes|) && codes == Codes(groups) + []
  {
  }

  lemma {:induction false} AllFit(p: Params, codes: seq<nat>, w: nat, k: nat)
    requires SameWidth(p, codes, w, k)
    ensures forall j :: 0 <= j < |codes| ==> codes[j] < Pow2(w)
  {
    forall j | 0 <= j < |codes|
      ensures codes[j] < Pow2(w)
    {
      assert ReadWith(p, codes[j], k + j, w);
    }
  }

  /** The width schedule, one code further. */
  lemma {:induction false} Advance(p: Params, k: nat)
    requires p.Valid()
    ensures var next, w := NextAfter(p, k), WidthAt(p, k);
            var next' := if k + 1 >= 2 && next < p.Limit() then next + 1 else next;
            && NextAfter(p, k + 1) == next'
            && WidthAt(p, k + 1) == (if next' > MaxAt(p, w) then w + 1 else w)
            && (next' > MaxAt(p, w) ==> next' == next + 1 && MaxAt(p, w + 1) == MaxCodeFor(p, w + 1))
  {
    NextFits(p, k);
    LimitBounds(p);
  }

  lemma {:induction false} LaidOpen(p: Params, gs: seq<Group>, k: nat)
    requires Laid(p, gs, k, true)
    ensures Laid(p, gs, k, false)
  {
    if gs != [] {
      LaidOpen(p, gs[1..], k + |gs[0].codes|);
    }
  }

  lemma {:induction false} AddGroup(p: Params, gs: seq<Group>, group: seq<nat>, w: nat, packed: seq<byte>, last: bool)
    requires Laid(p, gs, 0, true) && 1 <= |group| <= 8 && SameWidth(p, group, w, |Codes(gs)|)
    requires |packed| == w && Packed(group, w) <= BytesToBits(packed)
    requires last || |group| == 8 || WidthAt(p, |Codes(gs) + group|) > w
    ensures var gs' := gs + [Group(w, group, packed)];
            Laid(p, gs', 0, !last) && Codes(gs') == Codes(gs) + group && Bytes(gs') == Bytes(gs) + packed
  {
    hide Laid, Codes, Bytes, SameWidth, Packed, BytesToBits, WidthAt;
    LaidSnoc(p, gs, 0, Group(w, group, packed), !last);
  }

  lemma {:induction false} SameWidthSnoc(p: Params, codes: seq<nat>, w: nat, k: nat, code: nat)
    requires SameWidth(p, codes, w, k) && ReadWith(p, code, k + |codes|, w)
    ensures SameWidth(p, codes + [code], w, k)
  {
  }

  /** Or-ing the next code in above the pending bits appends it to what is packed. */
  lemma {:induction false} BufferCode(packed: seq<byte>, bits: nat, nbits: nat, group: seq<nat>, i: nat, w: nat)
    requires i < |group| && group[i] < Pow2(w) && bits < Pow2(nbits)
    requires BytesToBits(packed) + ToBits(bits, nbits) == Packed(group[..i], w)
    ensures BitOr(bits, Shl(group[i], nbits)) < Pow2(nbits + w)
    ensures BytesToBits(packed) + ToBits(BitOr(bits, Shl(group[i], nbits)), nbits + w) == Packed(group[..i + 1], w)
  {
    hide *;
    BufferAbove(bits, nbits, group[i], w);
    assert group[..i + 1] == group[..i] + [group[i]];
    PackedConcat(group[..i], [group[i]], w);
    PackedSingle(group[i], w);
  }

  lemma {:induction false} ByteOf(bits: nat)
    ensures LowBits(bits, 8) < 256
  {
    LowBitsBound(bits, 8);
  }

  lemma {:induction false} AppendByte(packed: seq<byte>, b: byte, n: nat)
    requires n == 8
    ensures BytesToBits(packed + [b]) == BytesToBits(packed) + ToBits(b, n)
  {
    PackedConcat(packed, [b], n);
    PackedSingle(b, n);
  }

  /** Moving the low byte of the pending bits to the output changes no bit. */
  lemma {:induction false} DrainByte(packed: seq<byte>, bits: nat, nbits: nat)
    requires nbits >= 8 && bits < Pow2(nbits)
    ensures LowBits(bits, 8) < 256 && Shr(bits, 8) < Pow2(nbits - 8)
    ensures BytesToBits(packed + [LowBits(bits, 8)]) + ToBits(Shr(bits, 8), nbits - 8) == BytesToBits(packed) + ToBits(bits, nbits)
  {
    hide *;
    ByteOf(bits);
    DrainGeneral(packed, bits, nbits, 8);
  }

  lemma {:induction false} DrainGeneral(packed: seq<byte>, bits: nat, nbits: nat, n: nat)
    requires nbits >= n == 8 && bits < Pow2(nbits) && LowBits(bits, n) < 256
    ensures Shr(bits, n) < Pow2(nbits - n)
    ensures BytesToBits(packed + [LowBits(bits, n)]) + ToBits(Shr(bits, n), nbits - n) == BytesToBits(packed) + ToBits(bits, nbits)
  {
    hide *;
    AppendByte(packed, LowBits(bits, n), n);
    ToBitsSplit(bits, n, nbits - n);
    ShrBound(bits, n, nbits - n);
  }

  lemma {:induction false} NothingPacked(w: nat)
    ensures BytesToBits([]) + ToBits(0, 0) == Packed([], w) && 0 < Pow2(0)
  {
  }

  /** The last, partly filled byte: its high bits are zero. */
  lemma {:induction false} LastByte(packed: seq<byte>, bits: nat, nbits: nat)
    requires 0 < nbits < 8 && bits < Pow2(nbits)
    ensures LowBits(bits, 8) < 256
    ensures BytesToBits(packed + [LowBits(bits, 8)]) == BytesToBits(packed) + ToBits(bits, nbits) + Zeros(8 - nbits)
  {
    hide *;
    ByteOf(bits);
    LastGeneral(packed, bits, nbits, 8);
  }

  lemma {:induction false} LastGeneral(packed: seq<byte>, bits: nat, nbits: nat, n: nat)
    requires nbits < n == 8 && bits < Pow2(nbits) && LowBits(bits, n) < 256
    ensures BytesToBits(packed + [LowBits(bits, n)]) == BytesToBits(packed) + ToBits(bits, nbits) + Zeros(n - nbits)
  {
    hide *;
    Pow2Monotone(nbits, n);
    LowBitsFits(bits, n);
    AppendByte(packed, bits, n);
    ShlZero(nbits);
    ToBitsConcat(bits, nbits, 0, n - nbits);
    ZeroBits(n - nbits);
    assert BytesToBits(packed) + ToBits(bits, nbits) + Zeros(n - nbits) == BytesToBits(packed) + (ToBits(bits, nbits) + Zeros(n - nbits));
  }

  /** Flushing the pending bits and filling up with zero bytes gives a group of `w` bytes. */
  lemma {:induction false} FinishGroup(packed: seq<byte>, bits: nat, nbits: nat, body: seq<bool>, w: nat)
    requires nbits < 8 && bits < Pow2(nbits) && |body| <= 8 * w
    requires BytesToBits(packed) + ToBits(bits, nbits) == body
    ensures LowBits(bits, 8) < 256
    ensures var flushed := if nbits > 0 then packed + [LowBits(bits, 8)] else packed;
            |flushed| <= w &&
            BytesToBits(flushed + seq(w - |flushed|, k => 0)) == body + Zeros(8 * w - |body|)
  {
    hide *;
    ByteOf(bits);
    if nbits > 0 {
      LastByte(packed, bits, nbits);
      var flushed := packed + [LowBits(bits, 8)];
      var pad := 8 * (w - |flushed|);
      PadBytes(flushed, w - |flushed|);
      ZerosConcat(8 - nbits, pad);
      assert body + Zeros(8 - nbits) + Zeros(pad) == body + (Zeros(8 - nbits) + Zeros(pad));
    } else {
      PadBytes(packed, w - |packed|);
      assert BytesToBits(packed) + ToBits(bits, nbits) == BytesToBits(packed);
    }
  }

  lemma {:induction false} ZerosConcat(a: nat, b: nat)
    ensures Zeros(a) + Zeros(b) == Zeros(a + b)
  {
  }

  lemma {:induction false} PadBytes(packed: seq<byte>, n: nat)
    ensures BytesToBits(packed + seq(n, k => 0)) == BytesToBits(packed) + Zeros(8 * n)
  {
    var pad: seq<byte> := seq(n, k => 0);
    if n == 0 {
      assert packed + pad == packed && BytesToBits(packed) + Zeros(0) == BytesToBits(packed);
    } else {
      var shorter: seq<byte> := seq(n - 1, k => 0);
      PadBytes(packed, n - 1);
      assert packed + pad == packed + shorter + [0];
      AppendByte(packed + shorter, 0, 8);
      ZeroBits(8);
      assert Zeros(8 * (n - 1)) + Zeros(8) == Zeros(8 * n);
    }
  }

  lemma {:induction false} GroupFits(group: seq<nat>, w: nat)
    requires |group| <= 8
    ensures |Packed(group, w)| <= 8 * w
  {
    hide Packed;
    PackedLength(group, w);
    TimesAtMost(|group|, w);
  }

  lemma {:induction false} TimesAtMost(n: nat, w: nat)
    requires n <= 8
    ensures n * w <= 8 * w
  {
  }

  // ----- the round trip -----

  lemma {:induction false} StartsInFirstGroup(p: Params, gs: seq<Group>)
    requires p.Valid() && gs != [] && Laid(p, gs, 0, false)
    ensures ReaderAt(p, Start(Bytes(gs)), 0, gs[0].codes, gs[1..])
  {
    hide SameWidth, Bytes, Packed, BytesToBits, ToBits, Pow2;
    var g := gs[0];
    GroupOpens(p, gs, 0);
    assert Bytes(gs)[..9] == g.bytes && Bytes(gs)[9..] == Bytes(gs[1..]);
    LastWith(p, g.codes, g.width, 0);
    if |g.codes| == 8 {
      FullGroup(g.codes, g.width);
    }
  }

  /** The groups of a reset-free stream decode, from the start, to what their codes expand to. */
  lemma {:induction false} DecodeStream(p: Params, compat: bool, gs: seq<Group>, data: seq<byte>)
    requires p.Valid() && gs != [] && Laid(p, gs, 0, false)
    requires Run(p, EMPTY, Codes(gs)).Some? && Run(p, EMPTY, Codes(gs)).value.1 == data
    ensures Decode(p, compat, EMPTY, Start(Bytes(gs)), |data|) == Ok(data)
  {
    StartsInFirstGroup(p, gs);
    FreshSchedule(p);
    hide ReaderAt, OnSchedule, Laid, Run, Decode, Bytes, Start;
    assert gs[0].codes + Codes(gs[1..]) == Codes(gs);
    StartWidth(Bytes(gs));
    DecodeLaid(p, compat, EMPTY, Start(Bytes(gs)), 0, gs[0].codes, gs[1..]);
  }

  lemma {:induction false} FreshSchedule(p: Params)
    ensures OnSchedule(p, EMPTY, 0)
  {
  }

  lemma {:induction false} StartWidth(data: seq<byte>)
    ensures Start(data).codeLen > 0
  {
  }

  /** The header the writer puts in front: algorithm 1, version 1, block mode and limit. */
  function HeaderFor(length: nat, p: Params): Header {
    Header(length, 1, 1, (if p.multi then 128 else 0) + p.limitBits)
  }

  lemma {:induction false} HeaderRoundTrip(length: nat, p: Params, payload: seq<byte>)
    requires length < 0x1_0000_0000 && p.Valid()
    ensures OpenLzc(HeaderBytes(HeaderFor(length, p)) + payload) == Ok((length, p, payload))
  {
    hide ParseHeader, HeaderBytes;
    HeaderBack(HeaderFor(length, p), payload);
  }

  /** Compresses; errors exactly where the source raises: a limit outside 9..16, or a length that
  does not fit the header. Decompressing the result, in either mode, gives the input back. */
  method SapcompressCompressLzc(data: seq<byte>, codeLenLimit: nat, multi: bool) returns (r: Result<seq<byte>>)
    ensures r.Ok? <==> 9 <= codeLenLimit <= 16 && |data| < 0x1_0000_0000
    ensures r.Ok? ==> forall compat :: Decompressed(r.value, compat) == Ok(data)
    ensures r.Ok? ==> OpenLzc(r.value).Ok? && OpenLzc(r.value).value.0 == |data|
  {
    var p := Params(multi, codeLenLimit);
    if !p.Valid() {
      return Err("code_len_limit out of range");
    }
    if |data| >= 0x1_0000_0000 {
      return Err("length does not fit the header");
    }
    var header := HeaderBytes(HeaderFor(|data|, p));
    var c := new LzcCompress(p);
    if data != [] {
      ghost var codes := c.Compress(data);
      forall compat
        ensures Decode(p, compat, EMPTY, Start(c.out), |data|) == Ok(data)
      {
        if c.groups != [] {
          DecodeStream(p, compat, c.groups, data);
        }
      }
    }
    HeaderRoundTrip(|data|, p, c.out);
    return Ok(header + c.out);
  }
}
