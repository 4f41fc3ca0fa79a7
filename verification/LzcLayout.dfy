/** How a code sequence without block resets is laid out in groups, and why a reader that
follows the same width schedule gets the codes back. */
module LzcLayout {
  import opened Bits
  import opened LzwSpec

  /** A group as written: up to eight codes of one width, in `width` bytes. */
  datatype Group = Group(width: nat, codes: seq<nat>, bytes: seq<byte>)

  /** The free code once `k` codes have been read: the first code makes no entry. */
  function NextAfter(p: Params, k: nat): nat {
    if k <= 1 then p.First() else Min(p.First() + k - 1, p.Limit())
  }

  /** The largest free code a width admits. The initial width never gets the limit as its maximum. */
  function MaxAt(p: Params, w: nat): nat {
    if w == MIN_CODE_LEN then Pow2(MIN_CODE_LEN) - 1 else MaxCodeFor(p, w)
  }

  /** The width code number `k` is read with. */
  function WidthAt(p: Params, k: nat): (w: nat)
    ensures w >= MIN_CODE_LEN
  {
    if k == 0 then MIN_CODE_LEN
    else
      var w := WidthAt(p, k - 1);
      if NextAfter(p, k) > MaxAt(p, w) then w + 1 else w
  }

  /** The free code always fits the width in force, also at limit 9, whose stream widens to 10 bits. */
  lemma {:induction false} NextFits(p: Params, k: nat)
    requires p.Valid()
    ensures NextAfter(p, k) <= MaxAt(p, WidthAt(p, k)) < Pow2(WidthAt(p, k)) + 1
    ensures WidthAt(p, k) <= if p.limitBits == 9 then 10 else p.limitBits
  {
    LimitBounds(p);
    if k > 0 {
      NextFits(p, k - 1);
      var w := WidthAt(p, k - 1);
      if NextAfter(p, k) > MaxAt(p, w) {
        assert w == 9 || w < p.limitBits;
        assert Pow2(w + 1) == 2 * Pow2(w);
      }
    }
  }

  /** A known code, or any literal, is representable in the width in force. */
  lemma {:induction false} CodeFits(p: Params, entries: seq<Text>, k: nat, code: nat)
    requires p.Valid() && Known(p, entries, code) && p.First() + |entries| == NextAfter(p, k)
    ensures code < Pow2(WidthAt(p, k))
  {
    NextFits(p, k);
    LimitBounds(p);
    Pow2Monotone(9, WidthAt(p, k));
  }

  ghost predicate GoodGroup(p: Params, g: Group, k: nat) {
    && 1 <= |g.codes| <= 8
    && |g.bytes| == g.width
    && Packed(g.codes, g.width) <= BytesToBits(g.bytes)
    && SameWidth(p, g.codes, g.width, k)
  }

  predicate ReadWith(p: Params, code: nat, index: nat, w: nat) {
    WidthAt(p, index) == w && code < Pow2(w)
  }

  /** The codes, the first of them number `k`, are all read with width `w` and fit it. */
  ghost predicate SameWidth(p: Params, codes: seq<nat>, w: nat, k: nat) {
    forall j :: 0 <= j < |codes| ==> ReadWith(p, codes[j], k + j, w)
  }

  /** A full group ends where the next begins; a short one must be cut off by a widening. */
  predicate Closed(p: Params, g: Group, k: nat) {
    |g.codes| == 8 || WidthAt(p, k + |g.codes|) > g.width
  }

  /** The groups hold codes number `k` onwards. Only the last group may be left open. */
  ghost predicate Laid(p: Params, gs: seq<Group>, k: nat, closed: bool) {
    gs == [] ||
    (&& GoodGroup(p, gs[0], k)
     && (|gs| > 1 || closed ==> Closed(p, gs[0], k))
     && Laid(p, gs[1..], k + |gs[0].codes|, closed))
  }

  function Codes(gs: seq<Group>): seq<nat> {
    if gs == [] then [] else gs[0].codes + Codes(gs[1..])
  }

  function Bytes(gs: seq<Group>): seq<byte> {
    if gs == [] then [] else gs[0].bytes + Bytes(gs[1..])
  }

  lemma {:induction false} LaidSnoc(p: Params, gs: seq<Group>, k: nat, g: Group, closed: bool)
    requires Laid(p, gs, k, true) && GoodGroup(p, g, k + |Codes(gs)|)
    requires closed ==> Closed(p, g, k + |Codes(gs)|)
    ensures Laid(p, gs + [g], k, closed)
    ensures Codes(gs + [g]) == Codes(gs) + g.codes && Bytes(gs + [g]) == Bytes(gs) + g.bytes
  {
    hide GoodGroup, Closed;
    if gs == [] {
      assert gs + [g] == [g];
      assert Codes([g]) == g.codes + Codes([]) && Bytes([g]) == g.bytes + Bytes([]);
      assert [g][1..] == [];
    } else {
      assert k + |Codes(gs)| == k + |gs[0].codes| + |Codes(gs[1..])|;
      LaidSnoc(p, gs[1..], k + |gs[0].codes|, g, closed);
      assert (gs + [g])[0] == gs[0] && (gs + [g])[1..] == gs[1..] + [g];
    }
  }

  /** Expanding a code sequence with the string dictionary. */
  function Run(p: Params, st: Lzw, codes: seq<nat>): Option<(Lzw, seq<byte>)>
    decreases |codes|
  {
    if codes == [] then Some((st, []))
    else
      match Step(p, st, codes[0])
      case None => None
      case Some((st', s)) =>
        match Run(p, st', codes[1..])
        case None => None
        case Some((end, more)) => Some((end, s + more))
  }

  lemma {:induction false} RunSnoc(p: Params, st: Lzw, codes: seq<nat>, code: nat)
    requires Run(p, st, codes).Some? && Step(p, Run(p, st, codes).value.0, code).Some?
    ensures var (end, out) := Run(p, st, codes).value;
            var (end', s) := Step(p, end, code).value;
            Run(p, st, codes + [code]) == Some((end', out + s))
    decreases |codes|
  {
    var (end, out) := Run(p, st, codes).value;
    var (end', s) := Step(p, end, code).value;
    if codes == [] {
      assert codes + [code] == [code] && [code][1..] == [];
      assert s + [] == s && [] + s == s;
    } else {
      var (st1, s1) := Step(p, st, codes[0]).value;
      RunSnoc(p, st1, codes[1..], code);
      assert (codes + [code])[0] == codes[0] && (codes + [code])[1..] == codes[1..] + [code];
      var more := Run(p, st1, codes[1..]).value.1;
      assert s1 + (more + s) == (s1 + more) + s;
    }
  }

  /** The dictionary a code sequence builds grows exactly on schedule. */
  ghost predicate OnSchedule(p: Params, st: Lzw, k: nat) {
    (st.prev.Some? <==> k > 0) && NextFree(p, st) == NextAfter(p, k)
  }

  lemma {:induction false} StepOnSchedule(p: Params, st: Lzw, k: nat, code: nat)
    requires p.Valid() && OnSchedule(p, st, k) && Step(p, st, code).Some?
    ensures OnSchedule(p, Step(p, st, code).value.0, k + 1)
  {
    LimitBounds(p);
  }

  /** A reader inside group `cur` with the codes `cur` still to come, then the groups `gs`. */
  ghost predicate ReaderAt(p: Params, src: Source, k: nat, cur: seq<nat>, gs: seq<Group>) {
    && k + |cur| > 0 && src.codeLen == WidthAt(p, k + |cur| - 1) && src.maxCode == MaxAt(p, src.codeLen)
    && SameWidth(p, cur, src.codeLen, k)
    && Packed(cur, src.codeLen) <= src.chunk
    && src.rest == Bytes(gs) && Laid(p, gs, k + |cur|, false)
    && (gs != [] ==> |src.chunk| - |Packed(cur, src.codeLen)| < src.codeLen || WidthAt(p, k + |cur|) > src.codeLen)
  }

  lemma {:induction false} ReadInGroup(p: Params, src: Source, k: nat, cur: seq<nat>, gs: seq<Group>, next: nat)
    requires p.Valid() && ReaderAt(p, src, k, cur, gs) && cur != [] && next == NextAfter(p, k)
    ensures ReadCode(p, src, next).0 == Some(cur[0])
    ensures ReaderAt(p, ReadCode(p, src, next).1, k + 1, cur[1..], gs)
  {
    hide SameWidth, Laid, WidthAt, Bytes, NextAfter, MaxAt, LowBits, ToBits, FromBits, Pow2, Packed;
    var w := src.codeLen;
    PackedHead(cur, w);
    SameWidthTail(p, cur, w, k);
    ReadOneCode(p, src, k, cur, next);
  }

  lemma {:induction false} PackedHead(codes: seq<nat>, w: nat)
    requires codes != []
    ensures Packed(codes, w) == ToBits(codes[0], w) + Packed(codes[1..], w)
  {
  }

  lemma {:induction false} ReadOneCode(p: Params, src: Source, k: nat, cur: seq<nat>, next: nat)
    requires p.Valid() && cur != [] && SameWidth(p, cur, src.codeLen, k) && next == NextAfter(p, k)
    requires src.codeLen == WidthAt(p, k + |cur| - 1) && src.maxCode == MaxAt(p, src.codeLen)
    requires Packed(cur, src.codeLen) <= src.chunk
    ensures ReadCode(p, src, next) == (Some(cur[0]), src.(chunk := src.chunk[src.codeLen..]))
    ensures Packed(cur[1..], src.codeLen) <= src.chunk[src.codeLen..]
    ensures |src.chunk[src.codeLen..]| - |Packed(cur[1..], src.codeLen)| == |src.chunk| - |Packed(cur, src.codeLen)|
  {
    hide Bytes, LowBits, ToBits, FromBits, Pow2, Packed;
    var w := src.codeLen;
    assert ReadWith(p, cur[0], k + 0, w);
    NextFits(p, k);
    PackedHead(cur, w);
    assert src.chunk[..w] == ToBits(cur[0], w);
    FromToBits(cur[0], w);
    LowBitsFits(cur[0], w);
    hide SameWidth, WidthAt;
  }

  lemma {:induction false} SameWidthTail(p: Params, codes: seq<nat>, w: nat, k: nat)
    requires codes != [] && SameWidth(p, codes, w, k)
    ensures SameWidth(p, codes[1..], w, k + 1)
  {
    forall j | 0 <= j < |codes[1..]|
      ensures ReadWith(p, codes[1..][j], k + 1 + j, w)
    {
      assert ReadWith(p, codes[j + 1], k + (j + 1), w);
    }
  }

  lemma {:induction false} GroupOpens(p: Params, gs: seq<Group>, k: nat)
    requires Laid(p, gs, k, false) && gs != []
    ensures gs[0].width == WidthAt(p, k) && |gs[0].bytes| == gs[0].width
    ensures Bytes(gs) == gs[0].bytes + Bytes(gs[1..])
  {
    assert ReadWith(p, gs[0].codes[0], k + 0, gs[0].width);
  }

  /** Refilling after a spent or a cut-off group takes exactly the bytes of the next one. */
  lemma {:induction false} RefillTakes(p: Params, src: Source, k: nat, gs: seq<Group>)
    requires p.Valid() && ReaderAt(p, src, k, [], gs) && gs != []
    ensures var g := gs[0];
            Refill(p, src, NextAfter(p, k)) ==
            Source(Bytes(gs[1..]), BytesToBits(g.bytes), g.width, MaxAt(p, g.width))
  {
    hide Laid, GoodGroup, SameWidth, Bytes, BytesToBits, ToBits, Pow2;
    var g := gs[0];
    GroupOpens(p, gs, k);
    assert src.rest[..g.width] == g.bytes && src.rest[g.width..] == Bytes(gs[1..]);
  }

  lemma {:induction false} FullGroup(codes: seq<nat>, w: nat)
    requires |codes| == 8
    ensures |Packed(codes, w)| == 8 * w
  {
    PackedLength(codes, w);
  }

  lemma {:induction false} LastWith(p: Params, codes: seq<nat>, w: nat, k: nat)
    requires codes != [] && SameWidth(p, codes, w, k)
    ensures WidthAt(p, k + |codes| - 1) == w
  {
    assert ReadWith(p, codes[|codes| - 1], k + (|codes| - 1), w);
  }

  lemma {:induction false} NextGroup(p: Params, src: Source, k: nat, gs: seq<Group>)
    requires p.Valid() && ReaderAt(p, src, k, [], gs) && gs != []
    ensures ReaderAt(p, Refill(p, src, NextAfter(p, k)), k, gs[0].codes, gs[1..])
  {
    hide Refill, WidthAt, SameWidth, Bytes, Packed, MaxAt, BytesToBits, ToBits, Pow2;
    var g := gs[0];
    RefillTakes(p, src, k, gs);
    if |g.codes| == 8 {
      FullGroup(g.codes, g.width);
    }
    LastWith(p, g.codes, g.width, k);
  }

  lemma {:induction false} ReadSettled(p: Params, src: Source, k: nat, cur: seq<nat>, gs: seq<Group>)
    requires p.Valid() && ReaderAt(p, src, k, cur, gs) && cur != []
    ensures Refill(p, src, NextAfter(p, k)) == src
  {
    assert ReadWith(p, cur[0], k + 0, src.codeLen);
    NextFits(p, k);
    assert Packed(cur, src.codeLen) == ToBits(cur[0], src.codeLen) + Packed(cur[1..], src.codeLen);
  }

  /** A multi-block stream never spells anything with the end-of-block code. */
  lemma {:induction false} StepIsNoReset(p: Params, st: Lzw, code: nat)
    requires Step(p, st, code).Some?
    ensures !(p.multi && code == CODE_END_BLOCK)
  {
  }

  /** Reading laid-out codes gives their expansion: reader and writer stay in lockstep. */
  lemma {:induction false} DecodeLaid(p: Params, compat: bool, st: Lzw, src: Source, k: nat, cur: seq<nat>, gs: seq<Group>)
    requires p.Valid() && OnSchedule(p, st, k) && ReaderAt(p, src, k, cur, gs) && src.codeLen > 0
    requires Run(p, st, cur + Codes(gs)).Some?
    ensures var out := Run(p, st, cur + Codes(gs)).value.1;
            Decode(p, compat, st, src, |out|) == Ok(out)
    decreases |cur| + |Codes(gs)|, |gs|
  {
    hide ReaderAt, OnSchedule, Refill, Step;
    var codes := cur + Codes(gs);
    var out := Run(p, st, codes).value.1;
    if cur != [] {
      DecodeFirst(p, compat, st, src, k, cur, gs);
    } else if gs != [] {
      var src' := Refill(p, src, NextAfter(p, k));
      NextGroup(p, src, k, gs);
      assert gs[0].codes + Codes(gs[1..]) == codes;
      assert gs[0].codes != [] by { GroupNotEmpty(p, src, k, gs); }
      ReadSettled(p, src', k, gs[0].codes, gs[1..]);
      DecodeLaid(p, compat, st, src', k, gs[0].codes, gs[1..]);
      SameTurn(p, compat, st, src, src', k, |out|);
    } else {
      assert codes == [];
    }
  }

  lemma {:induction false} GroupNotEmpty(p: Params, src: Source, k: nat, gs: seq<Group>)
    requires ReaderAt(p, src, k, [], gs) && gs != []
    ensures gs[0].codes != []
  {
  }

  lemma {:induction false} SameTurn(p: Params, compat: bool, st: Lzw, src: Source, src': Source, k: nat, left: int)
    requires src.codeLen > 0 && src'.codeLen > 0 && OnSchedule(p, st, k)
    requires Refill(p, src', NextAfter(p, k)) == src' == Refill(p, src, NextAfter(p, k))
    ensures Decode(p, compat, st, src, left) == Decode(p, compat, st, src', left)
  {
    hide Refill;
    assert ReadCode(p, src, NextAfter(p, k)) == ReadCode(p, src', NextAfter(p, k));
    assert TakeTurn(p, compat, st, src) == TakeTurn(p, compat, st, src');
  }

  lemma {:induction false} DecodeFirst(p: Params, compat: bool, st: Lzw, src: Source, k: nat, cur: seq<nat>, gs: seq<Group>)
    requires p.Valid() && OnSchedule(p, st, k) && ReaderAt(p, src, k, cur, gs) && src.codeLen > 0
    requires cur != [] && Run(p, st, cur + Codes(gs)).Some?
    ensures var out := Run(p, st, cur + Codes(gs)).value.1;
            Decode(p, compat, st, src, |out|) == Ok(out)
    decreases |cur| + |Codes(gs)|, |gs|, 0
  {
    hide ReaderAt, Refill, Step, Laid;
    var codes := cur + Codes(gs);
    var out := Run(p, st, codes).value.1;
    assert codes[0] == cur[0] && codes[1..] == cur[1..] + Codes(gs);
    var (st', s) := Step(p, st, cur[0]).value;
    ReadInGroup(p, src, k, cur, gs, NextFree(p, st));
    StepIsNoReset(p, st, cur[0]);
    var src' := ReadCode(p, src, NextFree(p, st)).1;
    assert TakeTurn(p, compat, st, src) == Write(st', src', s);
    StepOnSchedule(p, st, k, cur[0]);
    DecodeLaid(p, compat, st', src', k + 1, cur[1..], gs);
  }
}
