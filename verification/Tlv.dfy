/** The TLV layer of `invoke.py`: records, the stream parser and the three-way classifier. */
module Tlv {
  import opened Bits
  import opened Words

  const TERMINATOR: nat := 0xFFFF

  datatype Rec = Rec(tag: nat, value: seq<byte>) {
    /** A tag and a value that have a wire form, the tag not being the terminator's. */
    predicate Valid() {
      tag < TERMINATOR && |value| < 0x1_0000_0000
    }
  }

  predicate AllValid(recs: seq<Rec>) {
    forall k :: 0 <= k < |recs| ==> recs[k].Valid()
  }

  // ----- writing -----

  function LengthField(n: nat): seq<byte>
    requires n < 0x1_0000_0000
  {
    if n >= 0xFFFF then [255, 255] + BigEndianBytes(n, 4) else BigEndianBytes(n, 2)
  }

  /** `tlv_record`: tag, length, value, and the tag once more. */
  function Record(tag: nat, data: seq<byte>): seq<byte>
    requires tag <= TERMINATOR && |data| < 0x1_0000_0000
  {
    BigEndianBytes(tag, 2) + (LengthField(|data|) + (data + BigEndianBytes(tag, 2)))
  }

  function Body(recs: seq<Rec>): seq<byte>
    requires AllValid(recs)
  {
    if recs == [] then [] else Record(recs[0].tag, recs[0].value) + Body(recs[1..])
  }

  function Stream(recs: seq<Rec>): seq<byte>
    requires AllValid(recs)
  {
    Body(recs) + Record(TERMINATOR, [])
  }

  // ----- walking -----

  /** What stands at a cursor. */
  datatype Item = Short | Terminator | Overrun | Found(tag: nat, value: seq<byte>, rest: seq<byte>)

  /** Skips the repeated tag that closes a record, if it is there. */
  function SkipClose(tag: nat, s: seq<byte>): (r: seq<byte>)
    ensures |r| <= |s|
  {
    if |s| >= 2 && BigEndian(s[..2]) == tag then s[2..] else s
  }

  function TakeValue(tag: nat, length: nat, s: seq<byte>): (i: Item)
    ensures i.Found? ==> |i.rest| <= |s|
  {
    if length > |s| then Overrun else Found(tag, s[..length], SkipClose(tag, s[length..]))
  }

  function Next(s: seq<byte>): (i: Item)
    ensures i.Found? ==> |i.rest| < |s|
  {
    if |s| < 4 then Short
    else
      var tag, length := BigEndian(s[..2]), BigEndian(s[2..4]);
      if tag == TERMINATOR then Terminator
      else if length != 0xFFFF then TakeValue(tag, length, s[4..])
      else if |s| < 8 then Overrun
      else TakeValue(tag, BigEndian(s[4..8]), s[8..])
  }

  /** How a walk ends. */
  datatype End = AtTerminator | AtEnd | AtOverrun

  function Walk(s: seq<byte>): (seq<Rec>, End)
    decreases |s|
  {
    match Next(s)
    case Short => ([], AtEnd)
    case Terminator => ([], AtTerminator)
    case Overrun => ([], AtOverrun)
    case Found(tag, value, rest) =>
      var (more, end) := Walk(rest);
      ([Rec(tag, value)] + more, end)
  }

  /** The tags of a record list; the last value of a repeated tag wins. */
  function Tags(recs: seq<Rec>): map<nat, seq<byte>> {
    if recs == [] then map[] else Tags(recs[..|recs| - 1])[recs[|recs| - 1].tag := recs[|recs| - 1].value]
  }

  function Parsed(s: seq<byte>): Result<map<nat, seq<byte>>> {
    if Walk(s).1 == AtOverrun then Err("malformed TLV") else Ok(Tags(Walk(s).0))
  }

  datatype Status = Complete | Truncated | NotTlv

  function StatusOf(s: seq<byte>): Status {
    var (recs, end) := Walk(s);
    if end == AtTerminator then Complete else if recs != [] then Truncated else NotTlv
  }

  /** The record at a position, in the positions of the whole buffer. */
  lemma {:induction false} NextAt(data: seq<byte>, start: nat)
    requires start <= |data|
    ensures
      Next(data[start..]) ==
      if start + 4 > |data| then Short
      else
        var tag, length := BigEndian(data[start..start + 2]), BigEndian(data[start + 2..start + 4]);
        if tag == TERMINATOR then Terminator
        else if length != 0xFFFF then TakeValue(tag, length, data[start + 4..])
        else if start + 8 > |data| then Overrun
        else TakeValue(tag, BigEndian(data[start + 4..start + 8]), data[start + 8..])
  {
    hide BigEndian, TakeValue;
    var s := data[start..];
    if start + 4 <= |data| {
      assert s[..2] == data[start..start + 2] && s[2..4] == data[start + 2..start + 4] && s[4..] == data[start + 4..];
    }
    if start + 8 <= |data| {
      assert s[4..8] == data[start + 4..start + 8] && s[8..] == data[start + 8..];
    }
  }

  lemma {:induction false} TakeAt(data: seq<byte>, pos: nat, tag: nat, length: nat)
    requires pos <= |data|
    ensures
      TakeValue(tag, length, data[pos..]) ==
      var end := pos + length;
      if end > |data| then Overrun
      else if end + 2 <= |data| && BigEndian(data[end..end + 2]) == tag then Found(tag, data[pos..end], data[end + 2..])
      else Found(tag, data[pos..end], data[end..])
  {
    hide BigEndian;
    var end := pos + length;
    var s := data[pos..];
    if end <= |data| {
      assert s[..length] == data[pos..end] && s[length..] == data[end..];
      if end + 2 <= |data| {
        assert data[end..][..2] == data[end..end + 2] && data[end..][2..] == data[end + 2..];
      }
    }
  }

  /** Reading one record, as every walker of the source does. */
  method ReadItem(data: seq<byte>, start: nat) returns (i: Item, pos: nat)
    requires start <= |data|
    ensures i == Next(data[start..])
    ensures i.Found? ==> start < pos <= |data| && i.rest == data[pos..]
  {
    hide BigEndian, Next, TakeValue;
    NextAt(data, start);
    if start + 4 > |data| {
      return Short, start;
    }
    var tag, length := BigEndian(data[start..start + 2]), BigEndian(data[start + 2..start + 4]);
    pos := start + 4;
    if tag == TERMINATOR {
      return Terminator, pos;
    }
    if length == 0xFFFF {
      if pos + 4 > |data| {
        return Overrun, pos;
      }
      length := BigEndian(data[pos..pos + 4]);
      pos := pos + 4;
    }
    TakeAt(data, pos, tag, length);
    var end := pos + length;
    if end > |data| {
      return Overrun, pos;
    }
    var value := data[pos..end];
    pos := end;
    if pos + 2 <= |data| && BigEndian(data[pos..pos + 2]) == tag {
      pos := pos + 2;
    }
    return Found(tag, value, data[pos..]), pos;
  }

  /** One step of a walk that has the records `done` behind it. */
  lemma {:induction false} WalkFound(s: seq<byte>, done: seq<Rec>)
    ensures match Next(s)
            case Found(tag, value, rest) =>
              done + Walk(s).0 == done + [Rec(tag, value)] + Walk(rest).0 && Walk(s).1 == Walk(rest).1
            case Short => done + Walk(s).0 == done && Walk(s).1 == AtEnd
            case Terminator => done + Walk(s).0 == done && Walk(s).1 == AtTerminator
            case Overrun => done + Walk(s).0 == done && Walk(s).1 == AtOverrun
  {
    hide Next;
    match Next(s)
    case Found(tag, value, rest) =>
      assert done + ([Rec(tag, value)] + Walk(rest).0) == done + [Rec(tag, value)] + Walk(rest).0;
    case _ =>
  }

  lemma {:induction false} NoTags()
    ensures Tags([]) == map[]
  {
  }

  lemma {:induction false} TagsNext(done: seq<Rec>, tag: nat, value: seq<byte>)
    ensures Tags(done + [Rec(tag, value)]) == Tags(done)[tag := value]
  {
    assert (done + [Rec(tag, value)])[..|done|] == done;
  }

  lemma {:induction false} TagsPut(recs: seq<Rec>, tag: nat, i: nat)
    requires i < |recs| && recs[i].tag == tag && forall j :: i < j < |recs| ==> recs[j].tag != tag
    ensures tag in Tags(recs) && Tags(recs)[tag] == recs[i].value
    decreases |recs|
  {
    var n := |recs| - 1;
    if i < n {
      assert recs[..n][i] == recs[i];
      TagsPut(recs[..n], tag, i);
    }
  }

  lemma {:induction false} TagsAbsent(recs: seq<Rec>, tag: nat)
    requires forall j :: 0 <= j < |recs| ==> recs[j].tag != tag
    ensures tag !in Tags(recs)
    decreases |recs|
  {
    if recs != [] {
      TagsAbsent(recs[..|recs| - 1], tag);
    }
  }

  /** `_parse_tlv_stream`. */
  method ParseTlvStream(data: seq<byte>) returns (r: Result<map<nat, seq<byte>>>)
    ensures r == Parsed(data)
  {
    hide Next, Walk, Tags;
    NoTags();
    var out: map<nat, seq<byte>> := map[];
    var pos := 0;
    ghost var done: seq<Rec> := [];
    assert data[0..] == data && [] + Walk(data).0 == Walk(data).0;
    while pos + 4 <= |data|
      invariant 0 <= pos <= |data| && out == Tags(done)
      invariant Walk(data).0 == done + Walk(data[pos..]).0 && Walk(data).1 == Walk(data[pos..]).1
      decreases |data| - pos
    {
      WalkFound(data[pos..], done);
      var item, next := ReadItem(data, pos);
      match item
      case Short =>
        return Ok(out);
      case Terminator =>
        return Ok(out);
      case Overrun =>
        return Err("malformed TLV");
      case Found(tag, value, rest) =>
        TagsNext(done, tag, value);
        done := done + [Rec(tag, value)];
        out := out[tag := value];
        pos := next;
    }
    ShortWalk(data[pos..]);
    assert done + [] == done;
    return Ok(out);
  }

  lemma {:induction false} ShortWalk(s: seq<byte>)
    requires |s| < 4
    ensures Walk(s) == ([], AtEnd)
  {
  }

  /** `tlv_stream_status`. */
  method TlvStreamStatus(data: seq<byte>) returns (status: Status)
    ensures status == StatusOf(data)
  {
    hide Next, Walk;
    var pos, records := 0, 0;
    ghost var done: seq<Rec> := [];
    assert data[0..] == data && [] + Walk(data).0 == Walk(data).0;
    while pos + 4 <= |data|
      invariant 0 <= pos <= |data| && records == |done|
      invariant Walk(data).0 == done + Walk(data[pos..]).0 && Walk(data).1 == Walk(data[pos..]).1
      decreases |data| - pos
    {
      WalkFound(data[pos..], done);
      var item, next := ReadItem(data, pos);
      match item
      case Terminator =>
        return Complete;
      case Found(tag, value, rest) =>
        done := done + [Rec(tag, value)];
        records := records + 1;
        pos := next;
      case _ =>
        return if records > 0 then Truncated else NotTlv;
    }
    ShortWalk(data[pos..]);
    return if records > 0 then Truncated else NotTlv;
  }

  // ----- what was written is what is read -----

  lemma {:induction false} FieldBack(n: nat, w: nat, rest: seq<byte>)
    requires n < Pow256(w)
    ensures BigEndian((BigEndianBytes(n, w) + rest)[..w]) == n && (BigEndianBytes(n, w) + rest)[w..] == rest
  {
    BigEndianRoundTrip(n, w);
    assert (BigEndianBytes(n, w) + rest)[..w] == BigEndianBytes(n, w);
  }

  /** The size of tag and length field. */
  function HeaderSize(n: nat): nat {
    if n >= 0xFFFF then 8 else 4
  }

  /** A record header in front of any bytes: the rest is the value test. */
  lemma {:induction false} HeaderBack(r: Rec, tail: seq<byte>)
    requires r.Valid()
    ensures Next(BigEndianBytes(r.tag, 2) + (LengthField(|r.value|) + tail)) == TakeValue(r.tag, |r.value|, tail)
  {
    Pow256Values();
    var n := |r.value|;
    var after := LengthField(n) + tail;
    FieldBack(r.tag, 2, after);
    if n >= 0xFFFF {
      ExtendedBack(r, tail);
    } else {
      var s := BigEndianBytes(r.tag, 2) + after;
      FieldBack(n, 2, tail);
      assert s[2..4] == after[..2] && s[4..] == after[2..];
    }
  }

  lemma {:induction false} ExtendedBack(r: Rec, tail: seq<byte>)
    requires r.Valid() && |r.value| >= 0xFFFF && r.tag != TERMINATOR
    ensures Next(BigEndianBytes(r.tag, 2) + (LengthField(|r.value|) + tail)) == TakeValue(r.tag, |r.value|, tail)
  {
    Pow256Values();
    BigEndianRoundTrip(r.tag, 2);
    BigEndianRoundTrip(|r.value|, 4);
    var t, e := BigEndianBytes(r.tag, 2), BigEndianBytes(|r.value|, 4);
    assert LengthField(|r.value|) + tail == [255, 255] + (e + tail);
    hide *;
    ExtendedHeader(t, e, tail);
  }

  lemma {:induction false} ExtendedHeader(t: seq<byte>, e: seq<byte>, tail: seq<byte>)
    requires |t| == 2 && |e| == 4 && BigEndian(t) != TERMINATOR
    ensures Next(t + ([255, 255] + (e + tail))) == TakeValue(BigEndian(t), BigEndian(e), tail)
  {
    MaxField();
    hide BigEndian, TakeValue;
    var s := t + ([255, 255] + (e + tail));
    assert s[..2] == t && s[2..4] == [255, 255] && s[4..8] == e && s[8..] == tail;
  }

  lemma {:induction false} MaxField()
    ensures BigEndian([255, 255]) == 0xFFFF
  {
    assert [255, 255][..1] == [255] && [255][..0] == [];
    assert BigEndian([255]) == 255;
  }

  lemma {:induction false} RecordBack(r: Rec, rest: seq<byte>)
    requires r.Valid()
    ensures Next(Record(r.tag, r.value) + rest) == Found(r.tag, r.value, rest)
  {
    var t := BigEndianBytes(r.tag, 2);
    var tail := r.value + (t + rest);
    Rebracket(t, LengthField(|r.value|), r.value, rest);
    HeaderBack(r, tail);
    Pow256Values();
    FieldBack(r.tag, 2, rest);
    hide BigEndian, BigEndianBytes, LengthField, Next;
    assert tail[..|r.value|] == r.value && tail[|r.value|..] == t + rest;
  }

  lemma {:induction false} Rebracket(t: seq<byte>, l: seq<byte>, v: seq<byte>, rest: seq<byte>)
    ensures t + (l + (v + t)) + rest == t + (l + (v + (t + rest)))
  {
  }

  lemma {:induction false} TerminatorBack(junk: seq<byte>)
    ensures |Record(TERMINATOR, [])| == 6
    ensures Next(Record(TERMINATOR, []) + junk) == Terminator
  {
    Pow256Values();
    var after := LengthField(0) + ([] + BigEndianBytes(TERMINATOR, 2)) + junk;
    FieldBack(TERMINATOR, 2, after);
    assert Record(TERMINATOR, []) + junk == BigEndianBytes(TERMINATOR, 2) + after;
  }

  /** Every record of a stream is read back, whatever follows the terminator: extended lengths, equal
  adjacent tags and values that start with their own tag included. */
  lemma {:induction false} StreamBack(recs: seq<Rec>, junk: seq<byte>)
    requires AllValid(recs)
    ensures Walk(Stream(recs) + junk) == (recs, AtTerminator)
  {
    hide Next, Record;
    if recs == [] {
      TerminatorBack(junk);
      assert Stream(recs) == Record(TERMINATOR, []);
    } else {
      var rest := Stream(recs[1..]) + junk;
      var r := recs[0];
      assert Stream(recs) + junk == Record(r.tag, r.value) + rest;
      RecordBack(r, rest);
      StreamBack(recs[1..], junk);
      assert recs == [r] + recs[1..];
    }
  }

  /** A stream starts with the high byte of its first tag. */
  lemma {:induction false} StreamStarts(recs: seq<Rec>)
    requires AllValid(recs) && recs != []
    ensures |Stream(recs)| > 0 && Stream(recs)[0] as nat == recs[0].tag / 256
  {
    hide BigEndianBytes, LengthField;
    var r := recs[0];
    HighByte(r.tag);
    assert Record(r.tag, r.value) == BigEndianBytes(r.tag, 2) + (LengthField(|r.value|) + (r.value + BigEndianBytes(r.tag, 2)));
    assert Body(recs)[0] == Record(r.tag, r.value)[0];
  }

  lemma {:induction false} HighByte(tag: nat)
    requires tag <= TERMINATOR
    ensures BigEndianBytes(tag, 2)[0] as nat == tag / 256
  {
    assert BigEndianBytes(tag / 256, 1) == BigEndianBytes(0, 0) + [tag / 256];
  }

  /** A complete stream always parses; the parser raises only on buffers the classifier rejects. */
  lemma {:induction false} ParserAgrees(s: seq<byte>)
    ensures StatusOf(s) == Complete ==> Parsed(s).Ok?
    ensures Parsed(s).Err? ==> StatusOf(s) != Complete
    ensures StatusOf(s) == NotTlv && Parsed(s).Ok? ==> Parsed(s).value == map[]
  {
  }

  // ----- a stream cut at any byte -----

  /** Where the value of the first record ends. */
  function FirstValueEnd(recs: seq<Rec>): nat
    requires recs != []
  {
    HeaderSize(|recs[0].value|) + |recs[0].value|
  }

  /** The answer for a stream cut after `cut` bytes, when `seen` tells of records before it. */
  function CutStatus(recs: seq<Rec>, cut: nat, seen: bool): Status
    requires AllValid(recs)
  {
    if cut >= |Body(recs)| + 4 then Complete
    else if seen || (recs != [] && cut >= FirstValueEnd(recs)) then Truncated
    else NotTlv
  }

  function StatusAfter(s: seq<byte>, seen: bool): Status {
    var (recs, end) := Walk(s);
    if end == AtTerminator then Complete else if recs != [] || seen then Truncated else NotTlv
  }

  /** A cut inside the header or the value of the first record. */
  lemma {:induction false} CutBeforeValueEnd(r: Rec, rest: seq<byte>, cut: nat)
    requires r.Valid() && cut < HeaderSize(|r.value|) + |r.value|
    requires cut <= |Record(r.tag, r.value) + rest|
    ensures Next((Record(r.tag, r.value) + rest)[..cut]) in {Short, Overrun}
  {
    var t := BigEndianBytes(r.tag, 2);
    var h := HeaderSize(|r.value|);
    var lf := LengthField(|r.value|);
    var tail := r.value + (t + rest);
    Rebracket(t, lf, r.value, rest);
    var s := t + (lf + tail);
    if cut >= 4 {
      if cut >= h {
        assert s[..cut] == t + (lf + tail[..cut - h]);
        HeaderBack(r, tail[..cut - h]);
      } else {
        CutExtended(r, tail, cut);
      }
    }
  }

  lemma {:induction false} CutExtended(r: Rec, tail: seq<byte>, cut: nat)
    requires r.Valid() && |r.value| >= 0xFFFF && 4 <= cut < 8
    ensures Next((BigEndianBytes(r.tag, 2) + (LengthField(|r.value|) + tail))[..cut]) == Overrun
  {
    var t := BigEndianBytes(r.tag, 2);
    var s := (t + (LengthField(|r.value|) + tail))[..cut];
    Pow256Values();
    BigEndianRoundTrip(r.tag, 2);
    MaxField();
    assert s[..2] == t && s[2..4] == [255, 255];
  }

  lemma {:induction false} BigEndianRoundTripTag(tag: nat)
    requires tag <= TERMINATOR
    ensures BigEndian(BigEndianBytes(tag, 2)) == tag
  {
    Pow256Values();
    BigEndianRoundTrip(tag, 2);
  }

  lemma {:induction false} LengthFieldSize(n: nat)
    requires n < 0x1_0000_0000
    ensures |LengthField(n)| == HeaderSize(n) - 2
  {
  }

  /** A cut behind the value of the first record: it is found, and the cut goes on behind it. */
  lemma {:induction false} CutAfterValue(r: Rec, rest: seq<byte>, cut: nat)
    requires r.Valid() && HeaderSize(|r.value|) + |r.value| <= cut <= |Record(r.tag, r.value) + rest|
    ensures var n := HeaderSize(|r.value|) + |r.value| + 2;
            var i := Next((Record(r.tag, r.value) + rest)[..cut]);
            && i.Found? && i.tag == r.tag && i.value == r.value
            && (cut < n ==> |i.rest| <= 1)
            && (cut >= n ==> cut - n <= |rest| && i.rest == rest[..cut - n])
  {
    var t := BigEndianBytes(r.tag, 2);
    var h, v := HeaderSize(|r.value|), |r.value|;
    var lf := LengthField(v);
    Rebracket(t, lf, r.value, rest);
    BigEndianRoundTripTag(r.tag);
    LengthFieldSize(v);
    hide BigEndian, BigEndianBytes, LengthField, Next;
    var tail := (t + rest)[..cut - h - v];
    assert (Record(r.tag, r.value) + rest)[..cut] == t + (lf + (r.value + tail));
    HeaderBack(r, r.value + tail);
    assert (r.value + tail)[..v] == r.value && (r.value + tail)[v..] == tail;
    if cut >= h + v + 2 {
      assert tail[..2] == t && tail[2..] == rest[..cut - h - v - 2];
    }
  }

  lemma {:induction false} CutTerminator(cut: nat)
    requires cut <= 6
    ensures |Record(TERMINATOR, [])| == 6
    ensures Next(Record(TERMINATOR, [])[..cut]) == if cut < 4 then Short else Terminator
  {
    Pow256Values();
    BigEndianRoundTrip(TERMINATOR, 2);
    TerminatorBack([]);
    if cut >= 4 {
      assert Record(TERMINATOR, [])[..cut][..2] == BigEndianBytes(TERMINATOR, 2);
    }
  }

  lemma {:induction false} CutWalk(recs: seq<Rec>, cut: nat, seen: bool)
    requires AllValid(recs)
    requires cut <= |Stream(recs)|
    ensures StatusAfter(Stream(recs)[..cut], seen) == CutStatus(recs, cut, seen)
  {
    hide Next, Record;
    if recs == [] {
      assert Stream(recs) == Record(TERMINATOR, []);
      TerminatorBack([]);
      CutTerminator(cut);
    } else {
      var r := recs[0];
      var rest := Stream(recs[1..]);
      assert Stream(recs) == Record(r.tag, r.value) + rest;
      RecordSize(r);
      if cut < FirstValueEnd(recs) {
        CutBeforeValueEnd(r, rest, cut);
      } else {
        CutAfterValue(r, rest, cut);
        var n := FirstValueEnd(recs) + 2;
        if cut >= n {
          CutWalk(recs[1..], cut - n, true);
        } else {
          ShortWalk(Next(Stream(recs)[..cut]).rest);
        }
      }
    }
  }

  lemma {:induction false} RecordSize(r: Rec)
    requires r.Valid()
    ensures |Record(r.tag, r.value)| == HeaderSize(|r.value|) + |r.value| + 2
  {
  }

  /** The classifier on a stream cut at any byte: complete exactly when the terminator header is
  there, otherwise truncated exactly when the first record's value is, otherwise not TLV. */
  lemma {:induction false} PrefixStatus(recs: seq<Rec>, cut: nat)
    requires AllValid(recs)
    requires cut <= |Stream(recs)|
    ensures StatusOf(Stream(recs)[..cut]) == Complete <==> cut >= |Body(recs)| + 4
    ensures StatusOf(Stream(recs)[..cut]) == Truncated <==>
              cut < |Body(recs)| + 4 && recs != [] && cut >= FirstValueEnd(recs)
  {
    CutWalk(recs, cut, false);
  }
}
