/** The errors a reply carries (invoke.py): what every reader of a reply asks first. */
module Replies {
  import opened Bits
  import opened Words
  import opened Tlv

  const TAG_EXCEPTION_NUMBER: nat := 0x0417
  const TAG_RETURN_CODE: nat := 0x0420
  /** The five characters that open a gateway error record. */
  const GATEWAY_ERROR: seq<byte> := [0x2A, 0x45, 0x52, 0x52, 0x2A]

  /** Nothing raised, a communication error, an ABAP error or failure, or a ValueError. */
  datatype Verdict = Passes | NoAnswer | AbapRefusal | BadCode

  /** The verdict on the tags of a stream. A stream without a return code passes. */
  function RaisedFor(tags: map<nat, seq<byte>>): Verdict {
    if TAG_EXCEPTION_NUMBER in tags then AbapRefusal
    else if TAG_RETURN_CODE !in tags then Passes
    else if |tags[TAG_RETURN_CODE]| != 4 then BadCode
    else if BigEndian(tags[TAG_RETURN_CODE]) != 0 then AbapRefusal
    else Passes
  }

  function Raised(resp: seq<byte>): (v: Verdict)
    ensures v.Passes? ==> Parsed(resp).Ok?
  {
    if GATEWAY_ERROR <= resp then NoAnswer
    else
      match Parsed(resp)
      case Err(_) => NoAnswer
      case Ok(tags) => RaisedFor(tags)
  }

  /** `raise_for_rfc_error`. */
  method RaiseForRfcError(resp: seq<byte>) returns (v: Verdict)
    ensures v == Raised(resp)
  {
    hide Parsed, RaisedFor;
    if GATEWAY_ERROR <= resp {
      return NoAnswer;
    }
    var tags := ParseTlvStream(resp);
    if tags.Err? {
      return NoAnswer;
    }
    return RaisedFor(tags.value);
  }

  // ----- what passes, told by the records -----

  predicate Holds(recs: seq<Rec>, tag: nat) {
    exists i :: 0 <= i < |recs| && recs[i].tag == tag
  }

  /** The last record with the tag has this value. */
  predicate Ends(recs: seq<Rec>, tag: nat, value: seq<byte>) {
    exists i :: 0 <= i < |recs| && recs[i] == Rec(tag, value) && NoneBehind(recs, tag, i)
  }

  predicate NoneBehind(recs: seq<Rec>, tag: nat, i: nat) {
    forall j :: i < j < |recs| ==> recs[j].tag != tag
  }

  lemma {:induction false} TagsTell(recs: seq<Rec>, tag: nat)
    ensures tag in Tags(recs) <==> Holds(recs, tag)
    ensures tag in Tags(recs) ==> Ends(recs, tag, Tags(recs)[tag])
  {
    if Holds(recs, tag) {
      var i := LastOf(recs, tag);
      TagsPut(recs, tag, i);
      assert recs[i] == Rec(tag, recs[i].value) && NoneBehind(recs, tag, i);
    } else {
      TagsAbsent(recs, tag);
    }
  }

  lemma {:induction false} LastOf(recs: seq<Rec>, tag: nat) returns (i: nat)
    requires Holds(recs, tag)
    ensures i < |recs| && recs[i].tag == tag && forall j :: i < j < |recs| ==> recs[j].tag != tag
    decreases |recs|
  {
    i := |recs| - 1;
    if recs[i].tag != tag {
      i := LastOf(recs[..i], tag);
    }
  }

  lemma {:induction false} EndsOnce(recs: seq<Rec>, tag: nat, v: seq<byte>, w: seq<byte>)
    requires Ends(recs, tag, v) && Ends(recs, tag, w)
    ensures v == w
  {
    var i :| 0 <= i < |recs| && recs[i] == Rec(tag, v) && NoneBehind(recs, tag, i);
    var j :| 0 <= j < |recs| && recs[j] == Rec(tag, w) && NoneBehind(recs, tag, j);
    assert i == j;
  }

  lemma {:induction false} ZeroCode(v: seq<byte>)
    ensures |v| == 4 && BigEndian(v) == 0 <==> v == [0, 0, 0, 0]
  {
    ZeroBytes(v);
    hide BigEndian;
  }

  /** Which bytes are read without complaint: no gateway error, no record running off the end, no
      exception, and a return code of zero or none at all. */
  lemma {:induction false} PassesIff(resp: seq<byte>)
    ensures
      var (recs, end) := Walk(resp);
      Raised(resp).Passes? <==>
        && !(GATEWAY_ERROR <= resp) && end != AtOverrun && !Holds(recs, TAG_EXCEPTION_NUMBER)
        && (Holds(recs, TAG_RETURN_CODE) ==> Ends(recs, TAG_RETURN_CODE, [0, 0, 0, 0]))
  {
    hide Walk, Tags, BigEndian, Holds, Ends;
    var recs := Walk(resp).0;
    TagsTell(recs, TAG_EXCEPTION_NUMBER);
    TagsTell(recs, TAG_RETURN_CODE);
    if TAG_RETURN_CODE in Tags(recs) {
      var v := Tags(recs)[TAG_RETURN_CODE];
      ZeroCode(v);
      if Ends(recs, TAG_RETURN_CODE, [0, 0, 0, 0]) {
        EndsOnce(recs, TAG_RETURN_CODE, v, [0, 0, 0, 0]);
      }
    }
  }
}
