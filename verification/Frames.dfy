/** Reply frames of `connection.py`: the gateway header and the frame joiner. */
module Frames {
  import opened Bits
  import opened Words
  import opened Tlv

  const MAX_RESPONSE_FRAMES: nat := 256
  const GW_HEADER: nat := 80

  /** `_strip_gw_header`: 80 bytes go if the first one is 0x06. */
  function StripGwHeader(raw: seq<byte>): seq<byte> {
    if raw != [] && raw[0] == 0x06 then (if |raw| >= GW_HEADER then raw[GW_HEADER..] else []) else raw
  }

  /** `_frame_reports_itself_final`: `None` is "no opinion". */
  function ReportsItselfFinal(raw: seq<byte>): Option<bool> {
    if |raw| >= 64 && raw[0] == 0x06 then Some(BigEndian(raw[60..64]) == 1) else None
  }

  /** A joined reply, no frame in time, or frames that do not make a reply; and the frames left unread. */
  datatype Join =
    | Joined(tlv: seq<byte>, left: seq<seq<byte>>)
    | TimedOut(left: seq<seq<byte>>)
    | Malformed(left: seq<seq<byte>>)

  /** Joining on behind `tlv`, whose last frame was `raw`, when `arrived` more frames come in time. */
  function JoinMore(tlv: seq<byte>, raw: seq<byte>, count: nat, frames: seq<seq<byte>>, arrived: nat): Join
    decreases |frames|
  {
    if StatusOf(tlv) != Truncated then Joined(tlv, frames)
    else if ReportsItselfFinal(raw) == Some(true) then Malformed(frames)
    else if count >= MAX_RESPONSE_FRAMES then Malformed(frames)
    else if frames == [] || arrived == 0 then TimedOut(frames)
    else if StripGwHeader(frames[0]) == [] then Malformed(frames[1..])
    else JoinMore(tlv + StripGwHeader(frames[0]), frames[0], count + 1, frames[1..], arrived - 1)
  }

  function JoinFrames(frames: seq<seq<byte>>, arrived: nat): Join {
    if frames == [] || arrived == 0 then TimedOut(frames)
    else JoinMore(StripGwHeader(frames[0]), frames[0], 1, frames[1..], arrived - 1)
  }

  /** The receiving end of a connection: frames queued, and how many of them come before the deadline. */
  class Transport {
    var incoming: seq<seq<byte>>
    var arrived: nat

    constructor ()
      ensures incoming == [] && arrived == 0
    {
      incoming, arrived := [], 0;
    }

    method RecvMessage() returns (raw: Option<seq<byte>>)
      modifies this
      ensures raw.None? <==> old(incoming) == [] || old(arrived) == 0
      ensures raw.None? ==> incoming == old(incoming) && arrived == old(arrived)
      ensures raw.Some? ==> raw.value == old(incoming)[0] && incoming == old(incoming)[1..] && arrived == old(arrived) - 1
    {
      if incoming == [] || arrived == 0 {
        return None;
      }
      raw := Some(incoming[0]);
      incoming, arrived := incoming[1..], arrived - 1;
    }
  }

  /** `_join_response_frames`, driven by the stream's own terminator. */
  method JoinResponseFrames(t: Transport) returns (j: Join)
    modifies t
    ensures j == JoinFrames(old(t.incoming), old(t.arrived)) && t.incoming == j.left
  {
    hide StatusOf, StripGwHeader, ReportsItselfFinal;
    var first := t.RecvMessage();
    if first.None? {
      return TimedOut(t.incoming);
    }
    var raw := first.value;
    var tlv := StripGwHeader(raw);
    var frames := 1;
    var status := TlvStreamStatus(tlv);
    while status == Truncated
      invariant status == StatusOf(tlv) && frames >= 1
      invariant JoinFrames(old(t.incoming), old(t.arrived)) == JoinMore(tlv, raw, frames, t.incoming, t.arrived)
      decreases |t.incoming|
    {
      if ReportsItselfFinal(raw) == Some(true) {
        return Malformed(t.incoming);
      }
      if frames >= MAX_RESPONSE_FRAMES {
        return Malformed(t.incoming);
      }
      var next := t.RecvMessage();
      if next.None? {
        return TimedOut(t.incoming);
      }
      raw := next.value;
      var part := StripGwHeader(raw);
      if part == [] {
        return Malformed(t.incoming);
      }
      tlv := tlv + part;
      frames := frames + 1;
      status := TlvStreamStatus(tlv);
    }
    return Joined(tlv, t.incoming);
  }

  // ----- a reply cut into frames -----

  /** A gateway frame with a body. */
  predicate GwFrame(raw: seq<byte>) {
    |raw| > GW_HEADER && raw[0] == 0x06
  }

  /** A gateway frame around a body, its header otherwise zero. */
  function Framed(body: seq<byte>): seq<byte> {
    [0x06] + seq(GW_HEADER - 1, i => 0) + body
  }

  lemma {:induction false} FramedBack(body: seq<byte>)
    ensures StripGwHeader(Framed(body)) == body && (body != [] ==> GwFrame(Framed(body)))
    ensures body != [] ==> Carries([Framed(body)], body)
  {
    assert Framed(body)[GW_HEADER..] == body;
    assert [Framed(body)][1..] == [] && body[|body|..] == [];
  }

  /** The frames carry exactly the bytes `s`, in pieces that are not empty. */
  predicate Carries(frames: seq<seq<byte>>, s: seq<byte>) {
    if frames == [] then s == []
    else
      && GwFrame(frames[0]) && StripGwHeader(frames[0]) <= s
      && Carries(frames[1..], s[|StripGwHeader(frames[0])|..])
  }

  /** Some frame ends after exactly `n` bytes of the reply. */
  predicate EndsAt(frames: seq<seq<byte>>, n: nat)
    decreases |frames|
  {
    n == 0 ||
    (&& frames != [] && GwFrame(frames[0]) && |StripGwHeader(frames[0])| <= n
     && EndsAt(frames[1..], n - |StripGwHeader(frames[0])|))
  }

  /** One more frame of the reply. */
  lemma {:induction false} NextFrame(whole: seq<byte>, c: nat, frames: seq<seq<byte>>)
    requires c <= |whole| && Carries(frames, whole[c..]) && frames != []
    ensures var body := StripGwHeader(frames[0]);
            && body != [] && c + |body| <= |whole| && whole[..c] + body == whole[..c + |body|]
            && Carries(frames[1..], whole[c + |body|..])
  {
    var body := StripGwHeader(frames[0]);
    assert whole[c..][..|body|] == body && whole[c..][|body|..] == whole[c + |body|..];
  }

  /** What is joined is always a prefix of the reply; the rest stays queued. */
  lemma {:induction false} JoinIsPrefix(whole: seq<byte>, c: nat, raw: seq<byte>, count: nat, frames: seq<seq<byte>>, arrived: nat)
    requires c <= |whole| && Carries(frames, whole[c..])
    ensures var j := JoinMore(whole[..c], raw, count, frames, arrived);
            j.Joined? ==>
              && c <= |j.tlv| <= |whole| && j.tlv == whole[..|j.tlv|]
              && StatusOf(j.tlv) != Truncated && Carries(j.left, whole[|j.tlv|..])
    decreases |frames|
  {
    hide StatusOf, ReportsItselfFinal, StripGwHeader, Carries;
    var j := JoinMore(whole[..c], raw, count, frames, arrived);
    if j.Joined? && StatusOf(whole[..c]) == Truncated {
      NextFrame(whole, c, frames);
      JoinIsPrefix(whole, c + |StripGwHeader(frames[0])|, frames[0], count + 1, frames[1..], arrived - 1);
    }
  }

  /** Joining stops at a frame boundary, and at the first one where the stream is not truncated. */
  lemma {:induction false} JoinStopsFirst(whole: seq<byte>, c: nat, raw: seq<byte>, count: nat, frames: seq<seq<byte>>, arrived: nat, n: nat)
    requires c <= |whole| && Carries(frames, whole[c..]) && JoinMore(whole[..c], raw, count, frames, arrived).Joined?
    ensures var tlv := JoinMore(whole[..c], raw, count, frames, arrived).tlv;
            && c <= |tlv| <= |whole| && EndsAt(frames, |tlv| - c)
            && (c <= n < |tlv| && EndsAt(frames, n - c) ==> StatusOf(whole[..n]) == Truncated)
    decreases |frames|
  {
    hide StatusOf, ReportsItselfFinal, StripGwHeader, Carries;
    JoinIsPrefix(whole, c, raw, count, frames, arrived);
    if StatusOf(whole[..c]) == Truncated {
      NextFrame(whole, c, frames);
      CarriesGw(frames, whole[c..]);
      JoinStopsFirst(whole, c + |StripGwHeader(frames[0])|, frames[0], count + 1, frames[1..], arrived - 1, n);
    }
  }

  lemma {:induction false} CarriesGw(frames: seq<seq<byte>>, s: seq<byte>)
    requires Carries(frames, s) && frames != []
    ensures GwFrame(frames[0])
  {
  }

  lemma {:induction false} CarriesAppend(a: seq<seq<byte>>, x: seq<byte>, b: seq<seq<byte>>, y: seq<byte>)
    requires Carries(a, x) && Carries(b, y)
    ensures Carries(a + b, x + y)
  {
    hide StripGwHeader;
    if a == [] {
      assert a + b == b && x + y == y;
    } else {
      var n := |StripGwHeader(a[0])|;
      CarriesAppend(a[1..], x[n..], b, y);
      assert (a + b)[1..] == a[1..] + b && (x + y)[n..] == x[n..] + y;
    }
  }

  /** The piece of the reply in the first frame is long enough for a record header. */
  predicate HeaderWhole(back: seq<seq<byte>>) {
    back != [] && |StripGwHeader(back[0])| >= 4
  }

  /** A first piece of fewer than four bytes is joined to nothing: it is no stream. */
  lemma {:induction false} ShortPieceJoined(reply: seq<seq<byte>>, arrived: nat)
    requires reply != [] && !HeaderWhole(reply) && arrived > 0
    ensures JoinFrames(reply, arrived) == Joined(StripGwHeader(reply[0]), reply[1..])
    ensures StatusOf(StripGwHeader(reply[0])) == NotTlv && Walk(StripGwHeader(reply[0])) == ([], AtEnd)
  {
    ShortWalk(StripGwHeader(reply[0]));
    hide Walk, StripGwHeader;
  }
}
