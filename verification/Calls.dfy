/** A call on a connection: send, join the reply, classify it, fail closed; and whole runs of calls. */
module Calls {
  import opened Bits
  import opened Words
  import opened Tlv
  import opened Sessions
  import opened Frames
  import opened Replies

  datatype Outcome =
    | Refused
    | LocalError
    | Returned(tlv: seq<byte>)
    | AbapError(tlv: seq<byte>)
    | CommFailure

  /** What a joined reply is reported as: unlike `raise_for_rfc_error` alone, a call insists on a return
  code. `decodes` says whether its values fit the descriptor. */
  function Classify(tlv: seq<byte>, decodes: bool): Outcome {
    match Raised(tlv)
    case AbapRefusal => AbapError(tlv)
    case Passes => if TAG_RETURN_CODE in Parsed(tlv).value && decodes then Returned(tlv) else CommFailure
    case _ => CommFailure
  }

  /** Everything about one call that this side does not decide: whether the request can be built,
  whether it can be sent, the frames the server answers with, how many frames come before the
  deadline, and whether the values decode. */
  datatype Attempt = Attempt(builds: bool, sendOk: bool, reply: seq<seq<byte>>, arrived: nat, decodes: bool)

  datatype Sys = Sys(session: State, queue: seq<seq<byte>>)

  function CallStep(s: Sys, a: Attempt): (Sys, Outcome) {
    if s.session != Ready then (s, Refused)
    else if !a.builds then (s, LocalError)
    else if !a.sendOk then (Sys(Broken, s.queue), CommFailure)
    else
      match JoinFrames(s.queue + a.reply, a.arrived)
      case TimedOut(left) => (Sys(Broken, left), CommFailure)
      case Malformed(left) => (Sys(Broken, left), CommFailure)
      case Joined(tlv, left) =>
        var outcome := Classify(tlv, a.decodes);
        (Sys(if outcome == CommFailure then Broken else Ready, left), outcome)
  }

  class Connection {
    const session: Session
    const transport: Transport

    constructor (session: Session, transport: Transport)
      ensures this.session == session && this.transport == transport
    {
      this.session := session;
      this.transport := transport;
    }

    /** The instrumented call. */
    method Call(a: Attempt) returns (outcome: Outcome)
      modifies session, transport
      ensures (Sys(session.state, transport.incoming), outcome) ==
              CallStep(Sys(old(session.state), old(transport.incoming)), a)
    {
      var refused := session.Do(MarkInCall, "");
      if refused {
        return Refused;
      }
      if a.builds {
        outcome := SendAndReadReply(a);
      } else {
        outcome := LocalError;
      }
      if session.state == InCall {
        var raised := session.Do(MarkReady, "");
      }
    }

    /** The part inside `_fail_closed`: any failure but an ABAP error retires the session. */
    method SendAndReadReply(a: Attempt) returns (outcome: Outcome)
      requires session.state == InCall && a.builds
      modifies session, transport
      ensures var (s, o) := CallStep(Sys(Ready, old(transport.incoming)), a);
              && o == outcome && transport.incoming == s.queue
              && session.state == if s.session == Broken then Broken else InCall
    {
      outcome := CommFailure;
      if a.sendOk {
        transport.incoming, transport.arrived := transport.incoming + a.reply, a.arrived;
        var joined := JoinResponseFrames(transport);
        if joined.Joined? {
          outcome := Classify(joined.tlv, a.decodes);
        }
      }
      if outcome == CommFailure {
        var raised := session.Do(MarkBroken, "the reply could not be read to its end");
      }
    }
  }

  // ----- one call -----

  lemma {:induction false} WalkBody(recs: seq<Rec>, tail: seq<byte>)
    requires AllValid(recs)
    ensures Walk(Body(recs) + tail) == (recs + Walk(tail).0, Walk(tail).1)
  {
    hide Next, Record;
    if recs == [] {
      assert Body(recs) + tail == tail && recs + Walk(tail).0 == Walk(tail).0;
    } else {
      var r := recs[0];
      var rest := Body(recs[1..]) + tail;
      assert Body(recs) + tail == Record(r.tag, r.value) + rest;
      RecordBack(r, rest);
      WalkBody(recs[1..], tail);
      assert [r] + (recs[1..] + Walk(tail).0) == recs + Walk(tail).0;
    }
  }

  /** A cut that leaves the terminator header in place leaves every record in place. */
  lemma {:induction false} CompleteCut(recs: seq<Rec>, cut: nat)
    requires AllValid(recs) && |Body(recs)| + 4 <= cut <= |Stream(recs)|
    ensures |Stream(recs)| == |Body(recs)| + 6
    ensures Walk(Stream(recs)[..cut]) == (recs, AtTerminator)
  {
    TerminatorBack([]);
    var n := cut - |Body(recs)|;
    var tail := Record(TERMINATOR, [])[..n];
    assert Stream(recs)[..cut] == Body(recs) + tail;
    WalkBody(recs, tail);
    CutTerminator(n);
    hide Record;
    assert recs + [] == recs;
  }

  /** A reply that is not a stream is never taken for a result. */
  lemma {:induction false} NotTlvFails(tlv: seq<byte>, decodes: bool)
    requires StatusOf(tlv) == NotTlv
    ensures Classify(tlv, decodes) == CommFailure
  {
    ParserAgrees(tlv);
  }

  lemma {:induction false} FirstFrame(frames: seq<seq<byte>>, s: seq<byte>)
    requires Carries(frames, s) && s != []
    ensures frames != [] && GwFrame(frames[0])
    ensures var b := StripGwHeader(frames[0]);
            b != [] && |b| <= |s| && b == s[..|b|] && Carries(frames[1..], s[|b|..])
  {
  }

  /** Leftover bytes of an earlier reply make the next call fail: they are too short to be a stream. */
  lemma {:induction false} LeftoverFails(s: Sys, x: seq<byte>, a: Attempt)
    requires s.session == Ready && Carries(s.queue, x) && 1 <= |x| <= 2 && a.builds
    ensures CallStep(s, a).0.session == Broken && CallStep(s, a).1 == CommFailure
  {
    FirstFrame(s.queue, x);
    var b := StripGwHeader(s.queue[0]);
    assert (s.queue + a.reply)[0] == s.queue[0];
    ShortWalk(b);
    NotTlvFails(b, a.decodes);
    hide StatusOf, Classify, StripGwHeader, ReportsItselfFinal, Carries;
  }

  lemma {:induction false} JoinStarts(frames: seq<seq<byte>>, arrived: nat)
    requires frames != []
    ensures arrived == 0 ==> JoinFrames(frames, arrived) == TimedOut(frames)
    ensures arrived > 0 ==>
              JoinFrames(frames, arrived) == JoinMore(StripGwHeader(frames[0]), frames[0], 1, frames[1..], arrived - 1)
  {
  }

  /** What is joined from a reply's own frames is a prefix of it that is not a truncated stream. */
  lemma {:induction false} JoinOwn(reply: seq<seq<byte>>, arrived: nat, whole: seq<byte>)
    requires Carries(reply, whole) && whole != []
    ensures var j := JoinFrames(reply, arrived);
            j.Joined? ==>
              && reply != [] && |StripGwHeader(reply[0])| <= |j.tlv| <= |whole| && j.tlv == whole[..|j.tlv|]
              && StatusOf(j.tlv) != Truncated && Carries(j.left, whole[|j.tlv|..])
  {
    hide *;
    FirstFrame(reply, whole);
    JoinStarts(reply, arrived);
    if arrived > 0 {
      JoinIsPrefix(whole, |StripGwHeader(reply[0])|, reply[0], 1, reply[1..], arrived - 1);
    }
  }

  lemma {:induction false} CallOnEmpty(a: Attempt)
    requires a.builds && a.sendOk && CallStep(Sys(Ready, []), a).1 != CommFailure
    ensures JoinFrames(a.reply, a.arrived).Joined?
    ensures var j := JoinFrames(a.reply, a.arrived);
            CallStep(Sys(Ready, []), a) == (Sys(Ready, j.left), Classify(j.tlv, a.decodes))
    ensures var outcome := CallStep(Sys(Ready, []), a).1;
            (outcome.Returned? || outcome.AbapError?) && outcome.tlv == JoinFrames(a.reply, a.arrived).tlv
  {
    assert [] + a.reply == a.reply;
    hide JoinFrames, Parsed;
  }

  lemma {:induction false} StreamSize(recs: seq<Rec>)
    requires AllValid(recs)
    ensures |Stream(recs)| == |Body(recs)| + 6
  {
    TerminatorBack([]);
  }

  /** With an empty queue, what a call reports is its own reply, cut no earlier than behind the
  terminator header. */
  lemma {:induction false} OwnReply(a: Attempt, recs: seq<Rec>)
    requires AllValid(recs) && Carries(a.reply, Stream(recs)) && a.builds && a.sendOk
    requires CallStep(Sys(Ready, []), a).1 != CommFailure
    ensures JoinFrames(a.reply, a.arrived).Joined?
    ensures var (s, outcome) := CallStep(Sys(Ready, []), a);
            var n := |JoinFrames(a.reply, a.arrived).tlv|;
            && |Body(recs)| + 4 <= n <= |Stream(recs)| == |Body(recs)| + 6
            && (outcome.Returned? || outcome.AbapError?) && outcome.tlv == Stream(recs)[..n]
            && s.session == Ready && s.queue == JoinFrames(a.reply, a.arrived).left && Carries(s.queue, Stream(recs)[n..])
  {
    hide *;
    CallOnEmpty(a);
    StreamSize(recs);
    JoinOwn(a.reply, a.arrived, Stream(recs));
    var tlv := JoinFrames(a.reply, a.arrived).tlv;
    if StatusOf(tlv) == NotTlv {
      NotTlvFails(tlv, a.decodes);
    }
    PrefixStatus(recs, |tlv|);
  }

  /** The queue between calls: at most the last two bytes of an answered reply. */
  ghost predicate Clean(s: Sys) {
    s.session != Broken ==> exists x: seq<byte> :: |x| <= 2 && Carries(s.queue, x)
  }

  /** One call: it reports its own reply or nothing, and it leaves the connection clean or broken. */
  lemma {:induction false} CallIsSafe(s: Sys, a: Attempt, recs: seq<Rec>)
    requires Clean(s) && AllValid(recs) && Carries(a.reply, Stream(recs))
    ensures var (s', outcome) := CallStep(s, a);
            && Clean(s')
            && (outcome.Returned? || outcome.AbapError? ==> Walk(outcome.tlv) == (recs, AtTerminator) && s'.session == Ready)
            && (outcome.CommFailure? ==> s'.session == Broken)
            && (outcome.Refused? || outcome.LocalError? ==> s' == s)
            && (s.session == Broken ==> outcome == Refused)
  {
    var (s', outcome) := CallStep(s, a);
    hide Walk, StatusOf, Stream, Body, Classify, JoinFrames, Carries;
    if s.session == Ready && a.builds && a.sendOk && outcome != CommFailure {
      var x :| |x| <= 2 && Carries(s.queue, x);
      if x != [] {
        LeftoverFails(s, x, a);
      } else {
        CarriesNothing(s.queue);
        OwnReply(a, recs);
        CompleteCut(recs, |JoinFrames(a.reply, a.arrived).tlv|);
        assert [] + a.reply == a.reply;
      }
    }
  }

  lemma {:induction false} CarriesNothing(frames: seq<seq<byte>>)
    requires Carries(frames, [])
    ensures frames == []
  {
  }

  // ----- whole runs -----

  /** A call answered with the records `recs`, or a caller touching the session's call marks. */
  datatype Event = Call(a: Attempt, recs: seq<Rec>) | Mark(op: Op)

  ghost predicate EventOk(e: Event) {
    match e
    case Call(a, recs) => AllValid(recs) && Carries(a.reply, Stream(recs))
    case Mark(op) => op in {MarkInCall, MarkReady, MarkBroken}
  }

  function Step(s: Sys, e: Event): (Sys, Outcome) {
    match e
    case Call(a, recs) => CallStep(s, a)
    case Mark(op) => (s.(session := Apply(s.session, op)), Refused)
  }

  function RunCalls(s: Sys, events: seq<Event>): (Sys, seq<Outcome>)
    decreases |events|
  {
    if events == [] then (s, [])
    else
      var (s1, outcome) := Step(s, events[0]);
      var (end, more) := RunCalls(s1, events[1..]);
      (end, [outcome] + more)
  }

  lemma {:induction false} StepIsSafe(s: Sys, e: Event)
    requires Clean(s) && EventOk(e)
    ensures var (s', outcome) := Step(s, e);
            && Clean(s')
            && (outcome.Returned? || outcome.AbapError? ==> e.Call? && Walk(outcome.tlv) == (e.recs, AtTerminator))
            && (outcome.CommFailure? ==> s'.session == Broken)
            && (s.session == Broken ==> outcome == Refused && s'.session == Broken)
  {
    hide Walk;
    match e
    case Call(a, recs) => CallIsSafe(s, a, recs);
    case Mark(op) =>
  }

  lemma {:induction false} BrokenForGood(s: Sys, events: seq<Event>)
    requires s.session == Broken && Clean(s) && forall k :: 0 <= k < |events| ==> EventOk(events[k])
    ensures var (end, outcomes) := RunCalls(s, events);
            |outcomes| == |events| && end.session == Broken && forall k :: 0 <= k < |events| ==> outcomes[k] == Refused
    decreases |events|
  {
    hide Clean, EventOk, Step;
    if events != [] {
      StepIsSafe(s, events[0]);
      BrokenForGood(Step(s, events[0]).0, events[1..]);
    }
  }

  lemma {:induction false} RunIsPaired(s: Sys, events: seq<Event>)
    requires Clean(s) && forall k :: 0 <= k < |events| ==> EventOk(events[k])
    ensures var (end, outcomes) := RunCalls(s, events);
            && |outcomes| == |events|
            && (forall k :: 0 <= k < |events| && (outcomes[k].Returned? || outcomes[k].AbapError?) ==>
                  events[k].Call? && Walk(outcomes[k].tlv) == (events[k].recs, AtTerminator))
            && (forall k, m :: 0 <= k < m < |events| && outcomes[k].CommFailure? ==> outcomes[m] == Refused)
            && ((exists k :: 0 <= k < |events| && outcomes[k].CommFailure?) ==> end.session == Broken)
    decreases |events|
  {
    hide Clean, EventOk, Step, Walk;
    if events != [] {
      var (s1, outcome) := Step(s, events[0]);
      StepIsSafe(s, events[0]);
      RunIsPaired(s1, events[1..]);
      if outcome.CommFailure? {
        BrokenForGood(s1, events[1..]);
      }
      var outcomes := RunCalls(s, events).1;
      assert outcomes[1..] == RunCalls(s1, events[1..]).1;
      forall k | 0 <= k < |events| && (outcomes[k].Returned? || outcomes[k].AbapError?)
        ensures events[k].Call? && Walk(outcomes[k].tlv) == (events[k].recs, AtTerminator)
      {
        if k > 0 {
          assert outcomes[k] == outcomes[1..][k - 1] && events[k] == events[1..][k - 1];
        }
      }
      forall k, m | 0 <= k < m < |events| && outcomes[k].CommFailure?
        ensures outcomes[m] == Refused
      {
        assert outcomes[m] == outcomes[1..][m - 1];
        if k > 0 {
          assert outcomes[k] == outcomes[1..][k - 1];
        }
      }
      if k :| 0 <= k < |events| && outcomes[k].CommFailure? {
        if k > 0 {
          assert outcomes[1..][k - 1].CommFailure?;
        }
      }
    }
  }

  /** A fresh, ready connection is clean. */
  lemma {:induction false} FreshIsClean()
    ensures Clean(Sys(Ready, []))
  {
    assert Carries([], []);
  }

  /** Over every run of a fresh connection, however replies are cut into frames and whatever fails: a
  call that reports a result or an ABAP error reports the records of its own reply; a call that fails
  in any other way leaves the session broken, and from then on every call is refused. */
  lemma {:induction false} CallsArePaired(events: seq<Event>)
    requires forall k :: 0 <= k < |events| ==> EventOk(events[k])
    ensures var (end, outcomes) := RunCalls(Sys(Ready, []), events);
            && |outcomes| == |events|
            && (forall k :: 0 <= k < |events| && (outcomes[k].Returned? || outcomes[k].AbapError?) ==>
                  events[k].Call? && Walk(outcomes[k].tlv) == (events[k].recs, AtTerminator))
            && (forall k, m :: 0 <= k < m < |events| && outcomes[k].CommFailure? ==> outcomes[m] == Refused)
            && ((exists k :: 0 <= k < |events| && outcomes[k].CommFailure?) ==> end.session == Broken)
  {
    hide *;
    FreshIsClean();
    RunIsPaired(Sys(Ready, []), events);
  }

  // ----- when the connection stays in step -----

  /** After a reported reply the queue is empty exactly when no frame ends inside the terminator's
  repeated tag, the last two bytes of the reply. */
  lemma {:induction false} InStepIff(a: Attempt, recs: seq<Rec>)
    requires AllValid(recs) && Carries(a.reply, Stream(recs)) && a.builds && a.sendOk
    requires CallStep(Sys(Ready, []), a).1 != CommFailure
    ensures CallStep(Sys(Ready, []), a).0.queue == [] <==>
              !EndsAt(a.reply, |Body(recs)| + 4) && !EndsAt(a.reply, |Body(recs)| + 5)
  {
    hide *;
    OwnReply(a, recs);
    var j := JoinFrames(a.reply, a.arrived);
    JoinBoundary(a.reply, a.arrived, Stream(recs), |Body(recs)| + 4);
    JoinBoundary(a.reply, a.arrived, Stream(recs), |Body(recs)| + 5);
    PrefixStatus(recs, |Body(recs)| + 4);
    PrefixStatus(recs, |Body(recs)| + 5);
    LeftIsEmpty(j.left, Stream(recs)[|j.tlv|..]);
  }

  /** Joining a reply stops at a frame boundary, the first one where the stream is not truncated. */
  lemma {:induction false} JoinBoundary(reply: seq<seq<byte>>, arrived: nat, whole: seq<byte>, n: nat)
    requires Carries(reply, whole) && whole != [] && JoinFrames(reply, arrived).Joined? && 0 < n <= |whole|
    ensures var tlv := JoinFrames(reply, arrived).tlv;
            && 0 < |tlv| <= |whole| && EndsAt(reply, |tlv|)
            && (n < |tlv| && EndsAt(reply, n) ==> StatusOf(whole[..n]) == Truncated)
  {
    hide *;
    FirstFrame(reply, whole);
    JoinStarts(reply, arrived);
    var b := StripGwHeader(reply[0]);
    JoinStopsFirst(whole, |b|, reply[0], 1, reply[1..], arrived - 1, n);
    EndsAtStep(reply, |JoinFrames(reply, arrived).tlv|, b);
    EndsAtStep(reply, n, b);
  }

  lemma {:induction false} LeftIsEmpty(frames: seq<seq<byte>>, s: seq<byte>)
    requires Carries(frames, s)
    ensures frames == [] <==> s == []
  {
  }

  lemma {:induction false} EndsAtStep(frames: seq<seq<byte>>, n: nat, b: seq<byte>)
    requires frames != [] && GwFrame(frames[0]) && b == StripGwHeader(frames[0]) && n > 0
    ensures EndsAt(frames, n) <==> |b| <= n && EndsAt(frames[1..], n - |b|)
  {
  }

  /** Out of step: a reply with a frame that ends inside the terminator's repeated tag is reported, and
  then the next call, whatever it is answered with, fails and retires the session. */
  lemma {:induction false} SplitTerminatorCostsTheNextCall(a: Attempt, recs: seq<Rec>, b: Attempt)
    requires AllValid(recs) && Carries(a.reply, Stream(recs)) && a.builds && a.sendOk && b.builds
    requires CallStep(Sys(Ready, []), a).1 != CommFailure
    requires EndsAt(a.reply, |Body(recs)| + 4) || EndsAt(a.reply, |Body(recs)| + 5)
    ensures var s := CallStep(Sys(Ready, []), a).0;
            s.session == Ready && CallStep(s, b) == (Sys(Broken, CallStep(s, b).0.queue), CommFailure)
  {
    hide *;
    InStepIff(a, recs);
    OwnReply(a, recs);
    var s := CallStep(Sys(Ready, []), a).0;
    var n := |JoinFrames(a.reply, a.arrived).tlv|;
    var x := Stream(recs)[n..];
    LeftIsEmpty(s.queue, x);
    LeftoverFails(s, x, b);
  }

  /** An empty result: the start of the response and return code 0. */
  const EMPTY_RESULT: seq<Rec> := [Rec(0x0500, []), Rec(TAG_RETURN_CODE, [0, 0, 0, 0])]

  lemma {:induction false} EmptyResultPasses(tlv: seq<byte>)
    requires Walk(tlv) == (EMPTY_RESULT, AtTerminator) && tlv != [] && tlv[0] == 0x05
    ensures Classify(tlv, true) == Returned(tlv)
  {
    TagsPut(EMPTY_RESULT, TAG_RETURN_CODE, 1);
    TagsAbsent(EMPTY_RESULT, TAG_EXCEPTION_NUMBER);
    ZeroCode([0, 0, 0, 0]);
    hide Walk, Tags, BigEndian;
  }

  /** Such a run: a two-frame reply cut two bytes before its end. The first frame is reported; the
  second stays queued and costs the next call, though that is answered in full. */
  lemma {:induction false} CutTwoBytesEarly()
    ensures AllValid(EMPTY_RESULT)
    ensures
      var reply := Stream(EMPTY_RESULT);
      var n := |reply| - 2;
      && n >= 0
      && var a := Attempt(true, true, [Framed(reply[..n]), Framed(reply[n..])], 2, true);
      var b := Attempt(true, true, [Framed(reply)], 2, true);
      var (s, first) := CallStep(Sys(Ready, []), a);
      && first == Returned(reply[..n]) && s == Sys(Ready, [Framed(reply[n..])])
      && CallStep(s, b) == (Sys(Broken, [Framed(reply)]), CommFailure)
  {
    assert AllValid(EMPTY_RESULT);
    StreamSize(EMPTY_RESULT);
    var reply := Stream(EMPTY_RESULT);
    var n := |reply| - 2;
    CompleteCut(EMPTY_RESULT, n);
    StreamStarts(EMPTY_RESULT);
    assert reply[..n][0] == 0x05;
    EmptyResultPasses(reply[..n]);
    ShortWalk(reply[n..]);
    NotTlvFails(reply[n..], true);
    FramedBack(reply[..n]);
    FramedBack(reply[n..]);
    hide Walk, Classify, Framed, Stream, Body, AllValid, StripGwHeader;
    var a := Attempt(true, true, [Framed(reply[..n]), Framed(reply[n..])], 2, true);
    var b := Attempt(true, true, [Framed(reply)], 2, true);
    assert [] + a.reply == a.reply && a.reply[1..] == [Framed(reply[n..])];
    assert JoinFrames(a.reply, 2) == Joined(reply[..n], [Framed(reply[n..])]);
    var left := [Framed(reply[n..])] + b.reply;
    assert left[1..] == b.reply;
    assert JoinFrames(left, 2) == Joined(reply[n..], b.reply);
  }

}
