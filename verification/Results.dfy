/** What a caller gets: the handler's result, through the server's response, any cut into frames and
the client's call (server.py, connection.py, invoke.py). */
module Results {
  import opened Bits
  import opened Tlv
  import opened Leaves
  import opened Pairs
  import opened Messages
  import opened Sessions
  import opened Frames
  import opened Calls
  import Replies

  /** The records of the response to a handler's result. */
  function ResponseRecords(params: seq<Param>, args: Args): seq<Rec>
    requires Built(SERVER, params, args, |params|).Ok?
  {
    ResponseHead() + Built(SERVER, params, args, |params|).value.recs
  }

  lemma {:induction false} ResponseStream(params: seq<Param>, args: Args)
    requires BuildResponse(params, args).Ok?
    ensures Built(SERVER, params, args, |params|).Ok?
    ensures
      var recs := ResponseRecords(params, args);
      && AllValid(recs) && BuildResponse(params, args).value == Stream(recs)
      && recs != [] && recs[0] == Rec(TAG_RESPONSE_START, [])
  {
    hide Built, AllValid, Stream;
  }

  /** Bytes a call reports as a result are parsed like the whole response when they hold its records. */
  lemma {:induction false} ParsedAlike(tlv: seq<byte>, params: seq<Param>, args: Args, dm: map<nat, Name>, unpack: Unpacker)
    requires GoodParams(params) && ArgsFit(params, args) && BuildResponse(params, args).Ok?
    requires Built(SERVER, params, args, |params|).Ok?
    requires Walk(tlv) == (ResponseRecords(params, args), AtTerminator) && Classify(tlv, true).Returned?
    ensures ParseResponse(tlv, params, dm, unpack) == Ok(NormalArgs(SERVER, params, args, |params|))
  {
    var recs := ResponseRecords(params, args);
    ResponseStream(params, args);
    ResponseBack(params, args, dm, unpack);
    StreamBack(recs, []);
    assert Stream(recs) + [] == Stream(recs);
    hide *;
    ParsedByRecords(tlv, Stream(recs), params, dm, unpack);
  }

  lemma {:induction false} ParsedByRecords(a: seq<byte>, b: seq<byte>, params: seq<Param>, dm: map<nat, Name>, unpack: Unpacker)
    requires Walk(a) == Walk(b) && Classify(a, true).Returned? && ParseResponse(b, params, dm, unpack).Ok?
    ensures ParseResponse(a, params, dm, unpack) == ParseResponse(b, params, dm, unpack)
  {
    hide Walk, Classify, Fed, Finish, Collected;
  }

  /** A call answered with the server's response: it returns exactly when the first record header comes
      in one piece and the rest of the response in time, and then it returns the handler's result. */
  lemma {:induction false} CallReturnsResult(a: Attempt, params: seq<Param>, args: Args, dm: map<nat, Name>, unpack: Unpacker)
    requires GoodParams(params) && ArgsFit(params, args) && BuildResponse(params, args).Ok?
    requires Frames.Carries(a.reply, BuildResponse(params, args).value) && a.builds && a.sendOk
    requires
      var j := JoinFrames(a.reply, a.arrived);
      j.Joined? ==> (a.decodes <==> ParseResponse(j.tlv, params, dm, unpack).Ok?)
    ensures Built(SERVER, params, args, |params|).Ok?
    ensures
      var (s, outcome) := CallStep(Sys(Ready, []), a);
      && (outcome.Returned? <==> HeaderWhole(a.reply) && JoinFrames(a.reply, a.arrived).Joined?)
      && (outcome.Returned? ==>
            ParseResponse(outcome.tlv, params, dm, unpack) == Ok(NormalArgs(SERVER, params, args, |params|)))
      && (!outcome.Returned? ==> outcome == CommFailure && s.session == Broken)
  {
    ResponseStream(params, args);
    hide *;
    var recs := ResponseRecords(params, args);
    var j := JoinFrames(a.reply, a.arrived);
    StepOnEmpty(a);
    JoinOwnResponse(a, recs);
    if j.Joined? {
      if HeaderWhole(a.reply) {
        CompleteReads(params, args, j.tlv);
        ParsedAlike(j.tlv, params, args, dm, unpack);
      } else {
        NotTlvFails(j.tlv, a.decodes);
      }
    }
  }

  lemma {:induction false} StepOnEmpty(a: Attempt)
    requires a.builds && a.sendOk
    ensures
      var j, r := JoinFrames(a.reply, a.arrived), CallStep(Sys(Ready, []), a);
      && (!j.Joined? ==> r.1 == CommFailure && r.0.session == Broken)
      && (j.Joined? ==> r.1 == Classify(j.tlv, a.decodes) && (r.1 == CommFailure ==> r.0.session == Broken))
  {
    hide JoinFrames, Classify;
    assert [] + a.reply == a.reply;
  }

  /** What is joined from a response: all its records, or a piece too short for any. */
  lemma {:induction false} JoinOwnResponse(a: Attempt, recs: seq<Rec>)
    requires AllValid(recs) && recs != [] && recs[0] == Rec(TAG_RESPONSE_START, [])
    requires Frames.Carries(a.reply, Stream(recs))
    ensures
      var j := JoinFrames(a.reply, a.arrived);
      j.Joined? ==>
        if HeaderWhole(a.reply) then Walk(j.tlv) == (recs, AtTerminator) && j.tlv != [] && j.tlv[0] == 0x05
        else StatusOf(j.tlv) == NotTlv
  {
    StreamStarts(recs);
    hide Frames.Carries, JoinFrames, Walk, Stream, AllValid;
    var whole := Stream(recs);
    var j := JoinFrames(a.reply, a.arrived);
    FirstFrame(a.reply, whole);
    JoinOwn(a.reply, a.arrived, whole);
    if j.Joined? {
      PrefixStatus(recs, |j.tlv|);
      if HeaderWhole(a.reply) {
        CompleteCut(recs, |j.tlv|);
        assert j.tlv[0] == whole[..|j.tlv|][0];
      } else {
        ShortPieceJoined(a.reply, a.arrived);
      }
    }
  }

  lemma {:induction false} CompleteReads(params: seq<Param>, args: Args, tlv: seq<byte>)
    requires Built(SERVER, params, args, |params|).Ok?
    requires Walk(tlv) == (ResponseRecords(params, args), AtTerminator) && tlv != [] && tlv[0] == 0x05
    ensures Classify(tlv, true) == Returned(tlv)
  {
    BuiltTags(SERVER, params, args, |params|);
    hide Built, AllGroupTags, Harmless;
    GroupsHarmless(Built(SERVER, params, args, |params|).value.recs);
    RecordsPass(Built(SERVER, params, args, |params|).value.recs, tlv);
  }

  // ----- over whole runs -----

  lemma {:induction false} ReportedReads(s: Sys, events: seq<Event>, k: nat)
    requires k < |events|
    ensures |RunCalls(s, events).1| == |events|
    ensures
      var outcome := RunCalls(s, events).1[k];
      outcome.Returned? ==> Classify(outcome.tlv, true).Returned?
    decreases |events|
  {
    hide JoinFrames, Replies.Raised, Apply;
    if k == 0 {
      assert RunCalls(s, events).1[0] == Calls.Step(s, events[0]).1;
      RunLength(Calls.Step(s, events[0]).0, events[1..]);
    } else {
      ReportedReads(Calls.Step(s, events[0]).0, events[1..], k - 1);
    }
  }

  lemma {:induction false} RunLength(s: Sys, events: seq<Event>)
    ensures |RunCalls(s, events).1| == |events|
    decreases |events|
  {
    hide Calls.Step;
    if events != [] {
      RunLength(Calls.Step(s, events[0]).0, events[1..]);
    }
  }

  /** Over every run of a fresh connection: when call k was answered with the response to a handler's
      result and returns, what it returns is that result in normal form, whatever came before. */
  lemma {:induction false} RunReturnsResults(events: seq<Event>, k: nat, params: seq<Param>, args: Args, dm: map<nat, Name>, unpack: Unpacker)
    requires k < |events| && forall i :: 0 <= i < |events| ==> EventOk(events[i])
    requires GoodParams(params) && ArgsFit(params, args) && BuildResponse(params, args).Ok?
    requires Built(SERVER, params, args, |params|).Ok?
    requires events[k].Call? && events[k].recs == ResponseRecords(params, args)
    ensures |RunCalls(Sys(Ready, []), events).1| == |events|
    ensures
      var outcome := RunCalls(Sys(Ready, []), events).1[k];
      outcome.Returned? ==>
        ParseResponse(outcome.tlv, params, dm, unpack) == Ok(NormalArgs(SERVER, params, args, |params|))
  {
    hide *;
    ReportedReads(Sys(Ready, []), events, k);
    CallsArePaired(events);
    var outcome := RunCalls(Sys(Ready, []), events).1[k];
    if outcome.Returned? {
      ParsedAlike(outcome.tlv, params, args, dm, unpack);
    }
  }
}
