/** Transactional calls: the client's retry loop (connection.py) against the server's duplicate check
    (server.py, stores.py) over a channel that may lose any request and any reply. */
module Trfc {
  import opened Bits
  import opened Words
  import opened Tlv
  import opened Leaves
  import opened Pairs
  import opened Frames
  import opened Replies
  import Calls
  import Messages

  // ---- the frame ----

  function Units(s: string): (n: Name)
    ensures |n| == |s|
  {
    seq(|s|, i requires 0 <= i < |s| => s[i] as nat)
  }

  const ARFCTID: string := "ARFCTID"
  const ARFCFNAM: string := "ARFCFNAM"
  const ARFCQUEUE: string := "ARFCQUEUE"
  const ARFC_DEST_SHIP: string := "ARFC_DEST_SHIP"

  const TID_LENGTH: nat := 24

  predicate TidUnit(u: nat) {
    0x41 <= u <= 0x5A || 0x30 <= u <= 0x39 || u == 0x2F || u == 0x5F || u == 0x3D || u == 0x40 || u == 0x2D
  }

  predicate ValidTid(tid: Name) {
    |tid| == TID_LENGTH && forall i :: 0 <= i < |tid| ==> TidUnit(tid[i])
  }

  datatype Ship = Ship(tid: Name, function_: Name, queue: Option<Name>)

  /** The named values of the frame, in order. */
  function Fields(ship: Ship): seq<Pair>
    requires IsText(ship.tid) && IsText(ship.function_) && (ship.queue.Some? ==> IsText(ship.queue.value))
  {
    [Pair(Units(ARFCTID), Utf16(ship.tid)), Pair(Units(ARFCFNAM), Utf16(ship.function_))] +
    if ship.queue.Some? then [Pair(Units(ARFCQUEUE), Utf16(ship.queue.value))] else []
  }

  predicate AllText(fields: seq<Pair>) {
    forall i :: 0 <= i < |fields| ==> IsText(fields[i].name)
  }

  function ScalarRecords(fields: seq<Pair>): seq<Rec>
    requires AllText(fields)
  {
    if fields == [] then []
    else
      var n := |fields| - 1;
      ScalarRecords(fields[..n]) + ScalarGroup(fields[n].name, fields[n].value)
  }

  function FrameHead(version: seq<byte>, system: Name): seq<Rec>
    requires IsText(system)
  {
    [Rec(Messages.TAG_CALL_START, []), Rec(Messages.TAG_RFC_VERSION, version),
     Rec(Messages.TAG_FUNC_NAME, Utf16(system)), Rec(Messages.TAG_PARAM_SECTION, [])]
  }

  /** A frame of named values for one of the system's own functions. */
  function SystemFrame(version: seq<byte>, system: Name, fields: seq<Pair>): Result<seq<byte>>
    requires IsText(system) && AllText(fields)
  {
    Messages.Serialised(FrameHead(version, system) + ScalarRecords(fields))
  }

  lemma {:induction false} GoodConstant(s: string)
    requires s != "" && s[|s| - 1] != ' ' && forall i :: 0 <= i < |s| ==> '\0' < s[i] < (127 as char)
    ensures GoodName(Units(s)) && IsText(Units(s))
  {
    var n := Units(s);
    assert forall i :: 0 <= i < |n| ==> n[i] == s[i] as nat && 0 < n[i] < 128;
  }

  lemma {:induction false} ParamNames()
    ensures GoodName(Units(ARFCTID)) && GoodName(Units(ARFCFNAM)) && GoodName(Units(ARFCQUEUE))
    ensures IsText(Units(ARFCTID)) && IsText(Units(ARFCFNAM)) && IsText(Units(ARFCQUEUE)) && IsText(Units(ARFC_DEST_SHIP))
  {
    hide GoodName, IsText;
    GoodConstant(ARFCTID);
    GoodConstant(ARFCFNAM);
    GoodConstant(ARFCQUEUE);
    GoodConstant(ARFC_DEST_SHIP);
  }

  function BuildTrfcRequest(version: seq<byte>, ship: Ship): Result<seq<byte>> {
    if !ValidTid(ship.tid) then Err("ValueError")
    else if ship.queue.Some? && !(0 < |ship.queue.value| <= 256) then Err("ValueError")
    else if !(IsText(ship.tid) && IsText(ship.function_) && (ship.queue.Some? ==> IsText(ship.queue.value))) then
      Err("UnicodeEncodeError")
    else
      ParamNames();
      SystemFrame(version, Units(ARFC_DEST_SHIP), Fields(ship))
  }

  /** The first value under a name, without regard to case. */
  function FirstNamed(pairs: seq<Pair>, key: Name): Option<seq<byte>> {
    if pairs == [] then None
    else if Upper(pairs[0].name) == key then Some(pairs[0].value)
    else FirstNamed(pairs[1..], key)
  }

  /** _extract_param_from_frame without the compact block: "" when the name is absent. */
  function TextParam(frame: seq<byte>, key: Name, unpack: Unpacker): Result<Name> {
    match Extracted(frame, map[], unpack)
    case Err(e) => Err(e)
    case Ok(w) =>
      match FirstNamed(w.pairs, key)
      case None => Ok([])
      case Some(value) => Ok(DecodeName(value))
  }

  lemma {:induction false} ScalarsFed(w: Walker, fields: seq<Pair>, unpack: Unpacker)
    requires Clean(w) && AllText(fields) && forall i :: 0 <= i < |fields| ==> GoodName(fields[i].name)
    ensures
      var r := Fed(w, ScalarRecords(fields), map[], unpack);
      r.Ok? && Clean(r.value) && Settled(r.value) == Settled(w) + fields
  {
    hide GoodName, IsText, Clean, Settled, Fed, ScalarGroup;
    if fields == [] {
      Messages.FedNone(w, map[], unpack);
      assert Settled(w) + fields == Settled(w);
    } else {
      var n := |fields| - 1;
      ScalarsFed(w, fields[..n], unpack);
      var mid := Fed(w, ScalarRecords(fields[..n]), map[], unpack).value;
      ScalarFed(mid, fields[n].name, fields[n].value, map[], unpack);
      FedAppend(w, ScalarRecords(fields[..n]), ScalarGroup(fields[n].name, fields[n].value), map[], unpack);
      assert fields == fields[..n] + [Pair(fields[n].name, fields[n].value)];
      assert Settled(w) + fields[..n] + [Pair(fields[n].name, fields[n].value)] == Settled(w) + fields;
    }
  }

  /** The values of a system frame come out as they went in. */
  lemma {:induction false} SystemFrameBack(version: seq<byte>, system: Name, fields: seq<Pair>, unpack: Unpacker)
    requires IsText(system) && AllText(fields) && forall i :: 0 <= i < |fields| ==> GoodName(fields[i].name)
    requires SystemFrame(version, system, fields).Ok?
    ensures
      var r := Extracted(SystemFrame(version, system, fields).value, map[], unpack);
      r.Ok? && r.value.pairs == fields
  {
    hide GoodName, IsText, Clean, Settled, Fed, Finish, Stream, Walk, AllValid, ScalarRecords;
    var head, recs := FrameHead(version, system), ScalarRecords(fields);
    StreamBack(head + recs, []);
    assert Stream(head + recs) + [] == Stream(head + recs);
    Messages.StartClean();
    SilentFed(START, head, map[], unpack);
    FedAppend(START, head, recs, map[], unpack);
    ScalarsFed(START, fields, unpack);
    Messages.Settles(Fed(START, recs, map[], unpack).value, unpack);
    assert [] + fields == fields;
  }

  lemma {:induction false} TidIsGood(tid: Name)
    requires ValidTid(tid)
    ensures GoodName(tid) && IsText(tid)
  {
  }

  lemma {:induction false} UpperConstants()
    ensures Upper(Units(ARFCTID)) == Units(ARFCTID) && Upper(Units(ARFCFNAM)) == Units(ARFCFNAM)
    ensures Units(ARFCTID) != Units(ARFCFNAM)
  {
    assert |Units(ARFCTID)| != |Units(ARFCFNAM)|;
    assert forall i :: 0 <= i < |ARFCTID| ==> UpperUnit(ARFCTID[i] as nat) == ARFCTID[i] as nat;
    assert forall i :: 0 <= i < |ARFCFNAM| ==> UpperUnit(ARFCFNAM[i] as nat) == ARFCFNAM[i] as nat;
  }

  /** The server reads the TID the client submitted, and the function too, except that a NUL or a blank
      at the end of its name is lost. */
  lemma {:induction false} FrameBack(version: seq<byte>, ship: Ship, unpack: Unpacker)
    requires BuildTrfcRequest(version, ship).Ok?
    ensures
      var frame := BuildTrfcRequest(version, ship).value;
      && TextParam(frame, Units(ARFCTID), unpack) == Ok(ship.tid)
      && var f := ship.function_;
      TextParam(frame, Units(ARFCFNAM), unpack) == Ok(f) <==> f == [] || (f[|f| - 1] != 0 && f[|f| - 1] != BLANK)
  {
    hide GoodName, IsText, ValidTid, SystemFrame, Extracted, Units, Upper, DecodeName, Utf16;
    ParamNames();
    UpperConstants();
    TidIsGood(ship.tid);
    NameBack(ship.tid);
    TextNameBack(ship.function_);
    SystemFrameBack(version, Units(ARFC_DEST_SHIP), Fields(ship), unpack);
    var fields := Fields(ship);
    assert fields[1..][0] == fields[1];
    assert FirstNamed(fields[1..], Units(ARFCFNAM)) == Some(Utf16(ship.function_));
  }

  // ---- the server ----

  datatype TidState = Received | Executed | RolledBack

  /** One run of an application handler, and whether it came through. */
  datatype Entry = Entry(tid: Name, ok: bool)

  datatype Reply = RcOk | RcExecuted | RcFailure

  /** What running this delivery would lead to: the handler succeeds or raises, there is none, or the
      request cannot be decoded, which ends the dispatch without a reply. */
  datatype Outcome = Succeeds | Fails | NoHandler | Garbled

  datatype Server = Server(store: map<Name, TidState>, runs: seq<Entry>)

  const FRESH := Server(map[], [])

  predicate IsExecuted(s: Server, tid: Name) {
    tid in s.store && s.store[tid] == Executed
  }

  function Mark(s: Server, tid: Name, state: TidState): Server {
    s.(store := s.store[tid := state])
  }

  /** Dispatching one delivery for a TID: the next state and the reply, if one is sent. */
  function Handle(s: Server, tid: Name, o: Outcome): (r: (Server, Option<Reply>)) {
    if !ValidTid(tid) then (s, Some(RcFailure))
    else if IsExecuted(s, tid) then (s, Some(RcExecuted))
    else
      match o
      case NoHandler => (Mark(s, tid, RolledBack), Some(RcFailure))
      case Garbled => (Mark(s, tid, Received), None)
      case Fails => (Mark(s, tid, RolledBack).(runs := s.runs + [Entry(tid, false)]), Some(RcFailure))
      case Succeeds => (Mark(s, tid, Executed).(runs := s.runs + [Entry(tid, true)]), Some(RcOk))
  }

  /** The same for a frame: a frame that cannot be walked ends the dispatch at once. */
  function Deliver(s: Server, frame: seq<byte>, o: Outcome, unpack: Unpacker): (r: (Server, Option<Reply>)) {
    match TextParam(frame, Units(ARFCTID), unpack)
    case Err(_) => (s, None)
    case Ok(tid) => Handle(s, tid, o)
  }

  datatype Delivery = Delivery(frame: seq<byte>, outcome: Outcome)

  /** Any deliveries, from any clients, in any order. */
  function After(s: Server, ds: seq<Delivery>, unpack: Unpacker): Server {
    if ds == [] then s
    else
      var n := |ds| - 1;
      Deliver(After(s, ds[..n], unpack), ds[n].frame, ds[n].outcome, unpack).0
  }

  function Successes(runs: seq<Entry>, tid: Name): nat {
    if runs == [] then 0
    else
      var n := |runs| - 1;
      Successes(runs[..n], tid) + if runs[n] == Entry(tid, true) then 1 else 0
  }

  /** A TID stands as executed exactly when its handler has succeeded, and that is at most once. */
  predicate Tracked(s: Server, tid: Name) {
    Successes(s.runs, tid) == if IsExecuted(s, tid) then 1 else 0
  }

  lemma {:induction false} SuccessesNext(runs: seq<Entry>, e: Entry, tid: Name)
    ensures Successes(runs + [e], tid) == Successes(runs, tid) + if e == Entry(tid, true) then 1 else 0
  {
    assert (runs + [e])[..|runs|] == runs;
  }

  lemma {:induction false} HandleTracked(s: Server, own: Name, o: Outcome, tid: Name)
    requires Tracked(s, tid)
    ensures Tracked(Handle(s, own, o).0, tid)
  {
    SuccessesNext(s.runs, Entry(own, true), tid);
    SuccessesNext(s.runs, Entry(own, false), tid);
    hide Successes, ValidTid;
  }

  /** Over all deliveries and re-deliveries a handler succeeds at most once for each TID. */
  lemma {:induction false} AtMostOnce(ds: seq<Delivery>, unpack: Unpacker, tid: Name)
    ensures Tracked(After(FRESH, ds, unpack), tid) && Successes(After(FRESH, ds, unpack).runs, tid) <= 1
  {
    if ds != [] {
      hide Handle, TextParam, Tracked;
      var n := |ds| - 1;
      AtMostOnce(ds[..n], unpack, tid);
      DeliverTracked(After(FRESH, ds[..n], unpack), ds[n], unpack, tid);
      TrackedOnce(After(FRESH, ds, unpack), tid);
    }
  }

  lemma {:induction false} DeliverTracked(s: Server, d: Delivery, unpack: Unpacker, tid: Name)
    requires Tracked(s, tid)
    ensures Tracked(Deliver(s, d.frame, d.outcome, unpack).0, tid)
  {
    hide Handle, TextParam, Tracked;
    match TextParam(d.frame, Units(ARFCTID), unpack)
    case Err(_) =>
    case Ok(own) => HandleTracked(s, own, d.outcome, tid);
  }

  lemma {:induction false} TrackedOnce(s: Server, tid: Name)
    requires Tracked(s, tid)
    ensures Successes(s.runs, tid) <= 1
  {
  }

  lemma {:induction false} AfterTracked(s: Server, ds: seq<Delivery>, unpack: Unpacker, tid: Name)
    requires Tracked(s, tid)
    ensures Tracked(After(s, ds, unpack), tid)
  {
    if ds != [] {
      hide Handle, TextParam, Tracked, Deliver;
      var n := |ds| - 1;
      AfterTracked(s, ds[..n], unpack, tid);
      DeliverTracked(After(s, ds[..n], unpack), ds[n], unpack, tid);
    }
  }

  // ---- what the client makes of a reply ----

  const TAG_ERROR_MESSAGE: nat := 0x0402

  function CodeOf(r: Reply): nat {
    match r
    case RcOk => 0
    case RcFailure => 3
    case RcExecuted => 16
  }

  /** The records of a reply; only a failure carries a message, of less than 4 GiB. */
  function ReplyRecords(r: Reply, message: seq<byte>): seq<Rec> {
    [Rec(Messages.TAG_RESPONSE_START, []), Rec(TAG_RETURN_CODE, BigEndianBytes(CodeOf(r), 4))] +
    if r.RcFailure? then [Rec(TAG_ERROR_MESSAGE, message)] else []
  }

  lemma {:induction false} ReplyTags(r: Reply, message: seq<byte>)
    requires |message| < 0x1_0000_0000
    ensures AllValid(ReplyRecords(r, message))
    ensures
      var tags := Tags(ReplyRecords(r, message));
      && TAG_EXCEPTION_NUMBER !in tags && TAG_RETURN_CODE in tags
      && tags[TAG_RETURN_CODE] == BigEndianBytes(CodeOf(r), 4)
  {
    hide Tags, BigEndianBytes;
    TagsPut(ReplyRecords(r, message), TAG_RETURN_CODE, 1);
    TagsAbsent(ReplyRecords(r, message), TAG_EXCEPTION_NUMBER);
  }

  // ---- how a reply reads ----

  /** What one attempt's receive calls and the error check make of the frames that come: nothing to
      complain of, a communication error, an ABAP error, or a reply that raises a ValueError. */
  datatype Reading = Normal | CommError | AbapError | Unreadable

  function ReadReply(back: seq<seq<byte>>, arrived: nat): Reading {
    match JoinFrames(back, arrived)
    case TimedOut(_) => CommError
    case Malformed(_) => Unreadable
    case Joined(tlv, _) =>
      match Raised(StripGwHeader(tlv))
      case Passes => Normal
      case NoAnswer => CommError
      case AbapRefusal => AbapError
      case BadCode => Unreadable
  }

  lemma {:induction false} RaisedForReply(r: Reply, message: seq<byte>, tlv: seq<byte>)
    requires |message| < 0x1_0000_0000 && Walk(tlv) == (ReplyRecords(r, message), AtTerminator)
    requires tlv != [] && tlv[0] == 0x05
    ensures Raised(StripGwHeader(tlv)) == if r.RcOk? then Passes else AbapRefusal
  {
    hide Walk, Tags, BigEndian, AllValid, ReplyRecords, BigEndianBytes;
    ReplyTags(r, message);
    Pow256Values();
    BigEndianRoundTrip(CodeOf(r), 4);
  }

  lemma {:induction false} ReplyStarts(r: Reply, message: seq<byte>)
    requires AllValid(ReplyRecords(r, message))
    ensures |Stream(ReplyRecords(r, message))| > 0 && Stream(ReplyRecords(r, message))[0] == 0x05
    ensures FirstValueEnd(ReplyRecords(r, message)) == 4
  {
    hide Stream;
    StreamStarts(ReplyRecords(r, message));
  }

  /** A first piece of fewer than four bytes is taken for a whole reply that complains of nothing. */
  lemma {:induction false} ShortPieceReads(back: seq<seq<byte>>, arrived: nat, whole: seq<byte>)
    requires Frames.Carries(back, whole) && whole != [] && whole[0] == 0x05 && arrived > 0 && !HeaderWhole(back)
    ensures ReadReply(back, arrived) == Normal
  {
    hide Frames.Carries, JoinFrames;
    Calls.FirstFrame(back, whole);
    Calls.JoinStarts(back, arrived);
    var b := StripGwHeader(back[0]);
    assert b[0] == whole[..|b|][0];
    ShortPieceJoined(back, arrived);
    assert StripGwHeader(b) == b;
  }

  /** The reading of a server's reply, however it is cut into frames: with the first record header in
      one piece, only return code 0 reads as success, and only when the rest of the reply comes. */
  lemma {:induction false} ReplyRead(r: Reply, message: seq<byte>, back: seq<seq<byte>>, arrived: nat)
    requires |message| < 0x1_0000_0000 && AllValid(ReplyRecords(r, message))
    requires Frames.Carries(back, Stream(ReplyRecords(r, message))) && arrived > 0
    ensures back != []
    ensures !HeaderWhole(back) ==> ReadReply(back, arrived) == Normal
    ensures HeaderWhole(back) ==>
              ReadReply(back, arrived) ==
              match JoinFrames(back, arrived)
              case Joined(_, _) => if r.RcOk? then Normal else AbapError
              case TimedOut(_) => CommError
              case Malformed(_) => Unreadable
    ensures (ReadReply(back, arrived) == Normal ==> r.RcOk?) <==> HeaderWhole(back) || r.RcOk?
  {
    var recs := ReplyRecords(r, message);
    var whole := Stream(recs);
    ReplyStarts(r, message);
    hide Frames.Carries, JoinFrames, Walk, Stream, AllValid, ReplyRecords, FirstValueEnd, Raised;
    Calls.FirstFrame(back, whole);
    if !HeaderWhole(back) {
      ShortPieceReads(back, arrived, whole);
    } else if JoinFrames(back, arrived).Joined? {
      var tlv := JoinFrames(back, arrived).tlv;
      Calls.JoinOwn(back, arrived, whole);
      PrefixStatus(recs, |tlv|);
      WholeReplyJoined(recs, tlv);
      Calls.CompleteCut(recs, |tlv|);
      assert tlv[0] == whole[..|tlv|][0];
      RaisedForReply(r, message, tlv);
    }
  }

  lemma {:induction false} WholeReplyJoined(recs: seq<Rec>, tlv: seq<byte>)
    requires AllValid(recs) && recs != [] && |tlv| <= |Stream(recs)|
    requires StatusOf(tlv) != Truncated && FirstValueEnd(recs) <= |tlv|
    requires StatusOf(tlv) == Complete <==> |tlv| >= |Body(recs)| + 4
    requires StatusOf(tlv) == Truncated <==> |tlv| < |Body(recs)| + 4 && recs != [] && |tlv| >= FirstValueEnd(recs)
    ensures |tlv| >= |Body(recs)| + 4
  {
  }

  // ---- one submit ----

  /** One attempt: what other deliveries come first, whether the request arrives, what running it would
      lead to, and what the receive calls find: any frames at all, and how many of them in time. */
  datatype Trip = Trip(before: seq<Delivery>, arrives: bool, outcome: Outcome, back: seq<seq<byte>>, arrived: nat)

  datatype Submitted = Done | Refused | Failed | Exhausted | NeverTried

  function ReadingOf(trip: Trip): Reading {
    ReadReply(trip.back, trip.arrived)
  }

  /** The state an attempt's request meets. */
  function Met(s: Server, trip: Trip, unpack: Unpacker): Server {
    After(s, trip.before, unpack)
  }

  /** The server after one attempt. */
  function Attempt(s: Server, frame: seq<byte>, trip: Trip, unpack: Unpacker): Server {
    if trip.arrives then Deliver(Met(s, trip, unpack), frame, trip.outcome, unpack).0 else Met(s, trip, unpack)
  }

  /** The state after the first k attempts. */
  function Tried(s: Server, frame: seq<byte>, trips: seq<Trip>, k: nat, unpack: Unpacker): Server
    requires k <= |trips|
  {
    if k == 0 then s else Attempt(Tried(s, frame, trips, k - 1, unpack), frame, trips[k - 1], unpack)
  }

  function MetAt(s: Server, frame: seq<byte>, trips: seq<Trip>, k: nat, unpack: Unpacker): Server
    requires k < |trips|
  {
    Met(Tried(s, frame, trips, k, unpack), trips[k], unpack)
  }

  /** The reply the server gives in attempt k, none when the request is lost or cannot be decoded. */
  function ServerReply(s: Server, frame: seq<byte>, trips: seq<Trip>, k: nat, unpack: Unpacker): Option<Reply>
    requires k < |trips|
  {
    if trips[k].arrives then Deliver(MetAt(s, frame, trips, k, unpack), frame, trips[k].outcome, unpack).1 else None
  }

  /** Retrying from attempt k on: how it ends, and after how many attempts in all. */
  function Retry(trips: seq<Trip>, k: nat, maxRetries: nat): (r: (Submitted, nat))
    requires k <= maxRetries < |trips|
    ensures k < r.1 <= maxRetries + 1
    decreases maxRetries - k
  {
    match ReadingOf(trips[k])
    case Normal => (Done, k + 1)
    case AbapError => (Refused, k + 1)
    case Unreadable => (Failed, k + 1)
    case CommError => if k == maxRetries then (Exhausted, k + 1) else Retry(trips, k + 1, maxRetries)
  }

  /** The submit ends at its first attempt that is no communication error, or after maxRetries + 1. */
  lemma {:induction false} RetryEnds(trips: seq<Trip>, k: nat, maxRetries: nat)
    requires k <= maxRetries < |trips|
    ensures
      var (r, sends) := Retry(trips, k, maxRetries);
      && k < sends <= maxRetries + 1
      && (forall j :: k <= j < sends - 1 ==> ReadingOf(trips[j]) == CommError)
      && (match ReadingOf(trips[sends - 1])
          case Normal => r == Done
          case AbapError => r == Refused
          case Unreadable => r == Failed
          case CommError => r == Exhausted && sends == maxRetries + 1)
    decreases maxRetries - k
  {
    hide ReadingOf;
    if ReadingOf(trips[k]) == CommError && k < maxRetries {
      RetryEnds(trips, k + 1, maxRetries);
    }
  }

  predicate Carries(frame: seq<byte>, tid: Name, unpack: Unpacker) {
    ValidTid(tid) && TextParam(frame, Units(ARFCTID), unpack) == Ok(tid)
  }

  lemma {:induction false} AttemptTracked(s: Server, frame: seq<byte>, trip: Trip, unpack: Unpacker, tid: Name)
    requires Tracked(s, tid)
    ensures Tracked(Attempt(s, frame, trip, unpack), tid) && Tracked(Met(s, trip, unpack), tid)
  {
    hide Tracked, Deliver, After;
    AfterTracked(s, trip.before, unpack, tid);
    DeliverTracked(Met(s, trip, unpack), Delivery(frame, trip.outcome), unpack, tid);
  }

  lemma {:induction false} TriedTracked(s: Server, frame: seq<byte>, trips: seq<Trip>, k: nat, unpack: Unpacker, tid: Name)
    requires k <= |trips| && Tracked(s, tid)
    ensures Tracked(Tried(s, frame, trips, k, unpack), tid)
  {
    if k > 0 {
      hide Tracked, Attempt;
      TriedTracked(s, frame, trips, k - 1, unpack, tid);
      AttemptTracked(Tried(s, frame, trips, k - 1, unpack), frame, trips[k - 1], unpack, tid);
    }
  }

  lemma {:induction false} DeliverStays(s: Server, frame: seq<byte>, o: Outcome, unpack: Unpacker, tid: Name)
    requires IsExecuted(s, tid)
    ensures IsExecuted(Deliver(s, frame, o, unpack).0, tid)
  {
    hide TextParam, ValidTid;
  }

  lemma {:induction false} AfterStays(s: Server, ds: seq<Delivery>, unpack: Unpacker, tid: Name)
    requires IsExecuted(s, tid)
    ensures IsExecuted(After(s, ds, unpack), tid)
  {
    if ds != [] {
      hide Deliver, IsExecuted;
      var n := |ds| - 1;
      AfterStays(s, ds[..n], unpack, tid);
      DeliverStays(After(s, ds[..n], unpack), ds[n].frame, ds[n].outcome, unpack, tid);
    }
  }

  /** A TID once executed stays so over further attempts. */
  lemma {:induction false} TriedStays(s: Server, frame: seq<byte>, trips: seq<Trip>, j: nat, n: nat, unpack: Unpacker, tid: Name)
    requires j <= n <= |trips| && IsExecuted(Tried(s, frame, trips, j, unpack), tid)
    ensures IsExecuted(Tried(s, frame, trips, n, unpack), tid)
    decreases n
  {
    if j < n {
      hide Deliver, IsExecuted, After;
      TriedStays(s, frame, trips, j, n - 1, unpack, tid);
      var before := Tried(s, frame, trips, n - 1, unpack);
      AfterStays(before, trips[n - 1].before, unpack, tid);
      DeliverStays(Met(before, trips[n - 1], unpack), frame, trips[n - 1].outcome, unpack, tid);
    }
  }

  /** What a reply tells about the TID, the moment it is given. */
  lemma {:induction false} ReplyTells(s: Server, frame: seq<byte>, o: Outcome, unpack: Unpacker, tid: Name)
    requires Carries(frame, tid, unpack)
    ensures
      var (t, reply) := Deliver(s, frame, o, unpack);
      && (reply == Some(RcOk) <==> o.Succeeds? && !IsExecuted(s, tid))
      && (reply == Some(RcOk) ==> IsExecuted(t, tid))
      && (reply == Some(RcExecuted) ==> IsExecuted(t, tid) && IsExecuted(s, tid))
      && (reply == Some(RcFailure) ==> !IsExecuted(t, tid))
  {
    hide TextParam, ValidTid;
  }

  /** What the server's reply to attempt j proves by the time n attempts are made. */
  lemma {:induction false} ReplyProves(s: Server, frame: seq<byte>, trips: seq<Trip>, j: nat, n: nat, unpack: Unpacker, tid: Name)
    requires j < n <= |trips| && Tracked(s, tid) && Carries(frame, tid, unpack)
    ensures
      var met, soon, now := MetAt(s, frame, trips, j, unpack), Tried(s, frame, trips, j + 1, unpack), Tried(s, frame, trips, n, unpack);
      && Successes(now.runs, tid) <= 1
      && match ServerReply(s, frame, trips, j, unpack)
         case Some(RcOk) => Successes(met.runs, tid) == 0 && Successes(soon.runs, tid) == 1 && Successes(now.runs, tid) == 1
         case Some(RcExecuted) => Successes(met.runs, tid) == 1 && Successes(now.runs, tid) == 1
         case Some(RcFailure) => Successes(soon.runs, tid) == 0
         case None => true
  {
    hide Deliver, After, Successes, IsExecuted, Carries;
    var at := Tried(s, frame, trips, j, unpack);
    TriedTracked(s, frame, trips, j, unpack, tid);
    TriedTracked(s, frame, trips, j + 1, unpack, tid);
    TriedTracked(s, frame, trips, n, unpack, tid);
    AttemptTracked(at, frame, trips[j], unpack, tid);
    ReplyTells(MetAt(s, frame, trips, j, unpack), frame, trips[j].outcome, unpack, tid);
    if IsExecuted(Tried(s, frame, trips, j + 1, unpack), tid) {
      TriedStays(s, frame, trips, j + 1, n, unpack, tid);
    }
  }

  /** What attempt k finds to read is the server's reply to attempt j, its own or one that comes late. */
  predicate Answers(s: Server, frame: seq<byte>, trips: seq<Trip>, j: nat, k: nat, message: seq<byte>, unpack: Unpacker)
    requires j < |trips| && k < |trips|
  {
    && |message| < 0x1_0000_0000 && ServerReply(s, frame, trips, j, unpack).Some?
    && var recs := ReplyRecords(ServerReply(s, frame, trips, j, unpack).value, message);
    && AllValid(recs) && Frames.Carries(trips[k].back, Stream(recs))
  }

  /** Exactly once: a submit that returns normally on a reply of the server, its first record header
      in one piece, has had its handler succeed exactly once; one refused has had it succeed exactly
      once before the request that was answered, or not until it was answered. */
  lemma {:induction false} ExactlyOnce(s: Server, frame: seq<byte>, trips: seq<Trip>, maxRetries: nat,
                                       unpack: Unpacker, tid: Name, j: nat, message: seq<byte>)
    requires maxRetries < |trips| && Tracked(s, tid) && Carries(frame, tid, unpack)
    requires j < Retry(trips, 0, maxRetries).1
    requires Answers(s, frame, trips, j, Retry(trips, 0, maxRetries).1 - 1, message, unpack)
    requires HeaderWhole(trips[Retry(trips, 0, maxRetries).1 - 1].back)
    ensures
      var (r, sends) := Retry(trips, 0, maxRetries);
      var met, soon := MetAt(s, frame, trips, j, unpack), Tried(s, frame, trips, j + 1, unpack);
      var after := Tried(s, frame, trips, sends, unpack);
      && (r.Done? ==> Successes(met.runs, tid) == 0 && Successes(soon.runs, tid) == 1 && Successes(after.runs, tid) == 1)
      && (r.Refused? ==>
            (Successes(met.runs, tid) == 1 && Successes(after.runs, tid) == 1) || Successes(soon.runs, tid) == 0)
      && Successes(after.runs, tid) <= 1
  {
    hide Retry, Answers, Successes, Carries, Tried, MetAt, ServerReply, ReadReply;
    var (r, sends) := Retry(trips, 0, maxRetries);
    RetryEnds(trips, 0, maxRetries);
    ReplyProves(s, frame, trips, j, sends, unpack, tid);
    AnswerReads(s, frame, trips, j, sends - 1, message, unpack);
  }

  /** An answer of the server, read: normally for RcOk alone, as an ABAP error for the others alone. */
  lemma {:induction false} AnswerReads(s: Server, frame: seq<byte>, trips: seq<Trip>, j: nat, k: nat, message: seq<byte>, unpack: Unpacker)
    requires j < |trips| && k < |trips| && Answers(s, frame, trips, j, k, message, unpack) && HeaderWhole(trips[k].back)
    ensures
      var reply, trip := ServerReply(s, frame, trips, j, unpack), trips[k];
      && reply.Some?
      && (ReadingOf(trip) == Normal <==> reply == Some(RcOk) && JoinFrames(trip.back, trip.arrived).Joined?)
      && (ReadingOf(trip) == AbapError <==> reply != Some(RcOk) && JoinFrames(trip.back, trip.arrived).Joined?)
  {
    hide Stream, AllValid, Walk, Raised, ReplyRecords, Frames.Carries, ServerReply, HeaderWhole, JoinMore;
    var trip := trips[k];
    if trip.arrived > 0 {
      ReplyRead(ServerReply(s, frame, trips, j, unpack).value, message, trip.back, trip.arrived);
    }
  }

  /** The request arrives, runs for the first time with success, and the whole reply comes back. */
  predicate Succeeding(s: Server, frame: seq<byte>, trips: seq<Trip>, k: nat, unpack: Unpacker, tid: Name)
    requires k < |trips|
  {
    && trips[k].arrives && trips[k].outcome.Succeeds? && !IsExecuted(MetAt(s, frame, trips, k, unpack), tid)
    && JoinFrames(trips[k].back, trips[k].arrived).Joined?
  }

  /** Attempt k reads nothing, or the server's reply to it with the first record header in one piece. */
  predicate Honest(s: Server, frame: seq<byte>, trips: seq<Trip>, k: nat, message: seq<byte>, unpack: Unpacker)
    requires k < |trips|
  {
    trips[k].back == [] || (Answers(s, frame, trips, k, k, message, unpack) && HeaderWhole(trips[k].back))
  }

  lemma {:induction false} SucceedingReads(s: Server, frame: seq<byte>, trips: seq<Trip>, k: nat, message: seq<byte>,
                                           unpack: Unpacker, tid: Name)
    requires k < |trips| && Carries(frame, tid, unpack) && Honest(s, frame, trips, k, message, unpack)
    ensures Succeeding(s, frame, trips, k, unpack, tid) <==> ReadingOf(trips[k]) == Normal
  {
    hide MetAt, IsExecuted, Carries, Answers, HeaderWhole, Deliver, JoinMore, Raised;
    if trips[k].back != [] {
      AnswerReads(s, frame, trips, k, k, message, unpack);
      hide ReadReply, JoinFrames;
      ReplyTells(MetAt(s, frame, trips, k, unpack), frame, trips[k].outcome, unpack, tid);
    }
  }

  /** When it returns normally, over a channel that loses what it likes but adds nothing: exactly when
      the first attempt that is no communication error is one whose handler succeeds, no earlier
      delivery of the TID having done so already. */
  lemma {:induction false} ReturnsNormallyIff(s: Server, frame: seq<byte>, trips: seq<Trip>, maxRetries: nat,
                                              messages: seq<seq<byte>>, unpack: Unpacker, tid: Name)
    requires maxRetries < |trips| == |messages| && Carries(frame, tid, unpack)
    requires forall k :: 0 <= k <= maxRetries ==> Honest(s, frame, trips, k, messages[k], unpack)
    ensures
      Retry(trips, 0, maxRetries).0.Done? <==>
      exists k | 0 <= k <= maxRetries ::
        Succeeding(s, frame, trips, k, unpack, tid) && forall j :: 0 <= j < k ==> ReadingOf(trips[j]) == CommError
  {
    hide Retry, Succeeding, ReadingOf, Carries, Honest;
    var (r, sends) := Retry(trips, 0, maxRetries);
    RetryEnds(trips, 0, maxRetries);
    SucceedingReads(s, frame, trips, sends - 1, messages[sends - 1], unpack, tid);
    forall k | 0 <= k <= maxRetries && Succeeding(s, frame, trips, k, unpack, tid)
               && forall j :: 0 <= j < k ==> ReadingOf(trips[j]) == CommError
      ensures r.Done?
    {
      SucceedingReads(s, frame, trips, k, messages[k], unpack, tid);
      assert !(sends - 1 < k) && !(k < sends - 1);
    }
  }

  // ---- what a normal return does not prove ----

  /** A gateway frame with no body. */
  const BARE_HEADER: seq<byte> := Framed([])

  /** A submit answered with a bare gateway header returns normally, although its request was lost and
      no handler has run: the error check asks for no return code. */
  lemma {:induction false} EmptyFrameReturns(frame: seq<byte>, outcome: Outcome, unpack: Unpacker, tid: Name)
    ensures
      var trips := [Trip([], false, outcome, [BARE_HEADER], 1)];
      Retry(trips, 0, 0) == (Done, 1) && Successes(Tried(FRESH, frame, trips, 1, unpack).runs, tid) == 0
  {
    FramedBack([]);
    ShortWalk([]);
    hide Walk, Framed;
    assert JoinFrames([BARE_HEADER], 1) == Joined([], []);
    hide JoinFrames;
    var trips := [Trip([], false, outcome, [BARE_HEADER], 1)];
    assert ReadingOf(trips[0]) == Normal;
    hide ReadReply;
    assert Tried(FRESH, frame, trips, 0, unpack) == FRESH;
    assert Tried(FRESH, frame, trips, 1, unpack) == FRESH;
  }

  lemma {:induction false} FailureAnswered(s: Server, frame: seq<byte>, o: Outcome, unpack: Unpacker, tid: Name)
    requires Carries(frame, tid, unpack) && !IsExecuted(s, tid) && (o.Fails? || o.NoHandler?)
    ensures Deliver(s, frame, o, unpack).1 == Some(RcFailure)
  {
    hide TextParam, ValidTid;
  }

  lemma {:induction false} CutReads(message: seq<byte>, cut: nat)
    requires 0 < cut < 4 && |message| < 0x1_0000_0000
    ensures AllValid(ReplyRecords(RcFailure, message)) && cut < |Stream(ReplyRecords(RcFailure, message))|
    ensures
      var reply := Stream(ReplyRecords(RcFailure, message));
      var back := [Framed(reply[..cut]), Framed(reply[cut..])];
      Frames.Carries(back, reply) && ReadReply(back, 2) == Normal
  {
    ReplyTags(RcFailure, message);
    var recs := ReplyRecords(RcFailure, message);
    Calls.StreamSize(recs);
    ReplyStarts(RcFailure, message);
    hide ReplyRecords, Stream, Framed, Walk, JoinMore;
    var reply := Stream(recs);
    var back := [Framed(reply[..cut]), Framed(reply[cut..])];
    FramedBack(reply[..cut]);
    FramedBack(reply[cut..]);
    Frames.CarriesAppend([Framed(reply[..cut])], reply[..cut], [Framed(reply[cut..])], reply[cut..]);
    assert reply[..cut] + reply[cut..] == reply;
    assert [Framed(reply[..cut])] + [Framed(reply[cut..])] == back;
    ShortPieceReads(back, 2, reply);
  }

  /** A handler that fails, or is missing, for a TID not yet executed: the server answers with a failure;
      when that answer is cut inside its first record header the submit returns normally, and the TID
      has had no success. */
  lemma {:induction false} CutFailureReturns(s: Server, frame: seq<byte>, before: seq<Delivery>, o: Outcome,
                                             message: seq<byte>, cut: nat, unpack: Unpacker, tid: Name)
    requires Tracked(s, tid) && Carries(frame, tid, unpack) && !IsExecuted(After(s, before, unpack), tid)
    requires (o.Fails? || o.NoHandler?) && 0 < cut < 4 && |message| < 0x1_0000_0000
    ensures AllValid(ReplyRecords(RcFailure, message)) && cut < |Stream(ReplyRecords(RcFailure, message))|
    ensures
      var reply := Stream(ReplyRecords(RcFailure, message));
      var trips := [Trip(before, true, o, [Framed(reply[..cut]), Framed(reply[cut..])], 2)];
      && ServerReply(s, frame, trips, 0, unpack) == Some(RcFailure) && Answers(s, frame, trips, 0, 0, message, unpack)
      && Retry(trips, 0, 0) == (Done, 1)
      && Successes(Tried(s, frame, trips, 1, unpack).runs, tid) == 0
  {
    CutReads(message, cut);
    hide ReplyRecords, Stream, Framed, ReadReply, Frames.Carries, Deliver, After, Successes, Tracked, IsExecuted, Carries,
         AllValid;
    var reply := Stream(ReplyRecords(RcFailure, message));
    var trips := [Trip(before, true, o, [Framed(reply[..cut]), Framed(reply[cut..])], 2)];
    FailureAnswered(After(s, before, unpack), frame, o, unpack, tid);
    assert Tried(s, frame, trips, 0, unpack) == s;
    assert MetAt(s, frame, trips, 0, unpack) == After(s, before, unpack);
    ReplyProves(s, frame, trips, 0, 1, unpack, tid);
  }

  lemma {:induction false} HandleFresh(tid: Name, o: Outcome)
    requires ValidTid(tid)
    ensures Handle(FRESH, tid, Succeeds) == (Server(map[tid := Executed], [Entry(tid, true)]), Some(RcOk))
    ensures Handle(Server(map[tid := Executed], [Entry(tid, true)]), tid, o) ==
            (Server(map[tid := Executed], [Entry(tid, true)]), Some(RcExecuted))
  {
    hide ValidTid;
    assert map[][tid := Executed] == map[tid := Executed];
    assert [] + [Entry(tid, true)] == [Entry(tid, true)];
  }

  /** A reply in one frame. */
  function ReplyFrame(r: Reply): seq<byte> {
    ReplyTags(r, []);
    Framed(Stream(ReplyRecords(r, [])))
  }

  lemma {:induction false} ReplyFrameReads(r: Reply)
    ensures ReadReply([ReplyFrame(r)], 1) == if r.RcOk? then Normal else AbapError
  {
    ReplyTags(r, []);
    var recs := ReplyRecords(r, []);
    var whole := Stream(recs);
    ReplyStarts(r, []);
    Calls.StreamSize(recs);
    FramedBack(whole);
    StreamBack(recs, []);
    assert whole + [] == whole;
    hide Stream, Walk, ReplyRecords, Framed, FirstValueEnd;
    assert JoinFrames([ReplyFrame(r)], 1) == Joined(whole, []);
    RaisedForReply(r, [], whole);
  }

  /** The documented promise that RFC_EXECUTED is no error does not hold on the client: when the
      request arrives, the handler succeeds and only the reply is lost, an answered retry is refused
      although the call has run. */
  lemma {:induction false} LostReplyIsRefused(frame: seq<byte>, outcome: Outcome, unpack: Unpacker, tid: Name)
    requires Carries(frame, tid, unpack)
    ensures
      var trips := [Trip([], true, Succeeds, [], 0), Trip([], true, outcome, [ReplyFrame(RcExecuted)], 1)];
      && ServerReply(FRESH, frame, trips, 1, unpack) == Some(RcExecuted)
      && Retry(trips, 0, 1) == (Refused, 2)
      && Successes(Tried(FRESH, frame, trips, 2, unpack).runs, tid) == 1
  {
    hide TextParam, ValidTid, Units, Handle, ReplyFrame;
    ReplyFrameReads(RcExecuted);
    var trips := [Trip([], true, Succeeds, [], 0), Trip([], true, outcome, [ReplyFrame(RcExecuted)], 1)];
    var ran := Server(map[tid := Executed], [Entry(tid, true)]);
    HandleFresh(tid, outcome);
    assert Attempt(FRESH, frame, trips[0], unpack) == ran;
    assert Attempt(ran, frame, trips[1], unpack) == ran;
    assert ReadingOf(trips[0]) == CommError && ReadingOf(trips[1]) == AbapError;
    hide Attempt, ReadReply;
    assert Tried(FRESH, frame, trips, 0, unpack) == FRESH;
    assert Tried(FRESH, frame, trips, 1, unpack) == ran;
    assert Tried(FRESH, frame, trips, 2, unpack) == ran;
    hide Tried;
    assert Retry(trips, 1, 1) == (Refused, 2);
    SuccessesNext([], Entry(tid, true), tid);
    assert [] + [Entry(tid, true)] == [Entry(tid, true)];
  }

  // ---- the two sides as objects ----

  class TidServer {
    var store: map<Name, TidState>
    /** The handler runs so far. */
    var runs: seq<Entry>

    function View(): Server
      reads this
    {
      Server(store, runs)
    }

    constructor ()
      ensures View() == FRESH
    {
      store, runs := map[], [];
    }

    /** _dispatch_transactional. */
    method Dispatch(frame: seq<byte>, o: Outcome, unpack: Unpacker) returns (reply: Option<Reply>)
      modifies this
      ensures (View(), reply) == Deliver(old(View()), frame, o, unpack)
    {
      hide TextParam, ValidTid;
      var param := TextParam(frame, Units(ARFCTID), unpack);
      if param.Err? {
        return None;
      }
      var tid := param.value;
      if !ValidTid(tid) {
        return Some(RcFailure);
      }
      if tid in store && store[tid] == Executed {
        return Some(RcExecuted);
      }
      store := store[tid := Received];
      assert old(store)[tid := Received][tid := RolledBack] == old(store)[tid := RolledBack];
      assert old(store)[tid := Received][tid := Executed] == old(store)[tid := Executed];
      if o.NoHandler? {
        store := store[tid := RolledBack];
        return Some(RcFailure);
      }
      if o.Garbled? {
        return None;
      }
      runs := runs + [Entry(tid, o.Succeeds?)];
      if o.Fails? {
        store := store[tid := RolledBack];
        return Some(RcFailure);
      }
      store := store[tid := Executed];
      return Some(RcOk);
    }

    /** Deliveries of other clients. */
    method DispatchAll(ds: seq<Delivery>, unpack: Unpacker)
      modifies this
      ensures View() == After(old(View()), ds, unpack)
    {
      hide Deliver;
      for i := 0 to |ds|
        invariant View() == After(old(View()), ds[..i], unpack)
      {
        assert ds[..i + 1][..i] == ds[..i];
        var _ := Dispatch(ds[i].frame, ds[i].outcome, unpack);
      }
      assert ds[..|ds|] == ds;
    }
  }

  class TrfcClient {
    /** Frames sent, and payloads kept for a later drive. */
    var sent: seq<seq<byte>>
    var parked: map<Name, seq<byte>>
    const transport: Transport

    constructor (transport: Transport)
      ensures sent == [] && parked == map[] && this.transport == transport
    {
      sent, parked := [], map[];
      this.transport := transport;
    }

    /** One send and what is read for it: the joined frames, put to the error check once more stripped
        of a gateway header. */
    method SendOnce(server: TidServer, frame: seq<byte>, trip: Trip, unpack: Unpacker) returns (reading: Reading)
      modifies server, transport, `sent
      ensures server.View() == Attempt(old(server.View()), frame, trip, unpack)
      ensures reading == ReadingOf(trip)
      ensures sent == old(sent) + [frame]
    {
      hide Deliver, After, JoinFrames, Raised, StripGwHeader;
      sent := sent + [frame];
      server.DispatchAll(trip.before, unpack);
      if trip.arrives {
        var _ := server.Dispatch(frame, trip.outcome, unpack);
      }
      transport.incoming, transport.arrived := trip.back, trip.arrived;
      var joined := JoinResponseFrames(transport);
      if joined.TimedOut? {
        return CommError;
      }
      if joined.Malformed? {
        return Unreadable;
      }
      var verdict := RaiseForRfcError(StripGwHeader(joined.tlv));
      match verdict
      case Passes => return Normal;
      case NoAnswer => return CommError;
      case AbapRefusal => return AbapError;
      case BadCode => return Unreadable;
    }

    /** _submit_with_retry: only a communication error is retried, always with the same bytes, and
        the last one parks exactly those bytes. */
    method Submit(server: TidServer, tid: Name, frame: seq<byte>, trips: seq<Trip>, maxRetries: int, unpack: Unpacker)
      returns (r: Submitted)
      requires maxRetries < |trips|
      modifies server, transport, this
      ensures maxRetries < 0 ==> r.NeverTried? && sent == old(sent) && parked == old(parked)
      ensures maxRetries >= 0 ==>
                var (end, sends) := Retry(trips, 0, maxRetries);
                && r == end
                && sends <= |trips| && server.View() == Tried(old(server.View()), frame, trips, sends, unpack)
                && sends <= maxRetries + 1
                && sent == old(sent) + seq(sends, i => frame)
      ensures parked == if r.Exhausted? then old(parked)[tid := frame] else old(parked)
    {
      hide Attempt, ReadingOf;
      ghost var s := server.View();
      var k := 0;
      while k <= maxRetries
        invariant 0 <= k && (maxRetries >= 0 ==> k <= maxRetries)
        invariant maxRetries < 0 ==> k == 0
        invariant sent == old(sent) + seq(k, i => frame) && parked == old(parked)
        invariant maxRetries >= 0 ==> server.View() == Tried(s, frame, trips, k, unpack)
        invariant maxRetries >= 0 ==> Retry(trips, 0, maxRetries) == Retry(trips, k, maxRetries)
        decreases maxRetries - k
      {
        var reading := SendOnce(server, frame, trips[k], unpack);
        assert seq(k, i => frame) + [frame] == seq(k + 1, i => frame);
        assert server.View() == Tried(s, frame, trips, k + 1, unpack);
        match reading {
          case Normal => return Done;
          case AbapError => return Refused;
          case Unreadable => return Failed;
          case CommError =>
        }
        if k == maxRetries {
          parked := parked[tid := frame];
          return Exhausted;
        }
        k := k + 1;
      }
      assert seq(0, i => frame) == [];
      return NeverTried;
    }
  }
}
