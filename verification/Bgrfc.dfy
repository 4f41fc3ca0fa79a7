/** Background units: buffered by the client (connection.py, invoke.py), run by the server as one
    unit of work (server.py). */
module Bgrfc {
  import opened Bits
  import opened Words
  import opened Tlv
  import opened Leaves
  import opened Pairs
  import Messages
  import Trfc

  // ---- one buffered call ----

  /** A function name and its parameters as "key=value" text. */
  datatype Call = Call(function_: Name, entries: seq<Name>)

  predicate CallIsText(c: Call) {
    IsText(c.function_) && forall i :: 0 <= i < |c.entries| ==> IsText(c.entries[i])
  }

  function Entries(es: seq<Name>): seq<byte>
    requires forall i :: 0 <= i < |es| ==> IsText(es[i])
  {
    if es == [] then [] else [0, 0] + Utf16(es[0]) + Entries(es[1..])
  }

  /** The name and the entries, joined by two zero bytes. */
  function CallBytes(c: Call): seq<byte>
    requires CallIsText(c)
  {
    Utf16(c.function_) + Entries(c.entries)
  }

  /** The first even offset holding a zero code unit, or the end. */
  function NulAt(b: seq<byte>): (n: nat)
    ensures n <= |b|
  {
    if |b| < 2 then |b| else if b[0] == 0 && b[1] == 0 then 0 else 2 + NulAt(b[2..])
  }

  /** The function name the server takes out of a buffered call, none when it is no text. */
  function CallName(b: seq<byte>): Option<Name> {
    var name := b[..NulAt(b)];
    if |name| % 2 == 0 && IsText(FromUtf16(name)) then Some(StripName(FromUtf16(name))) else None
  }

  function BeforeNul(n: Name): (m: Name)
    ensures |m| <= |n|
  {
    if n == [] || n[0] == 0 then [] else [n[0]] + BeforeNul(n[1..])
  }

  lemma {:induction false} NulInName(n: Name, rest: seq<byte>)
    requires IsText(n) && (rest == [] || rest[..if |rest| < 2 then 0 else 2] == [0, 0])
    ensures IsText(BeforeNul(n)) && (Utf16(n) + rest)[..NulAt(Utf16(n) + rest)] == Utf16(BeforeNul(n))
  {
    var b := Utf16(n) + rest;
    if n == [] {
      assert b == rest;
      assert |rest| >= 2 ==> rest[0] == 0 && rest[1] == 0 by {
        if |rest| >= 2 {
          assert rest[..2][0] == rest[0] && rest[..2][1] == rest[1];
        }
      }
    } else {
      assert b[0] as nat == n[0] % 256 && b[1] as nat == n[0] / 256;
      if n[0] != 0 {
        NulInName(n[1..], rest);
        assert b[2..] == Utf16(n[1..]) + rest;
        assert b[..NulAt(b)] == [b[0], b[1]] + b[2..][..NulAt(b[2..])];
      }
    }
  }

  lemma {:induction false} EntriesStart(es: seq<Name>)
    requires forall i :: 0 <= i < |es| ==> IsText(es[i])
    ensures Entries(es) == [] || (|Entries(es)| >= 2 && Entries(es)[..2] == [0, 0])
  {
  }

  /** What the server reads: the buffered name up to its first NUL, trailing blanks stripped. */
  lemma {:induction false} CallNameOf(c: Call)
    requires CallIsText(c)
    ensures CallName(CallBytes(c)) == Some(StripName(BeforeNul(c.function_)))
  {
    EntriesStart(c.entries);
    NulInName(c.function_, Entries(c.entries));
    Utf16Back(BeforeNul(c.function_));
    hide Utf16, FromUtf16, Entries;
  }

  predicate PlainName(n: Name) {
    (forall i :: 0 <= i < |n| ==> n[i] != 0) && (n != [] ==> n[|n| - 1] != BLANK)
  }

  lemma {:induction false} BeforeNulWhole(n: Name)
    ensures BeforeNul(n) == n <==> forall i :: 0 <= i < |n| ==> n[i] != 0
    ensures BeforeNul(n) == n[..|BeforeNul(n)|]
  {
    if n != [] && n[0] != 0 {
      BeforeNulWhole(n[1..]);
      assert n[..|BeforeNul(n)|] == [n[0]] + n[1..][..|BeforeNul(n)| - 1];
      assert n == [n[0]] + n[1..];
      if forall i :: 0 <= i < |n[1..]| ==> n[1..][i] != 0 {
        forall i | 0 <= i < |n| ensures n[i] != 0 {
          assert i > 0 ==> n[1..][i - 1] == n[i];
        }
      }
    }
  }

  /** The name the client buffered is the one the server looks up exactly when it holds no NUL and
      does not end in a blank. */
  lemma {:induction false} CallNameIff(c: Call)
    requires CallIsText(c)
    ensures CallName(CallBytes(c)) == Some(c.function_) <==> PlainName(c.function_)
  {
    CallNameOf(c);
    var n := c.function_;
    BeforeNulWhole(n);
    StripShorter(BeforeNul(n));
    hide CallName, CallBytes, StripName, BeforeNul;
  }

  // ---- numbers in names and values ----

  /** str(n). */
  function Str(n: nat): (s: Name)
    ensures s != []
  {
    if n < 10 then [0x30 + n] else Str(n / 10) + [0x30 + n % 10]
  }

  function Digits(s: Name): Option<nat> {
    if s == [] then None
    else
      var last := s[|s| - 1];
      if !(0x30 <= last <= 0x39) then None
      else if |s| == 1 then Some(last - 0x30)
      else
        match Digits(s[..|s| - 1])
        case None => None
        case Some(n) => Some(10 * n + last - 0x30)
  }

  /** int(s) for an optional sign and digits. */
  function IntOf(s: Name): Option<int> {
    if s == [] then None
    else if s[0] == 0x2D then
      match Digits(s[1..])
      case None => None
      case Some(n) => Some(0 - n)
    else if s[0] == 0x2B then
      match Digits(s[1..])
      case None => None
      case Some(n) => Some(n)
    else
      match Digits(s)
      case None => None
      case Some(n) => Some(n)
  }

  lemma {:induction false} StrBack(n: nat)
    ensures Digits(Str(n)) == Some(n) && IntOf(Str(n)) == Some(n)
    ensures forall i :: 0 <= i < |Str(n)| ==> 0x30 <= Str(n)[i] <= 0x39
  {
    if n >= 10 {
      StrBack(n / 10);
      assert Str(n)[..|Str(n)| - 1] == Str(n / 10);
      assert Str(n)[0] == Str(n / 10)[0];
    }
  }

  // ---- the unit on the wire ----

  const UNIT_ID: string := "BGRFC_UNIT_ID"
  const UNIT_TYPE: string := "BGRFC_UNIT_TYPE"
  const QUEUE_PREFIX: string := "BGRFC_QUEUE_"
  const CALL_PREFIX: string := "BGRFC_CALL_"
  const CALL_COUNT: string := "BGRFC_CALL_COUNT"
  const BGRFC_DEST_SHIP: string := "BGRFC_DEST_SHIP"

  function Numbered(prefix: string, i: nat): Name {
    Trfc.Units(prefix) + Str(i)
  }

  predicate ValidUnitId(id: Name) {
    |id| == 32 && forall i :: 0 <= i < |id| ==> 0x30 <= id[i] <= 0x39 || 0x41 <= id[i] <= 0x46
  }

  const TYPE_T: Name := [0x54]
  const TYPE_Q: Name := [0x51]

  datatype Unit = Unit(id: Name, kind: Name, queues: seq<Name>, calls: seq<Call>)

  predicate UnitIsText(u: Unit) {
    && (forall i :: 0 <= i < |u.queues| ==> IsText(u.queues[i]))
    && (forall i :: 0 <= i < |u.calls| ==> CallIsText(u.calls[i]))
  }

  function QueueFields(qs: seq<Name>): seq<Pair>
    requires forall i :: 0 <= i < |qs| ==> IsText(qs[i])
  {
    if qs == [] then []
    else
      var n := |qs| - 1;
      QueueFields(qs[..n]) + if qs[n] == [] then [] else [Pair(Numbered(QUEUE_PREFIX, n), Utf16(qs[n]))]
  }

  function CallFields(cs: seq<Call>): seq<Pair>
    requires forall i :: 0 <= i < |cs| ==> CallIsText(cs[i])
  {
    if cs == [] then []
    else
      var n := |cs| - 1;
      CallFields(cs[..n]) + [Pair(Numbered(CALL_PREFIX, n), CallBytes(cs[n]))]
  }

  lemma {:induction false} IdIsText(id: Name)
    requires ValidUnitId(id) || id == TYPE_T || id == TYPE_Q
    ensures IsText(id) && GoodName(id)
  {
  }

  lemma {:induction false} StrIsText(n: nat)
    ensures IsText(Str(n))
  {
    StrBack(n);
  }

  function UnitFields(u: Unit): seq<Pair>
    requires ValidUnitId(u.id) && (u.kind == TYPE_T || u.kind == TYPE_Q) && UnitIsText(u)
  {
    IdIsText(u.id);
    IdIsText(u.kind);
    StrIsText(|u.calls|);
    [Pair(Trfc.Units(UNIT_ID), Utf16(u.id)), Pair(Trfc.Units(UNIT_TYPE), Utf16(u.kind))] +
    QueueFields(u.queues) +
    if u.calls == [] then []
    else [Pair(Trfc.Units(CALL_COUNT), Utf16(Str(|u.calls|)))] + CallFields(u.calls)
  }

  predicate GoodNames(fields: seq<Pair>) {
    forall i :: 0 <= i < |fields| ==> GoodName(fields[i].name) && IsText(fields[i].name)
  }

  lemma {:induction false} GoodNumbered(prefix: string, i: nat)
    requires prefix != "" && forall j :: 0 <= j < |prefix| ==> '\0' < prefix[j] < (127 as char)
    ensures GoodName(Numbered(prefix, i)) && IsText(Numbered(prefix, i))
  {
    StrBack(i);
    var n := Numbered(prefix, i);
    hide Str;
    forall j | 0 <= j < |n| ensures 0 < n[j] < 128 {
      if j >= |prefix| {
        assert n[j] == Str(i)[j - |prefix|];
      }
    }
    assert n[|n| - 1] == Str(i)[|Str(i)| - 1];
  }

  lemma {:induction false} QueueNames(qs: seq<Name>)
    requires forall i :: 0 <= i < |qs| ==> IsText(qs[i])
    ensures GoodNames(QueueFields(qs))
  {
    if qs != [] {
      hide GoodName, IsText, Numbered, Utf16;
      QueueNames(qs[..|qs| - 1]);
      GoodNumbered(QUEUE_PREFIX, |qs| - 1);
    }
  }

  lemma {:induction false} CallNames(cs: seq<Call>)
    requires forall i :: 0 <= i < |cs| ==> CallIsText(cs[i])
    ensures GoodNames(CallFields(cs))
  {
    if cs != [] {
      hide GoodName, IsText, Numbered, CallBytes, CallIsText;
      CallNames(cs[..|cs| - 1]);
      GoodNumbered(CALL_PREFIX, |cs| - 1);
    }
  }

  lemma {:induction false} ConstantNames()
    ensures GoodName(Trfc.Units(UNIT_ID)) && IsText(Trfc.Units(UNIT_ID))
    ensures GoodName(Trfc.Units(UNIT_TYPE)) && IsText(Trfc.Units(UNIT_TYPE))
    ensures GoodName(Trfc.Units(CALL_COUNT)) && IsText(Trfc.Units(CALL_COUNT))
    ensures IsText(Trfc.Units(BGRFC_DEST_SHIP))
  {
    hide GoodName, IsText, Trfc.Units;
    Trfc.GoodConstant(UNIT_ID);
    Trfc.GoodConstant(UNIT_TYPE);
    Trfc.GoodConstant(CALL_COUNT);
    Trfc.GoodConstant(BGRFC_DEST_SHIP);
  }

  lemma {:induction false} UnitNames(u: Unit)
    requires ValidUnitId(u.id) && (u.kind == TYPE_T || u.kind == TYPE_Q) && UnitIsText(u)
    ensures GoodNames(UnitFields(u)) && Trfc.AllText(UnitFields(u))
  {
    hide GoodName, IsText, Numbered, CallBytes, CallIsText, Utf16, QueueFields, CallFields, Trfc.Units, ValidUnitId, Str;
    ConstantNames();
    QueueNames(u.queues);
    CallNames(u.calls);
  }

  /** build_bgrfc_request over the calls a unit buffered. */
  function BuildUnit(version: seq<byte>, u: Unit): Result<seq<byte>> {
    if !ValidUnitId(u.id) || !(u.kind == TYPE_T || u.kind == TYPE_Q) then Err("ValueError")
    else if !UnitIsText(u) then Err("UnicodeEncodeError")
    else
      UnitNames(u);
      ConstantNames();
      Trfc.SystemFrame(version, Trfc.Units(BGRFC_DEST_SHIP), UnitFields(u))
  }

  // ---- the server ----

  datatype UnitState = InProcess | Confirmed

  datatype Key = Key(id: Name, kind: Name)

  /** One run of a handler, and whether it came through. */
  datatype Ran = Ran(function_: Name, ok: bool)

  datatype Server = Server(units: map<Key, UnitState>, runs: seq<Ran>)

  const FRESH := Server(map[], [])

  /** Which functions have a handler, and whether the handler of call i comes through. */
  type Handlers = Name -> bool
  type Fates = nat -> bool

  function TextOf(pairs: seq<Pair>, key: Name): Name {
    match Trfc.FirstNamed(pairs, key)
    case None => []
    case Some(value) => DecodeName(value)
  }

  /** _extract_raw_param_from_frame over the records of the frame. */
  function RawNamed(current: Option<Name>, recs: seq<Rec>, key: Name): Option<seq<byte>>
    decreases |recs|
  {
    if recs == [] then None
    else if recs[0].tag == TAG_PARAM_NAME then RawNamed(Some(DecodeName(recs[0].value)), recs[1..], key)
    else if recs[0].tag == TAG_PARAM_VALUE && current.Some? then
      if Upper(current.value) == key then Some(recs[0].value) else RawNamed(None, recs[1..], key)
    else RawNamed(current, recs[1..], key)
  }

  function CallAt(recs: seq<Rec>, i: nat): Option<seq<byte>> {
    RawNamed(None, recs, Numbered(CALL_PREFIX, i))
  }

  /** The handler to run for call i, when the call is there, names a function, and the function has one. */
  function Runnable(recs: seq<Rec>, i: nat, has: Handlers): Option<Name> {
    match CallAt(recs, i)
    case None => None
    case Some(b) =>
      if b == [] then None
      else
        match CallName(b)
        case None => None
        case Some(name) => if name == [] || !has(name) then None else Some(name)
  }

  datatype Log = Log(runs: seq<Ran>, failed: bool)

  /** Calls i to count - 1, stopping at the first that cannot be run or fails. */
  function RunCalls(recs: seq<Rec>, i: nat, count: nat, has: Handlers, fates: Fates): Log
    requires i <= count
    decreases count - i
  {
    if i == count then Log([], false)
    else
      match Runnable(recs, i, has)
      case None => Log([], true)
      case Some(name) =>
        if !fates(i) then Log([Ran(name, false)], true)
        else
          var rest := RunCalls(recs, i + 1, count, has, fates);
          Log([Ran(name, true)] + rest.runs, rest.failed)
  }

  function KindOf(pairs: seq<Pair>): Name {
    if TextOf(pairs, Trfc.Units(UNIT_TYPE)) == TYPE_Q then TYPE_Q else TYPE_T
  }

  /** How many calls the frame declares, none when the count is unreadable or negative. */
  function CountOf(pairs: seq<Pair>): Option<nat> {
    var text := TextOf(pairs, Trfc.Units(CALL_COUNT));
    if text == [] then Some(0)
    else
      match IntOf(text)
      case None => None
      case Some(n) => if n < 0 then None else Some(n)
  }

  function KeyOf(pairs: seq<Pair>): Key {
    Key(TextOf(pairs, Trfc.Units(UNIT_ID)), KindOf(pairs))
  }

  predicate IsDone(s: Server, key: Key) {
    key in s.units && s.units[key] == Confirmed
  }

  /** _dispatch_bgrfc_unit for a frame's values and records. */
  function ShipValues(s: Server, pairs: seq<Pair>, recs: seq<Rec>, has: Handlers, fates: Fates)
    : (r: (Server, Trfc.Reply))
  {
    var key := KeyOf(pairs);
    if !ValidUnitId(key.id) then (s, Trfc.RcFailure)
    else if IsDone(s, key) then (s, Trfc.RcExecuted)
    else
      var begun := s.(units := s.units[key := InProcess]);
      match CountOf(pairs)
      case None => (begun, Trfc.RcFailure)
      case Some(count) =>
        var log := RunCalls(recs, 0, count, has, fates);
        var ran := begun.(runs := s.runs + log.runs);
        if log.failed then (ran, Trfc.RcFailure)
        else (ran.(units := s.units[key := Confirmed]), Trfc.RcOk)
  }

  function Ship(s: Server, frame: seq<byte>, has: Handlers, fates: Fates, unpack: Unpacker)
    : (r: (Server, Option<Trfc.Reply>))
  {
    match Extracted(frame, map[], unpack)
    case Err(_) => (s, None)
    case Ok(w) =>
      var (t, reply) := ShipValues(s, w.pairs, Walk(frame).0, has, fates);
      (t, Some(reply))
  }

  /** Call i runs and comes through. */
  predicate Succeeds(recs: seq<Rec>, i: nat, has: Handlers, fates: Fates) {
    Runnable(recs, i, has).Some? && fates(i)
  }

  /** The call the run stopped at: the last one run when that failed, else the one after it. */
  function StoppedAt(i: nat, runs: seq<Ran>): nat {
    if LastFailed(runs) then i + |runs| - 1 else i + |runs|
  }

  predicate LastFailed(runs: seq<Ran>) {
    runs != [] && !runs[|runs| - 1].ok
  }

  /** The handlers run are the declared calls from the first on, in order; all but the last came
      through; and either all were run or the one stopped at is the first that does not succeed. */
  lemma {:induction false} RunsArePrefix(recs: seq<Rec>, i: nat, count: nat, has: Handlers, fates: Fates)
    requires i <= count
    ensures
      var log := RunCalls(recs, i, count, has, fates);
      && |log.runs| <= count - i
      && (forall j :: 0 <= j < |log.runs| ==>
            Runnable(recs, i + j, has) == Some(log.runs[j].function_) && log.runs[j].ok == fates(i + j))
      && (forall j :: 0 <= j < |log.runs| - 1 ==> log.runs[j].ok)
      && (!log.failed ==> |log.runs| == count - i && forall j :: i <= j < count ==> Succeeds(recs, j, has, fates))
      && (log.failed ==> StoppedAt(i, log.runs) < count && !Succeeds(recs, StoppedAt(i, log.runs), has, fates))
      && (log.failed && !LastFailed(log.runs) ==> Runnable(recs, StoppedAt(i, log.runs), has).None?)
    decreases count - i
  {
    hide Runnable;
    if i < count && Succeeds(recs, i, has, fates) {
      RunsArePrefix(recs, i + 1, count, has, fates);
      var rest := RunCalls(recs, i + 1, count, has, fates);
      RunsFrom(recs, i, count, has, fates, rest);
    }
  }

  lemma {:induction false} RunsFrom(recs: seq<Rec>, i: nat, count: nat, has: Handlers, fates: Fates, rest: Log)
    requires i < count && Succeeds(recs, i, has, fates) && rest == RunCalls(recs, i + 1, count, has, fates)
    requires forall j :: 0 <= j < |rest.runs| ==>
               Runnable(recs, i + 1 + j, has) == Some(rest.runs[j].function_) && rest.runs[j].ok == fates(i + 1 + j)
    requires forall j :: 0 <= j < |rest.runs| - 1 ==> rest.runs[j].ok
    ensures
      var log := RunCalls(recs, i, count, has, fates);
      && log.failed == rest.failed && |log.runs| == |rest.runs| + 1
      && (forall j :: 0 <= j < |log.runs| ==>
            Runnable(recs, i + j, has) == Some(log.runs[j].function_) && log.runs[j].ok == fates(i + j))
      && (forall j :: 0 <= j < |log.runs| - 1 ==> log.runs[j].ok)
      && StoppedAt(i, log.runs) == StoppedAt(i + 1, rest.runs) && LastFailed(log.runs) == LastFailed(rest.runs)
  {
    hide Runnable;
    var log := RunCalls(recs, i, count, has, fates);
    var first := Ran(Runnable(recs, i, has).value, true);
    assert log == Log([first] + rest.runs, rest.failed);
    hide RunCalls;
    forall j | 0 <= j < |log.runs|
      ensures Runnable(recs, i + j, has) == Some(log.runs[j].function_) && log.runs[j].ok == fates(i + j)
    {
      if j > 0 {
        assert log.runs[j] == rest.runs[j - 1];
        assert i + 1 + (j - 1) == i + j;
      }
    }
    forall j | 0 <= j < |log.runs| - 1 ensures log.runs[j].ok {
      if j > 0 {
        assert log.runs[j] == rest.runs[j - 1];
      }
    }
  }

  /** The unit is confirmed exactly when every declared call was present and succeeded. */
  lemma {:induction false} ConfirmedIff(s: Server, pairs: seq<Pair>, recs: seq<Rec>, has: Handlers, fates: Fates)
    requires ValidUnitId(KeyOf(pairs).id) && !IsDone(s, KeyOf(pairs))
    ensures
      var (t, reply) := ShipValues(s, pairs, recs, has, fates);
      && (IsDone(t, KeyOf(pairs)) <==> reply == Trfc.RcOk)
      && (reply == Trfc.RcOk <==>
            CountOf(pairs).Some? && forall i :: 0 <= i < CountOf(pairs).value ==> Succeeds(recs, i, has, fates))
  {
    hide ValidUnitId, KeyOf, RunCalls, Succeeds, Trfc.Units, IntOf, TextOf;
    if CountOf(pairs).Some? {
      RunsArePrefix(recs, 0, CountOf(pairs).value, has, fates);
    }
  }

  // ---- a unit built by the client, shipped to the server ----

  /** The raw extractor sees the same named values as the walk, for frames of scalars. */
  lemma {:induction false} RawScalars(fields: seq<Pair>, rest: seq<Rec>, key: Name)
    requires GoodNames(fields) && Trfc.AllText(fields)
    requires Trfc.FirstNamed(fields, key).Some?
    ensures RawNamed(None, Trfc.ScalarRecords(fields) + rest, key) == Trfc.FirstNamed(fields, key)
    decreases |fields|
  {
    hide Upper, GoodName, IsText, Utf16, DecodeName;
    var n := |fields| - 1;
    var front := fields[..n];
    var group := ScalarGroup(fields[n].name, fields[n].value);
    assert Trfc.ScalarRecords(fields) + rest == Trfc.ScalarRecords(front) + (group + rest);
    NamedSplit(fields, key);
    if Trfc.FirstNamed(front, key).Some? {
      RawScalars(front, group + rest, key);
    } else {
      RawSkip(front, group + rest, key);
      RawGroup(fields[n], rest, key);
    }
  }

  lemma {:induction false} NamedSplit(fields: seq<Pair>, key: Name)
    requires fields != []
    ensures
      var n := |fields| - 1;
      Trfc.FirstNamed(fields, key) ==
      if Trfc.FirstNamed(fields[..n], key).Some? then Trfc.FirstNamed(fields[..n], key)
      else if Upper(fields[n].name) == key then Some(fields[n].value)
      else None
  {
    hide Upper;
    var n := |fields| - 1;
    if n > 0 {
      NamedSplit(fields[1..], key);
      assert fields[1..][..n - 1] == fields[..n][1..] && fields[..n][0] == fields[0] && fields[1..][n - 1] == fields[n];
    } else {
      assert fields[1..] == [] && fields[..n] == [];
    }
  }

  lemma {:induction false} RawGroup(p: Pair, rest: seq<Rec>, key: Name)
    requires GoodName(p.name) && IsText(p.name)
    ensures RawNamed(None, ScalarGroup(p.name, p.value) + rest, key) ==
            if Upper(p.name) == key then Some(p.value) else RawNamed(None, rest, key)
  {
    NameBack(p.name);
    hide Upper, GoodName, IsText, Utf16, DecodeName;
    var recs := ScalarGroup(p.name, p.value) + rest;
    assert recs[1..][0] == Rec(TAG_PARAM_VALUE, p.value) && recs[1..][1..] == rest;
    assert RawNamed(None, recs, key) == RawNamed(Some(p.name), recs[1..], key);
  }

  lemma {:induction false} RawSkip(fields: seq<Pair>, rest: seq<Rec>, key: Name)
    requires GoodNames(fields) && Trfc.AllText(fields) && Trfc.FirstNamed(fields, key).None?
    ensures RawNamed(None, Trfc.ScalarRecords(fields) + rest, key) == RawNamed(None, rest, key)
    decreases |fields|
  {
    hide Upper, GoodName, IsText, Utf16, DecodeName;
    if fields == [] {
      assert Trfc.ScalarRecords(fields) + rest == rest;
    } else {
      var n := |fields| - 1;
      var front := fields[..n];
      var group := ScalarGroup(fields[n].name, fields[n].value);
      assert Trfc.ScalarRecords(fields) + rest == Trfc.ScalarRecords(front) + (group + rest);
      NamedSplit(fields, key);
      RawSkip(front, group + rest, key);
      RawGroup(fields[n], rest, key);
    }
  }

  lemma {:induction false} RawSilent(head: seq<Rec>, rest: seq<Rec>, key: Name)
    requires forall i :: 0 <= i < |head| ==> Silent(head[i].tag)
    ensures RawNamed(None, head + rest, key) == RawNamed(None, rest, key)
    decreases |head|
  {
    hide Upper, DecodeName;
    if head == [] {
      assert head + rest == rest;
    } else {
      assert (head + rest)[1..] == head[1..] + rest;
      RawSilent(head[1..], rest, key);
    }
  }

  /** Names of upper-case letters, digits and underscores are their own upper case. */
  predicate Capital(n: Name) {
    forall i :: 0 <= i < |n| ==> !(0x61 <= n[i] <= 0x7A)
  }

  lemma {:induction false} UpperCapital(n: Name)
    requires Capital(n)
    ensures Upper(n) == n
  {
    assert forall i :: 0 <= i < |n| ==> Upper(n)[i] == n[i];
  }

  lemma {:induction false} CapitalUnits(s: string)
    requires forall i :: 0 <= i < |s| ==> !('a' <= s[i] <= 'z')
    ensures Upper(Trfc.Units(s)) == Trfc.Units(s)
  {
    UpperCapital(Trfc.Units(s));
  }

  lemma {:induction false} CapitalNumbered(prefix: string, i: nat)
    requires forall j :: 0 <= j < |prefix| ==> !('a' <= prefix[j] <= 'z')
    ensures Upper(Numbered(prefix, i)) == Numbered(prefix, i)
  {
    StrBack(i);
    var n := Numbered(prefix, i);
    forall j | 0 <= j < |n| ensures !(0x61 <= n[j] <= 0x7A) {
      if j >= |prefix| {
        assert n[j] == Str(i)[j - |prefix|];
      }
    }
    UpperCapital(n);
  }

  /** The names of a unit frame are their own upper case and all different. */
  lemma {:induction false} UnitKeys(i: nat, j: nat)
    ensures Upper(Trfc.Units(UNIT_ID)) == Trfc.Units(UNIT_ID)
    ensures Upper(Trfc.Units(UNIT_TYPE)) == Trfc.Units(UNIT_TYPE)
    ensures Upper(Trfc.Units(CALL_COUNT)) == Trfc.Units(CALL_COUNT)
    ensures Upper(Numbered(QUEUE_PREFIX, j)) == Numbered(QUEUE_PREFIX, j)
    ensures Upper(Numbered(CALL_PREFIX, i)) == Numbered(CALL_PREFIX, i)
    ensures Trfc.Units(UNIT_ID) != Trfc.Units(UNIT_TYPE)
    ensures Trfc.Units(CALL_COUNT) !in {Trfc.Units(UNIT_ID), Trfc.Units(UNIT_TYPE), Numbered(QUEUE_PREFIX, j)}
    ensures Numbered(CALL_PREFIX, i) !in
            {Trfc.Units(UNIT_ID), Trfc.Units(UNIT_TYPE), Trfc.Units(CALL_COUNT), Numbered(QUEUE_PREFIX, j)}
    ensures Numbered(CALL_PREFIX, i) == Numbered(CALL_PREFIX, j) ==> i == j
  {
    hide Upper, Str;
    CapitalUnits(UNIT_ID);
    CapitalUnits(UNIT_TYPE);
    CapitalUnits(CALL_COUNT);
    CapitalNumbered(QUEUE_PREFIX, j);
    CapitalNumbered(CALL_PREFIX, i);
    StrBack(i);
    StrBack(j);
    assert |UNIT_ID| == 13 && |UNIT_TYPE| == 15 && |CALL_COUNT| == 16;
    assert Trfc.Units(UNIT_ID)[6] == 0x55 && Trfc.Units(UNIT_TYPE)[6] == 0x55;
    assert Trfc.Units(CALL_COUNT)[6] == 0x43 && Trfc.Units(CALL_COUNT)[11] == 0x43;
    assert Numbered(QUEUE_PREFIX, j)[6] == 0x51;
    assert Numbered(CALL_PREFIX, i)[6] == 0x43 && Numbered(CALL_PREFIX, i)[11] == Str(i)[0];
    if Numbered(CALL_PREFIX, i) == Numbered(CALL_PREFIX, j) {
      assert Numbered(CALL_PREFIX, i)[11..] == Str(i) && Numbered(CALL_PREFIX, j)[11..] == Str(j);
    }
  }

  lemma {:induction false} QueueKeys(qs: seq<Name>, key: Name)
    requires forall i :: 0 <= i < |qs| ==> IsText(qs[i])
    requires forall j: nat :: Upper(Numbered(QUEUE_PREFIX, j)) != key
    ensures Trfc.FirstNamed(QueueFields(qs), key).None?
  {
    hide Upper, Utf16, IsText, Numbered;
    if qs != [] {
      var n := |qs| - 1;
      QueueKeys(qs[..n], key);
      if qs[n] == [] {
        assert QueueFields(qs) == QueueFields(qs[..n]);
      } else {
        NamedSplit(QueueFields(qs), key);
      }
    }
  }

  lemma {:induction false} CallKeys(cs: seq<Call>, key: Name, i: nat)
    requires forall j :: 0 <= j < |cs| ==> CallIsText(cs[j])
    requires key == Numbered(CALL_PREFIX, i)
    ensures Trfc.FirstNamed(CallFields(cs), key) == if i < |cs| then Some(CallBytes(cs[i])) else None
  {
    if cs != [] {
      var n := |cs| - 1;
      CallKeys(cs[..n], key, i);
      UnitKeys(n, i);
      hide Upper, Numbered, CallBytes, CallIsText;
      NamedSplit(CallFields(cs), key);
    }
  }

  lemma {:induction false} NamedJoin(a: seq<Pair>, b: seq<Pair>, key: Name)
    ensures Trfc.FirstNamed(a + b, key) ==
            if Trfc.FirstNamed(a, key).Some? then Trfc.FirstNamed(a, key) else Trfc.FirstNamed(b, key)
  {
    hide Upper;
    if a == [] {
      assert a + b == b;
    } else {
      assert (a + b)[1..] == a[1..] + b;
      NamedJoin(a[1..], b, key);
    }
  }

  lemma {:induction false} NamedOne(p: Pair, key: Name)
    ensures Trfc.FirstNamed([p], key) == if Upper(p.name) == key then Some(p.value) else None
  {
    hide Upper;
    assert [p][1..] == [];
  }

  lemma {:induction false} NamedTwo(p: Pair, q: Pair, key: Name)
    ensures Trfc.FirstNamed([p, q], key) ==
            if Upper(p.name) == key then Some(p.value) else if Upper(q.name) == key then Some(q.value) else None
  {
    hide Upper, Trfc.FirstNamed;
    NamedOne(p, key);
    NamedOne(q, key);
    NamedJoin([p], [q], key);
    assert [p] + [q] == [p, q];
  }

  /** Looking a name up in the fields of a unit, part by part. */
  lemma {:induction false} UnitLookup(u: Unit, key: Name)
    requires ValidUnitId(u.id) && (u.kind == TYPE_T || u.kind == TYPE_Q) && UnitIsText(u)
    requires forall j: nat :: Upper(Numbered(QUEUE_PREFIX, j)) != key
    ensures
      IsText(u.id) && IsText(u.kind) && IsText(Str(|u.calls|)) &&
      Trfc.FirstNamed(UnitFields(u), key) ==
      if Upper(Trfc.Units(UNIT_ID)) == key then Some(Utf16(u.id))
      else if Upper(Trfc.Units(UNIT_TYPE)) == key then Some(Utf16(u.kind))
      else if u.calls == [] then None
      else if Upper(Trfc.Units(CALL_COUNT)) == key then Some(Utf16(Str(|u.calls|)))
      else Trfc.FirstNamed(CallFields(u.calls), key)
  {
    hide Upper, Utf16, Numbered, CallFields, QueueFields, Trfc.Units, CallIsText, ValidUnitId, Str, IsText, Trfc.FirstNamed;
    IdIsText(u.id);
    IdIsText(u.kind);
    StrIsText(|u.calls|);
    var head := [Pair(Trfc.Units(UNIT_ID), Utf16(u.id)), Pair(Trfc.Units(UNIT_TYPE), Utf16(u.kind))];
    NamedTwo(head[0], head[1], key);
    QueueKeys(u.queues, key);
    NamedJoin(head, QueueFields(u.queues), key);
    if u.calls == [] {
      assert UnitFields(u) == head + QueueFields(u.queues);
    } else {
      var count := Pair(Trfc.Units(CALL_COUNT), Utf16(Str(|u.calls|)));
      NamedOne(count, key);
      NamedJoin([count], CallFields(u.calls), key);
      NamedJoin(head + QueueFields(u.queues), [count] + CallFields(u.calls), key);
    }
  }

  lemma {:induction false} QueueNot(key: Name, i: nat)
    requires key in {Trfc.Units(UNIT_ID), Trfc.Units(UNIT_TYPE), Trfc.Units(CALL_COUNT), Numbered(CALL_PREFIX, i)}
    ensures forall j: nat :: Upper(Numbered(QUEUE_PREFIX, j)) != key
  {
    forall j: nat ensures Upper(Numbered(QUEUE_PREFIX, j)) != key {
      UnitKeys(i, j);
      assert Trfc.Units(UNIT_ID)[6] == 0x55 && Trfc.Units(UNIT_TYPE)[6] == 0x55 && Numbered(QUEUE_PREFIX, j)[6] == 0x51;
      hide Upper, Str;
    }
  }

  lemma {:induction false} StrGood(n: nat)
    ensures GoodName(Str(n)) && IsText(Str(n)) && DecodeName(Utf16(Str(n))) == Str(n)
  {
    StrBack(n);
    hide Str;
    NameBack(Str(n));
  }

  /** What the server reads out of the fields the client wrote: id, type, number of calls. */
  lemma {:induction false} UnitRead(u: Unit)
    requires ValidUnitId(u.id) && (u.kind == TYPE_T || u.kind == TYPE_Q) && UnitIsText(u)
    ensures TextOf(UnitFields(u), Trfc.Units(UNIT_ID)) == u.id && TextOf(UnitFields(u), Trfc.Units(UNIT_TYPE)) == u.kind
    ensures KeyOf(UnitFields(u)) == Key(u.id, u.kind)
    ensures CountOf(UnitFields(u)) == Some(|u.calls|)
  {
    hide Upper, Utf16, Numbered, CallFields, UnitFields, Trfc.Units, CallIsText, ValidUnitId, Str, IsText,
         Trfc.FirstNamed, GoodName, DecodeName, IntOf;
    UnitKeys(0, 0);
    QueueNot(Trfc.Units(UNIT_ID), 0);
    QueueNot(Trfc.Units(UNIT_TYPE), 0);
    QueueNot(Trfc.Units(CALL_COUNT), 0);
    UnitLookup(u, Trfc.Units(UNIT_ID));
    UnitLookup(u, Trfc.Units(UNIT_TYPE));
    UnitLookup(u, Trfc.Units(CALL_COUNT));
    IdIsText(u.id);
    IdIsText(u.kind);
    NameBack(u.id);
    NameBack(u.kind);
    StrGood(|u.calls|);
    StrBack(|u.calls|);
  }

  /** A name that is looked up as it was buffered: plain and not empty. */
  predicate Callable(c: Call) {
    c.function_ != [] && PlainName(c.function_)
  }

  /** Call i of the frame is call i of the unit. */
  lemma {:induction false} UnitCallAt(version: seq<byte>, u: Unit, i: nat)
    requires BuildUnit(version, u).Ok? && i < |u.calls|
    ensures CallIsText(u.calls[i]) && CallAt(Walk(BuildUnit(version, u).value).0, i) == Some(CallBytes(u.calls[i]))
  {
    hide Upper, Utf16, Numbered, CallFields, UnitFields, Trfc.Units, CallIsText, ValidUnitId, IsText, Trfc.FirstNamed,
         GoodName, DecodeName, Walk, Stream, AllValid, Trfc.ScalarRecords, CallBytes, RawNamed, Str;
    var key := Numbered(CALL_PREFIX, i);
    var fields := UnitFields(u);
    UnitNames(u);
    ConstantNames();
    UnitKeys(i, 0);
    QueueNot(key, i);
    UnitLookup(u, key);
    CallKeys(u.calls, key, i);
    var head := Trfc.FrameHead(version, Trfc.Units(BGRFC_DEST_SHIP));
    var recs := head + Trfc.ScalarRecords(fields);
    StreamBack(recs, []);
    assert Stream(recs) + [] == Stream(recs);
    RawSilent(head, Trfc.ScalarRecords(fields), key);
    assert Trfc.ScalarRecords(fields) + [] == Trfc.ScalarRecords(fields);
    RawScalars(fields, [], key);
  }

  lemma {:induction false} UnitRunnable(version: seq<byte>, u: Unit, i: nat, has: Handlers)
    requires BuildUnit(version, u).Ok? && i < |u.calls| && Callable(u.calls[i])
    ensures Runnable(Walk(BuildUnit(version, u).value).0, i, has) ==
            if has(u.calls[i].function_) then Some(u.calls[i].function_) else None
  {
    hide Walk, BuildUnit, CallAt, CallName, PlainName, CallIsText, Entries;
    UnitCallAt(version, u, i);
    CallNameIff(u.calls[i]);
    NotEmpty(u.calls[i]);
  }

  lemma {:induction false} NotEmpty(c: Call)
    requires CallIsText(c) && c.function_ != []
    ensures CallBytes(c) != []
  {
  }

  /** A unit is all or nothing as far as the store goes: shipping it runs its calls in order up to
      the first that does not succeed, and confirms it exactly when all of them did. */
  lemma {:induction false} UnitShipped(version: seq<byte>, u: Unit, s: Server, has: Handlers, fates: Fates, unpack: Unpacker)
    requires BuildUnit(version, u).Ok? && !IsDone(s, Key(u.id, u.kind))
    requires forall i :: 0 <= i < |u.calls| ==> Callable(u.calls[i])
    ensures
      var (t, reply) := Ship(s, BuildUnit(version, u).value, has, fates, unpack);
      var m := |t.runs| - |s.runs|;
      && 0 <= m <= |u.calls| && t.runs[..|s.runs|] == s.runs
      && (forall j :: 0 <= j < m ==> t.runs[|s.runs| + j] == Ran(u.calls[j].function_, fates(j)))
      && (forall j :: 0 <= j < m - 1 ==> fates(j))
      && (reply == Some(Trfc.RcOk) <==> forall i :: 0 <= i < |u.calls| ==> has(u.calls[i].function_) && fates(i))
      && (reply == Some(Trfc.RcOk) ==> m == |u.calls|)
      && (IsDone(t, Key(u.id, u.kind)) <==> reply == Some(Trfc.RcOk))
  {
    hide Walk, Extracted, RunCalls, UnitFields, KeyOf, CountOf, ValidUnitId, Runnable, Callable, UnitIsText, Trfc.Units,
         Trfc.SystemFrame, Trfc.AllText, GoodNames, IsText;
    var recs := Walk(BuildUnit(version, u).value).0;
    UnitRead(u);
    UnitNames(u);
    ConstantNames();
    FieldsGood(UnitFields(u));
    Trfc.SystemFrameBack(version, Trfc.Units(BGRFC_DEST_SHIP), UnitFields(u), unpack);
    RunsArePrefix(recs, 0, |u.calls|, has, fates);
    ConfirmedIff(s, UnitFields(u), recs, has, fates);
    forall i | 0 <= i < |u.calls|
      ensures Succeeds(recs, i, has, fates) <==> has(u.calls[i].function_) && fates(i)
      ensures Runnable(recs, i, has).Some? ==> Runnable(recs, i, has).value == u.calls[i].function_
    {
      UnitRunnable(version, u, i, has);
    }
    var log := RunCalls(recs, 0, |u.calls|, has, fates);
    var t := Ship(s, BuildUnit(version, u).value, has, fates, unpack).0;
    assert t.runs == s.runs + log.runs;
    forall j | 0 <= j < |log.runs| ensures log.runs[j] == Ran(u.calls[j].function_, fates(j)) {
      assert Runnable(recs, 0 + j, has) == Some(log.runs[j].function_);
    }
  }

  lemma {:induction false} FieldsGood(fields: seq<Pair>)
    requires GoodNames(fields)
    ensures forall i :: 0 <= i < |fields| ==> GoodName(fields[i].name)
  {
  }

  // ---- re-shipping and confirming ----

  /** Handlers are not undone by the server: when a unit stops short and is shipped again with
      success, every call before the one it stopped at has been run through twice, every other once. */
  lemma {:induction false} ReshipRepeats(version: seq<byte>, u: Unit, s: Server, has: Handlers, first: Fates,
                                         second: Fates, unpack: Unpacker)
    requires BuildUnit(version, u).Ok? && !IsDone(s, Key(u.id, u.kind))
    requires forall i :: 0 <= i < |u.calls| ==> Callable(u.calls[i])
    requires Ship(s, BuildUnit(version, u).value, has, first, unpack).1 != Some(Trfc.RcOk)
    requires forall i :: 0 <= i < |u.calls| ==> has(u.calls[i].function_) && second(i)
    ensures
      var frame := BuildUnit(version, u).value;
      var t := Ship(s, frame, has, first, unpack).0;
      var (v, reply) := Ship(t, frame, has, second, unpack);
      var m := |t.runs| - |s.runs|;
      && reply == Some(Trfc.RcOk) && 0 < m <= |u.calls|
      && |v.runs| == |s.runs| + m + |u.calls|
      && (forall j :: 0 <= j < m ==> v.runs[|s.runs| + j] == Ran(u.calls[j].function_, j < m - 1))
      && (forall j :: 0 <= j < |u.calls| ==> v.runs[|s.runs| + m + j] == Ran(u.calls[j].function_, true))
  {
    hide Walk, Ship, BuildUnit, Callable;
    var frame := BuildUnit(version, u).value;
    UnitShipped(version, u, s, has, first, unpack);
    var t := Ship(s, frame, has, first, unpack).0;
    UnitShipped(version, u, t, has, second, unpack);
    StopsAtFailure(version, u, s, has, first, unpack);
    var v := Ship(t, frame, has, second, unpack).0;
    var m := |t.runs| - |s.runs|;
    forall j | 0 <= j < m ensures v.runs[|s.runs| + j] == Ran(u.calls[j].function_, j < m - 1) {
      assert v.runs[..|t.runs|][|s.runs| + j] == t.runs[|s.runs| + j];
    }
  }

  /** With a handler for every call, a unit that does not go through ends at a handler that failed. */
  lemma {:induction false} StopsAtFailure(version: seq<byte>, u: Unit, s: Server, has: Handlers, fates: Fates, unpack: Unpacker)
    requires BuildUnit(version, u).Ok? && !IsDone(s, Key(u.id, u.kind))
    requires forall i :: 0 <= i < |u.calls| ==> Callable(u.calls[i]) && has(u.calls[i].function_)
    requires Ship(s, BuildUnit(version, u).value, has, fates, unpack).1 != Some(Trfc.RcOk)
    ensures
      var m := |Ship(s, BuildUnit(version, u).value, has, fates, unpack).0.runs| - |s.runs|;
      0 < m <= |u.calls| && !fates(m - 1)
  {
    hide Walk, Extracted, RunCalls, UnitFields, KeyOf, CountOf, ValidUnitId, Runnable, Callable, UnitIsText, Trfc.Units,
         Trfc.SystemFrame, Trfc.AllText, GoodNames, IsText;
    var recs := Walk(BuildUnit(version, u).value).0;
    UnitRead(u);
    UnitNames(u);
    ConstantNames();
    FieldsGood(UnitFields(u));
    Trfc.SystemFrameBack(version, Trfc.Units(BGRFC_DEST_SHIP), UnitFields(u), unpack);
    RunsArePrefix(recs, 0, |u.calls|, has, fates);
    var log := RunCalls(recs, 0, |u.calls|, has, fates);
    UnitRunnable(version, u, StoppedAt(0, log.runs), has);
  }

  /** BGRFC_DEST_CONFIRM takes the store's word for nothing: it confirms the unit it names. */
  function ConfirmValues(s: Server, pairs: seq<Pair>): (r: (Server, Trfc.Reply)) {
    var id := TextOf(pairs, Trfc.Units(UNIT_ID));
    var kind := TextOf(pairs, Trfc.Units(UNIT_TYPE));
    if |id| != 32 then (s, Trfc.RcFailure)
    else (s.(units := s.units[Key(id, if kind == [] then TYPE_T else kind) := Confirmed]), Trfc.RcOk)
  }

  function Confirm(s: Server, frame: seq<byte>, unpack: Unpacker): (r: (Server, Option<Trfc.Reply>)) {
    match Extracted(frame, map[], unpack)
    case Err(_) => (s, None)
    case Ok(w) =>
      var (t, reply) := ConfirmValues(s, w.pairs);
      (t, Some(reply))
  }

  // ---- the two sides as objects ----

  /** The unit handle: a context manager that buffers calls and submits them once, on a clean exit. */
  class UnitHandle {
    const id: Name
    const kind: Name
    const queues: seq<Name>
    var buffered: seq<Call>
    var submitted: bool

    constructor (id: Name, kind: Name, queues: seq<Name>)
      ensures this.id == id && this.kind == kind && this.queues == queues && buffered == [] && !submitted
    {
      this.id, this.kind, this.queues := id, kind, queues;
      buffered, submitted := [], false;
    }

    method Buffer(c: Call)
      modifies `buffered
      ensures buffered == old(buffered) + [c]
    {
      buffered := buffered + [c];
    }

    /** Nothing is sent when the block raised or the unit was submitted before; otherwise one frame. */
    method Exit(raised: bool, version: seq<byte>) returns (frame: Option<Result<seq<byte>>>)
      modifies `submitted
      ensures submitted == (old(submitted) || !raised)
      ensures frame == if raised || old(submitted) then None else Some(BuildUnit(version, Unit(id, kind, queues, buffered)))
    {
      if raised {
        return None;
      }
      if submitted {
        return None;
      }
      submitted := true;
      return Some(BuildUnit(version, Unit(id, kind, queues, buffered)));
    }
  }

  class UnitServer {
    var units: map<Key, UnitState>
    /** The handler runs so far. */
    var runs: seq<Ran>

    function View(): Server
      reads this
    {
      Server(units, runs)
    }

    constructor ()
      ensures View() == FRESH
    {
      units, runs := map[], [];
    }

    /** _dispatch_bgrfc_unit. */
    method Dispatch(frame: seq<byte>, has: Handlers, fates: Fates, unpack: Unpacker) returns (reply: Option<Trfc.Reply>)
      modifies this
      ensures (View(), reply) == Ship(old(View()), frame, has, fates, unpack)
    {
      hide Extracted, Walk, ValidUnitId, TextOf, Trfc.Units, IntOf, RunCalls;
      var extracted := Extracted(frame, map[], unpack);
      if extracted.Err? {
        return None;
      }
      var pairs := extracted.value.pairs;
      var key := KeyOf(pairs);
      if !ValidUnitId(key.id) {
        return Some(Trfc.RcFailure);
      }
      if key in units && units[key] == Confirmed {
        return Some(Trfc.RcExecuted);
      }
      units := units[key := InProcess];
      var count := CountOf(pairs);
      if count.None? {
        return Some(Trfc.RcFailure);
      }
      var failed := RunBuffered(Walk(frame).0, count.value, has, fates);
      if failed {
        return Some(Trfc.RcFailure);
      }
      assert units[key := Confirmed] == old(units)[key := Confirmed];
      units := units[key := Confirmed];
      return Some(Trfc.RcOk);
    }

    /** _dispatch_bgrfc_confirm. */
    method DispatchConfirm(frame: seq<byte>, unpack: Unpacker) returns (reply: Option<Trfc.Reply>)
      modifies `units
      ensures (View(), reply) == Confirm(old(View()), frame, unpack)
    {
      hide Extracted, TextOf, Trfc.Units;
      var extracted := Extracted(frame, map[], unpack);
      if extracted.Err? {
        return None;
      }
      var id := TextOf(extracted.value.pairs, Trfc.Units(UNIT_ID));
      var kind := TextOf(extracted.value.pairs, Trfc.Units(UNIT_TYPE));
      if kind == [] {
        kind := TYPE_T;
      }
      if |id| != 32 {
        return Some(Trfc.RcFailure);
      }
      units := units[Key(id, kind) := Confirmed];
      return Some(Trfc.RcOk);
    }

    /** The loop over the declared calls, left at the first error. */
    method RunBuffered(recs: seq<Rec>, count: nat, has: Handlers, fates: Fates) returns (failed: bool)
      modifies `runs
      ensures
        var log := RunCalls(recs, 0, count, has, fates);
        runs == old(runs) + log.runs && failed == log.failed
    {
      hide Runnable;
      ghost var all := RunCalls(recs, 0, count, has, fates);
      for i := 0 to count
        invariant runs + RunCalls(recs, i, count, has, fates).runs == old(runs) + all.runs
        invariant RunCalls(recs, i, count, has, fates).failed == all.failed
      {
        var name := Runnable(recs, i, has);
        if name.None? {
          assert runs + [] == runs;
          return true;
        }
        ghost var rest := RunCalls(recs, i + 1, count, has, fates).runs;
        assert runs + ([Ran(name.value, true)] + rest) == runs + [Ran(name.value, true)] + rest;
        runs := runs + [Ran(name.value, fates(i))];
        if !fates(i) {
          return true;
        }
      }
      assert runs + [] == runs;
      return false;
    }
  }
}
