/** Whole histories of background units: shipments and confirmations reaching one server (server.py). */
module UnitRuns {
  import opened Bits
  import opened Tlv
  import opened Leaves
  import opened Pairs
  import opened Bgrfc
  import Trfc

  /** What reaches the server: a unit, with the handlers there are and how each call's run ends, or the
      confirmation of one. Either may carry any bytes. */
  datatype Event =
    | Shipment(frame: seq<byte>, has: Handlers, fates: Fates)
    | Confirmation(frame: seq<byte>)

  function Handled(s: Server, e: Event, unpack: Unpacker): (r: (Server, Option<Trfc.Reply>)) {
    match e
    case Shipment(frame, has, fates) => Ship(s, frame, has, fates, unpack)
    case Confirmation(frame) => Confirm(s, frame, unpack)
  }

  /** The server after the first k events. */
  function At(es: seq<Event>, k: nat, unpack: Unpacker): Server
    requires k <= |es|
  {
    if k == 0 then FRESH else Handled(At(es, k - 1, unpack), es[k - 1], unpack).0
  }

  function AnswerAt(es: seq<Event>, k: nat, unpack: Unpacker): Option<Trfc.Reply>
    requires k < |es|
  {
    Handled(At(es, k, unpack), es[k], unpack).1
  }

  /** The event ships the unit of this key. */
  predicate Ships(e: Event, key: Key, unpack: Unpacker) {
    && e.Shipment? && ValidUnitId(key.id)
    && var w := Extracted(e.frame, map[], unpack);
    && w.Ok? && KeyOf(w.value.pairs) == key
  }

  /** The key a confirmation names. */
  function ConfirmedKey(pairs: seq<Pair>): Key {
    var kind := TextOf(pairs, Trfc.Units(UNIT_TYPE));
    Key(TextOf(pairs, Trfc.Units(UNIT_ID)), if kind == [] then TYPE_T else kind)
  }

  predicate Confirms(e: Event, key: Key, unpack: Unpacker) {
    && e.Confirmation? && |key.id| == 32
    && var w := Extracted(e.frame, map[], unpack);
    && w.Ok? && ConfirmedKey(w.value.pairs) == key
  }

  /** Event k ships the unit and is answered with success. */
  predicate Acknowledged(es: seq<Event>, k: nat, key: Key, unpack: Unpacker)
    requires k < |es|
  {
    Ships(es[k], key, unpack) && AnswerAt(es, k, unpack) == Some(Trfc.RcOk)
  }

  // ---- one event ----

  lemma {:induction false} ShipStep(s: Server, pairs: seq<Pair>, recs: seq<Rec>, has: Handlers, fates: Fates, key: Key)
    ensures
      var (t, reply) := ShipValues(s, pairs, recs, has, fates);
      var own := KeyOf(pairs) == key && ValidUnitId(key.id);
      && (IsDone(t, key) <==> IsDone(s, key) || (own && reply == Trfc.RcOk))
      && (own && IsDone(s, key) ==> t == s && reply == Trfc.RcExecuted)
      && (own && !IsDone(s, key) ==> reply != Trfc.RcExecuted)
  {
    hide ValidUnitId, KeyOf, CountOf, RunCalls;
  }

  lemma {:induction false} ConfirmStep(s: Server, pairs: seq<Pair>, key: Key)
    ensures
      var (t, reply) := ConfirmValues(s, pairs);
      && (IsDone(t, key) <==> IsDone(s, key) || (|key.id| == 32 && ConfirmedKey(pairs) == key))
      && t.runs == s.runs
  {
    hide TextOf, Trfc.Units;
  }

  /** A unit is done after an event exactly when it was before, or the event ran it through or
      confirmed it; a unit that is done is not touched by shipping it. */
  lemma {:induction false} EventStep(s: Server, e: Event, key: Key, unpack: Unpacker)
    ensures
      var (t, reply) := Handled(s, e, unpack);
      && (IsDone(t, key) <==>
            IsDone(s, key) || (Ships(e, key, unpack) && reply == Some(Trfc.RcOk)) || Confirms(e, key, unpack))
      && (Ships(e, key, unpack) && IsDone(s, key) ==> t == s && reply == Some(Trfc.RcExecuted))
      && (Ships(e, key, unpack) && !IsDone(s, key) ==> reply != Some(Trfc.RcExecuted))
  {
    hide ShipValues, ConfirmValues, KeyOf, ConfirmedKey, ValidUnitId, IsDone, Walk;
    var w := Extracted(e.frame, map[], unpack);
    hide Extracted;
    if w.Ok? {
      match e
      case Shipment(frame, has, fates) => ShipStep(s, w.value.pairs, Walk(frame).0, has, fates, key);
      case Confirmation(_) => ConfirmStep(s, w.value.pairs, key);
    }
  }

  // ---- whole histories ----

  /** In every history a unit is done exactly when one of its shipments was acknowledged or a
      confirmation of it came. */
  lemma {:induction false} DoneIff(es: seq<Event>, n: nat, key: Key, unpack: Unpacker)
    requires n <= |es|
    ensures IsDone(At(es, n, unpack), key) <==>
            exists k :: 0 <= k < n && (Acknowledged(es, k, key, unpack) || Confirms(es[k], key, unpack))
    decreases n
  {
    hide Handled, Ships, Confirms;
    if n > 0 {
      DoneIff(es, n - 1, key, unpack);
      EventStep(At(es, n - 1, unpack), es[n - 1], key, unpack);
      assert Acknowledged(es, n - 1, key, unpack) <==>
             Ships(es[n - 1], key, unpack) && Handled(At(es, n - 1, unpack), es[n - 1], unpack).1 == Some(Trfc.RcOk);
    }
  }

  /** Once a unit is done it stays so, and shipping it again runs no handler and changes nothing. */
  lemma {:induction false} NothingRunsAfterDone(es: seq<Event>, i: nat, j: nat, key: Key, unpack: Unpacker)
    requires i <= j < |es| && IsDone(At(es, i, unpack), key)
    ensures IsDone(At(es, j, unpack), key)
    ensures Ships(es[j], key, unpack) ==>
              At(es, j + 1, unpack) == At(es, j, unpack) && AnswerAt(es, j, unpack) == Some(Trfc.RcExecuted)
  {
    hide Handled, Ships, Confirms, IsDone, At;
    DoneIff(es, i, key, unpack);
    DoneIff(es, j, key, unpack);
    EventStep(At(es, j, unpack), es[j], key, unpack);
    AtNext(es, j, unpack);
  }

  lemma {:induction false} AtNext(es: seq<Event>, k: nat, unpack: Unpacker)
    requires k < |es|
    ensures At(es, k + 1, unpack) == Handled(At(es, k, unpack), es[k], unpack).0
  {
  }

  /** At most one shipment of a unit is ever acknowledged. */
  lemma {:induction false} AcknowledgedOnce(es: seq<Event>, i: nat, j: nat, key: Key, unpack: Unpacker)
    requires i < |es| && j < |es| && Acknowledged(es, i, key, unpack) && Acknowledged(es, j, key, unpack)
    ensures i == j
  {
    hide Handled, Ships, Confirms, IsDone, At;
    if i != j {
      var first, later := if i < j then i else j, if i < j then j else i;
      DoneIff(es, first + 1, key, unpack);
      NothingRunsAfterDone(es, first + 1, later, key, unpack);
    }
  }

  /** The acknowledged shipment ran every call its frame declares, in order, each through. */
  lemma {:induction false} AcknowledgedRan(es: seq<Event>, k: nat, key: Key, unpack: Unpacker)
    requires k < |es| && Acknowledged(es, k, key, unpack)
    ensures
      var e, before, after := es[k], At(es, k, unpack).runs, At(es, k + 1, unpack).runs;
      var count := CountOf(Extracted(e.frame, map[], unpack).value.pairs);
      && count.Some? && |after| == |before| + count.value && after[..|before|] == before
      && (forall i :: 0 <= i < count.value ==>
            after[|before| + i].ok && Runnable(Walk(e.frame).0, i, e.has) == Some(after[|before| + i].function_))
  {
    hide At, Walk, Extracted, ShipValues, KeyOf, CountOf, ValidUnitId, Runnable;
    AtNext(es, k, unpack);
    var e := es[k];
    ShippedRuns(At(es, k, unpack), Extracted(e.frame, map[], unpack).value.pairs, Walk(e.frame).0, e.has, e.fates);
  }

  lemma {:induction false} ShippedRuns(s: Server, pairs: seq<Pair>, recs: seq<Rec>, has: Handlers, fates: Fates)
    requires ShipValues(s, pairs, recs, has, fates).1 == Trfc.RcOk
    ensures
      var after, count := ShipValues(s, pairs, recs, has, fates).0.runs, CountOf(pairs);
      && count.Some? && |after| == |s.runs| + count.value && after[..|s.runs|] == s.runs
      && (forall i :: 0 <= i < count.value ==>
            after[|s.runs| + i].ok && Runnable(recs, i, has) == Some(after[|s.runs| + i].function_))
  {
    hide RunCalls, KeyOf, CountOf, ValidUnitId, Runnable;
    var n := CountOf(pairs).value;
    RunsArePrefix(recs, 0, n, has, fates);
    var log := RunCalls(recs, 0, n, has, fates);
    assert ShipValues(s, pairs, recs, has, fates).0.runs == s.runs + log.runs;
    hide ShipValues;
    forall i | 0 <= i < n ensures log.runs[i].ok && Runnable(recs, i, has) == Some(log.runs[i].function_) {
      assert Succeeds(recs, i, has, fates) && log.runs[i].ok == fates(0 + i);
      assert Runnable(recs, 0 + i, has) == Some(log.runs[i].function_);
    }
  }

  /** What RFC_EXECUTED says about a unit: that it ran in full before, exactly when no confirmation of
      it came ahead of its first acknowledged shipment. */
  lemma {:induction false} ExecutedRanIff(es: seq<Event>, j: nat, key: Key, unpack: Unpacker)
    requires j < |es| && Ships(es[j], key, unpack) && AnswerAt(es, j, unpack) == Some(Trfc.RcExecuted)
    ensures
      (exists k :: 0 <= k < j && Acknowledged(es, k, key, unpack)) <==>
      (forall c :: 0 <= c < j && Confirms(es[c], key, unpack) ==>
         exists k :: 0 <= k < c && Acknowledged(es, k, key, unpack))
  {
    hide Handled, Ships, Confirms, IsDone, At, Acknowledged;
    EventStep(At(es, j, unpack), es[j], key, unpack);
    DoneIff(es, j, key, unpack);
    if k :| 0 <= k < j && Acknowledged(es, k, key, unpack) {
      forall c | 0 <= c < j && Confirms(es[c], key, unpack)
        ensures exists k :: 0 <= k < c && Acknowledged(es, k, key, unpack)
      {
        ConfirmedFirst(es, c, k, key, unpack);
      }
    }
  }

  /** Nothing is acknowledged behind a confirmation. */
  lemma {:induction false} ConfirmedFirst(es: seq<Event>, c: nat, k: nat, key: Key, unpack: Unpacker)
    requires c < |es| && k < |es| && Confirms(es[c], key, unpack) && Acknowledged(es, k, key, unpack)
    ensures k < c
  {
    NotBoth(es, k, key, unpack);
    hide Handled, IsDone, At, Ships, Confirms;
    if c < k {
      DoneIff(es, c + 1, key, unpack);
      NothingRunsAfterDone(es, c + 1, k, key, unpack);
    }
  }

  lemma {:induction false} NotBoth(es: seq<Event>, k: nat, key: Key, unpack: Unpacker)
    requires k < |es| && Acknowledged(es, k, key, unpack)
    ensures !Confirms(es[k], key, unpack)
  {
    hide Extracted, AnswerAt, KeyOf, ConfirmedKey, ValidUnitId;
  }

  /** The server object lives through a history as the functions above say. */
  method Serve(server: UnitServer, es: seq<Event>, unpack: Unpacker) returns (answers: seq<Option<Trfc.Reply>>)
    requires server.View() == FRESH
    modifies server
    ensures server.View() == At(es, |es|, unpack)
    ensures |answers| == |es| && forall k :: 0 <= k < |es| ==> answers[k] == AnswerAt(es, k, unpack)
  {
    hide Ship, Confirm;
    answers := [];
    for k := 0 to |es|
      invariant server.View() == At(es, k, unpack)
      invariant |answers| == k && forall i :: 0 <= i < k ==> answers[i] == AnswerAt(es, i, unpack)
    {
      var answer: Option<Trfc.Reply>;
      match es[k] {
        case Shipment(frame, has, fates) => answer := server.Dispatch(frame, has, fates, unpack);
        case Confirmation(frame) => answer := server.DispatchConfirm(frame, unpack);
      }
      answers := answers + [answer];
    }
  }

  // ---- two histories that show what is not promised ----

  const NOUGHTS: Name := Repeat(32, NOUGHT)
  const NAME_A: Name := [0x41]
  const NAME_B: Name := [0x42]
  const TWO_CALLS: Unit := Unit(NOUGHTS, TYPE_T, [], [Call(NAME_A, []), Call(NAME_B, [])])
  const NO_CALLS: Unit := Unit(NOUGHTS, TYPE_T, [], [])
  const BGRFC_DEST_CONFIRM: string := "BGRFC_DEST_CONFIRM"

  predicate AnyHandler(name: Name) {
    true
  }

  predicate AllButSecond(i: nat) {
    i != 1
  }

  predicate All(i: nat) {
    true
  }

  lemma {:induction false} FieldsSmall(fields: seq<Pair>)
    requires Trfc.AllText(fields)
    requires forall i :: 0 <= i < |fields| ==> |fields[i].name| < 0x8000_0000 && |fields[i].value| < 0x1_0000_0000
    ensures AllValid(Trfc.ScalarRecords(fields))
  {
    if fields != [] {
      FieldsSmall(fields[..|fields| - 1]);
      hide Utf16, IsText;
    }
  }

  lemma {:induction false} FrameSmall(system: string, fields: seq<Pair>)
    requires 0 < |system| < 100 && system[|system| - 1] != ' '
    requires forall i :: 0 <= i < |system| ==> '\0' < system[i] < (127 as char)
    requires Trfc.AllText(fields)
    requires forall i :: 0 <= i < |fields| ==> |fields[i].name| < 0x8000_0000 && |fields[i].value| < 0x1_0000_0000
    ensures IsText(Trfc.Units(system)) && Trfc.SystemFrame([], Trfc.Units(system), fields).Ok?
  {
    Trfc.GoodConstant(system);
    FieldsSmall(fields);
    hide Trfc.ScalarRecords, IsText, Utf16, Stream;
    assert AllValid(Trfc.FrameHead([], Trfc.Units(system)));
  }

  lemma {:induction false} TextUnits()
    ensures IsText(NAME_A) && IsText(NAME_B) && ValidUnitId(NOUGHTS)
    ensures UnitIsText(TWO_CALLS) && UnitIsText(NO_CALLS) && PlainName(NAME_A) && PlainName(NAME_B)
  {
  }

  lemma {:induction false} StrSmall()
    ensures |Str(0)| == 1 && |Str(1)| == 1 && |Str(2)| == 1
  {
  }

  lemma {:induction false} TwoCallFields()
    ensures ValidUnitId(TWO_CALLS.id) && UnitIsText(TWO_CALLS)
    ensures forall i :: 0 <= i < |UnitFields(TWO_CALLS)| ==>
              |UnitFields(TWO_CALLS)[i].name| < 100 && |UnitFields(TWO_CALLS)[i].value| < 100
  {
    TextUnits();
    StrSmall();
    hide ValidUnitId, IsText, Str, Utf16;
    var a, b := TWO_CALLS.calls[0], TWO_CALLS.calls[1];
    assert CallBytes(a) == Utf16(NAME_A) + [] && CallBytes(b) == Utf16(NAME_B) + [];
    hide CallBytes;
    assert [a][..0] == [] && TWO_CALLS.calls[..1] == [a];
    assert CallFields([a]) == CallFields([]) + [Pair(Numbered(CALL_PREFIX, 0), CallBytes(a))];
    assert CallFields(TWO_CALLS.calls) == CallFields([a]) + [Pair(Numbered(CALL_PREFIX, 1), CallBytes(b))];
    assert QueueFields([]) == [];
    hide CallFields, QueueFields;
  }

  lemma {:induction false} TwoCallsBuilds()
    ensures BuildUnit([], TWO_CALLS).Ok? && forall i :: 0 <= i < 2 ==> Callable(TWO_CALLS.calls[i])
  {
    TextUnits();
    TwoCallFields();
    UnitNames(TWO_CALLS);
    hide ValidUnitId, UnitIsText, UnitFields, PlainName, IsText, Trfc.SystemFrame;
    FrameSmall(BGRFC_DEST_SHIP, UnitFields(TWO_CALLS));
  }

  /** A handler that fails once: the handlers before it run twice, although the unit is acknowledged
      once and is called a unit of work. */
  lemma {:induction false} OneFailureRunsTwice(unpack: Unpacker)
    ensures BuildUnit([], TWO_CALLS).Ok?
    ensures
      var frame := BuildUnit([], TWO_CALLS).value;
      var es := [Shipment(frame, AnyHandler, AllButSecond), Shipment(frame, AnyHandler, All)];
      && AnswerAt(es, 0, unpack) != Some(Trfc.RcOk) && AnswerAt(es, 1, unpack) == Some(Trfc.RcOk)
      && At(es, 2, unpack).runs == [Ran(NAME_A, true), Ran(NAME_B, false), Ran(NAME_A, true), Ran(NAME_B, true)]
  {
    TwoCallsBuilds();
    hide BuildUnit, Ship, Callable;
    var frame := BuildUnit([], TWO_CALLS).value;
    var has: Handlers, first: Fates, second: Fates := AnyHandler, AllButSecond, All;
    UnitShipped([], TWO_CALLS, FRESH, has, first, unpack);
    assert has(TWO_CALLS.calls[1].function_) && !first(1);
    StopsAtFailure([], TWO_CALLS, FRESH, has, first, unpack);
    ReshipRepeats([], TWO_CALLS, FRESH, has, first, second, unpack);
    var t := Ship(FRESH, frame, has, first, unpack).0;
    var runs := Ship(t, frame, has, second, unpack).0.runs;
    assert |t.runs| == 2;
    assert TWO_CALLS.calls[0].function_ == NAME_A && TWO_CALLS.calls[1].function_ == NAME_B;
    assert runs == [Ran(NAME_A, true), Ran(NAME_B, false), Ran(NAME_A, true), Ran(NAME_B, true)];
    var es := [Shipment(frame, has, first), Shipment(frame, has, second)];
    AtNext(es, 0, unpack);
    AtNext(es, 1, unpack);
  }

  /** A confirmation that comes first: the unit is answered as executed and never run. */
  lemma {:induction false} ConfirmedUnseen(unpack: Unpacker)
    ensures BuildUnit([], TWO_CALLS).Ok? && ConfirmFrame().Ok?
    ensures
      var key := Key(NOUGHTS, TYPE_T);
      var es := [Confirmation(ConfirmFrame().value), Shipment(BuildUnit([], TWO_CALLS).value, AnyHandler, All)];
      && Ships(es[1], key, unpack) && AnswerAt(es, 1, unpack) == Some(Trfc.RcExecuted)
      && At(es, 2, unpack).runs == []
  {
    TwoCallsBuilds();
    NoCallFields();
    FrameSmall(BGRFC_DEST_CONFIRM, UnitFields(NO_CALLS));
    ConfirmRead(unpack);
    ShipmentRead(unpack);
    hide BuildUnit, ConfirmFrame, Ship, Extracted, KeyOf, ConfirmedKey;
    var key := Key(NOUGHTS, TYPE_T);
    var es := [Confirmation(ConfirmFrame().value), Shipment(BuildUnit([], TWO_CALLS).value, AnyHandler, All)];
    assert Confirms(es[0], key, unpack) && Ships(es[1], key, unpack);
    hide Confirms, Ships;
    DoneIff(es, 1, key, unpack);
    NothingRunsAfterDone(es, 1, 1, key, unpack);
    assert At(es, 1, unpack) == Confirm(FRESH, ConfirmFrame().value, unpack).0;
    ConfirmRunsNothing(FRESH, ConfirmFrame().value, unpack);
  }

  /** A confirmation of the unit under the names the server reads. */
  function ConfirmFrame(): Result<seq<byte>> {
    ConfirmText();
    Trfc.SystemFrame([], Trfc.Units(BGRFC_DEST_CONFIRM), UnitFields(NO_CALLS))
  }

  lemma {:induction false} ConfirmText()
    ensures ValidUnitId(NO_CALLS.id) && UnitIsText(NO_CALLS)
    ensures Trfc.AllText(UnitFields(NO_CALLS)) && IsText(Trfc.Units(BGRFC_DEST_CONFIRM))
  {
    TextUnits();
    UnitNames(NO_CALLS);
    hide UnitFields, IsText, ValidUnitId, UnitIsText;
    Trfc.GoodConstant(BGRFC_DEST_CONFIRM);
  }

  lemma {:induction false} NoCallFields()
    ensures ValidUnitId(NO_CALLS.id) && UnitIsText(NO_CALLS) && Trfc.AllText(UnitFields(NO_CALLS))
    ensures forall i :: 0 <= i < |UnitFields(NO_CALLS)| ==>
              |UnitFields(NO_CALLS)[i].name| < 100 && |UnitFields(NO_CALLS)[i].value| < 100
  {
    TextUnits();
    UnitNames(NO_CALLS);
    hide ValidUnitId, IsText, Str, Utf16;
  }

  lemma {:induction false} ConfirmRunsNothing(s: Server, frame: seq<byte>, unpack: Unpacker)
    ensures Confirm(s, frame, unpack).0.runs == s.runs
  {
    hide Extracted, TextOf, Trfc.Units;
  }

  lemma {:induction false} ConfirmRead(unpack: Unpacker)
    requires ConfirmFrame().Ok?
    ensures
      var w := Extracted(ConfirmFrame().value, map[], unpack);
      w.Ok? && ConfirmedKey(w.value.pairs) == Key(NOUGHTS, TYPE_T)
  {
    hide Extracted, TextOf, UnitFields, Trfc.Units, IsText, Trfc.SystemFrame, Trfc.AllText, ValidUnitId, UnitIsText;
    ConfirmText();
    UnitNames(NO_CALLS);
    FieldsGood(UnitFields(NO_CALLS));
    Trfc.SystemFrameBack([], Trfc.Units(BGRFC_DEST_CONFIRM), UnitFields(NO_CALLS), unpack);
    UnitRead(NO_CALLS);
  }

  lemma {:induction false} ShipmentRead(unpack: Unpacker)
    requires BuildUnit([], TWO_CALLS).Ok?
    ensures ValidUnitId(NOUGHTS)
    ensures
      var w := Extracted(BuildUnit([], TWO_CALLS).value, map[], unpack);
      w.Ok? && KeyOf(w.value.pairs) == Key(NOUGHTS, TYPE_T)
  {
    TextUnits();
    UnitNames(TWO_CALLS);
    ConstantNames();
    UnitRead(TWO_CALLS);
    FieldsGood(UnitFields(TWO_CALLS));
    hide Extracted, KeyOf, UnitFields, Trfc.Units, IsText, Trfc.SystemFrame, Trfc.AllText, ValidUnitId, UnitIsText;
    Trfc.SystemFrameBack([], Trfc.Units(BGRFC_DEST_SHIP), UnitFields(TWO_CALLS), unpack);
  }
}
