/** Tables the client sent that come back under the id it gave them instead of a name (invoke.py). */
module ReturnedTables {
  import opened Bits
  import opened Words
  import opened Tlv
  import opened Leaves
  import opened Layouts
  import opened Pairs
  import opened Messages
  import Calls

  const DELTA_OPCODE: nat := 10

  /** Opcode, table id and row count. */
  function DeltaValue(id: nat, n: nat): (b: seq<byte>)
    ensures |b| == 12
  {
    BigEndianBytes(DELTA_OPCODE, 4) + BigEndianBytes(id, 4) + BigEndianBytes(n, 4)
  }

  /** A table under its id, as a server sends it back: no name, no sizes, its rows, its own end tag. */
  function DeltaGroup(id: nat, size: nat, all: seq<byte>, n: nat, tag: nat): seq<Rec> {
    [Rec(TAG_TABLE_DELTA, DeltaValue(id, n))] + RowRecords(tag, all, size, n) + [Rec(TAG_TABLE_DELTA_END, [])]
  }

  lemma {:induction false} IdBack(id: nat, n: nat)
    requires id < LIMIT32
    ensures BigEndian(DeltaValue(id, n)[4..8]) == id
  {
    Pow256Values();
    BigEndianRoundTrip(id, 4);
    assert DeltaValue(id, n)[4..8] == BigEndianBytes(id, 4);
  }

  /** A walk that comes to a table whose id it knows reports what went before, and then the rows under the
      name kept for the id. */
  lemma {:induction false} DeltaFed(w: Walker, id: nat, size: nat, all: seq<byte>, n: nat, tag: nat, dm: map<nat, Name>, unpack: Unpacker)
    requires Clean(w) && id in dm && id < LIMIT32 && |all| == n * size
    requires tag == TAG_TABLE_CONTENT || tag == TAG_TABLE_CONTENT_ALT
    ensures
      var r := Fed(w, DeltaGroup(id, size, all, n, tag), dm, unpack);
      && r.Ok? && Clean(r.value) && r.value.counts == w.counts
      && Settled(r.value) == Settled(w) + [Pair(dm[id], all)]
  {
    hide DeltaValue, RowRecords;
    IdBack(id, n);
    var first, last := Rec(TAG_TABLE_DELTA, DeltaValue(id, n)), Rec(TAG_TABLE_DELTA_END, []);
    var e := Step(w, first, dm, unpack).value;
    assert Step(w, first, dm, unpack) == Ok(e) && e.inTable && e.name == Some(dm[id]);
    assert e.rows == [] && e.pairs == Settled(w) && !e.lzSeen && e.lz == [] && e.counts == w.counts;
    var full := e.(rows := e.rows + all[..n * size]);
    assert [] + all[..n * size] == all;
    var done := Step(full, last, dm, unpack);
    assert done.Ok? && !done.value.inTable && done.value.pairs == e.pairs + [Pair(dm[id], all)];
    hide Step;
    FedOne(w, first, dm, unpack);
    FedOne(full, last, dm, unpack);
    RowsFed(e, tag, all, size, n, dm, unpack);
    hide Fed;
    FedAppend(w, [first], RowRecords(tag, all, size, n), dm, unpack);
    FedAppend(w, [first] + RowRecords(tag, all, size, n), [last], dm, unpack);
  }

  // ---- the ids the client keeps ----

  lemma {:induction false} IdsNumbered(params: seq<Param>, args: Args, k: nat)
    requires k <= |params|
    ensures forall id :: id in DmTableIds(params, args, k) <==> 1 <= id <= |DmTableIds(params, args, k)|
  {
    hide Upper;
    if k > 0 {
      IdsNumbered(params, args, k - 1);
    }
  }

  /** An id once given keeps its name. */
  lemma {:induction false} IdsKept(params: seq<Param>, args: Args, k: nat, n: nat)
    requires k <= n <= |params|
    ensures forall id <- DmTableIds(params, args, k) ::
              id in DmTableIds(params, args, n) && DmTableIds(params, args, n)[id] == DmTableIds(params, args, k)[id]
    decreases n
  {
    hide Upper;
    if k < n {
      IdsKept(params, args, k, n - 1);
      IdsNumbered(params, args, n - 1);
    }
  }

  lemma {:induction false} BuiltUpTo(params: seq<Param>, args: Args, k: nat, n: nat)
    requires k <= n <= |params| && Built(CLIENT, params, args, n).Ok?
    ensures Built(CLIENT, params, args, k).Ok?
    decreases n
  {
    hide Group, Included, Upper;
    if k < n {
      BuiltUpTo(params, args, k, n - 1);
    }
  }

  /** The id a request sends table k under. */
  function SentId(params: seq<Param>, args: Args, k: nat): nat
    requires k < |params| && Built(CLIENT, params, args, |params|).Ok?
  {
    BuiltUpTo(params, args, k, |params|);
    Built(CLIENT, params, args, k).value.tables + 1
  }

  /** The group of table k stands in the request under that id, and the client keeps the id with the
      table's name. */
  lemma {:induction false} SentUnderId(params: seq<Param>, args: Args, k: nat)
    requires k < |params| && Built(CLIENT, params, args, |params|).Ok?
    requires Included(CLIENT, params[k], args) && params[k].shape.Table?
    ensures
      var id, ids := SentId(params, args, k), DmTableIds(params, args, |params|);
      id in ids && ids[id] == params[k].name
    ensures Built(CLIENT, params, args, k).Ok? && Built(CLIENT, params, args, k + 1).Ok?
    ensures
      var group := Group(CLIENT, params[k], args[Upper(params[k].name)], SentId(params, args, k));
      group.Ok? &&
      Built(CLIENT, params, args, k + 1).value.recs == Built(CLIENT, params, args, k).value.recs + group.value
  {
    hide *;
    BuiltUpTo(params, args, k, |params|);
    BuiltUpTo(params, args, k + 1, |params|);
    SentIdIs(params, args, k);
    IdsAgree(params, args, k + 1);
    IdsKept(params, args, k + 1, |params|);
    IdsNumbered(params, args, k + 1);
    BuiltTables(CLIENT, params, args, k + 1);
    BuiltGroup(params, args, k);
  }

  lemma {:induction false} SentIdIs(params: seq<Param>, args: Args, k: nat)
    requires k < |params| && Built(CLIENT, params, args, |params|).Ok? && Built(CLIENT, params, args, k).Ok?
    ensures SentId(params, args, k) == Built(CLIENT, params, args, k).value.tables + 1
  {
    hide Built;
  }

  lemma {:induction false} BuiltGroup(params: seq<Param>, args: Args, k: nat)
    requires k < |params| && Built(CLIENT, params, args, k).Ok? && Built(CLIENT, params, args, k + 1).Ok?
    requires Included(CLIENT, params[k], args)
    ensures Upper(params[k].name) in args
    ensures
      var group := Group(CLIENT, params[k], args[Upper(params[k].name)], Built(CLIENT, params, args, k).value.tables + 1);
      group.Ok? &&
      Built(CLIENT, params, args, k + 1).value.recs == Built(CLIENT, params, args, k).value.recs + group.value
  {
    hide Group, Upper;
  }

  /** A table with rows is only sent under an id that fits its field. */
  lemma {:induction false} IdFits(p: Param, args: Args, id: nat)
    requires Included(CLIENT, p, args) && p.shape.Table? && Group(CLIENT, p, args[Upper(p.name)], id).Ok?
    ensures id < LIMIT32
  {
    hide Upper, IsText, EncodeTable, TableGroup;
    var arg := args[Upper(p.name)];
    assert arg.Many? && arg.rows != [];
  }

  // ---- a reply with such a table ----

  lemma {:induction false} OneValue(params: seq<Param>, p: Param, value: seq<byte>, a: Arg)
    requires Find(SERVER, params, Upper(p.name)) == Some(p) && DecodeArg(p, value, None) == Ok(a)
    ensures Collected(SERVER, params, [Pair(p.name, value)], map[]) == Ok(map[p.name := a])
  {
    hide Find, DecodeArg, Upper;
    CollectedNone(SERVER, params, map[]);
    CollectedNext(SERVER, params, [], Pair(p.name, value), map[]);
    assert [] + [Pair(p.name, value)] == [Pair(p.name, value)];
    assert map[][p.name := a] == map[p.name := a];
  }

  lemma {:induction false} DeltaHarmless(id: nat, size: nat, all: seq<byte>, n: nat, tag: nat)
    requires tag == TAG_TABLE_CONTENT || tag == TAG_TABLE_CONTENT_ALT
    ensures Harmless(DeltaGroup(id, size, all, n, tag))
  {
    hide DeltaValue, RowRecords;
    Messages.RowTags(tag, all, size, n);
  }

  lemma {:induction false} DeltaExtracted(id: nat, size: nat, all: seq<byte>, n: nat, tag: nat, dm: map<nat, Name>, unpack: Unpacker)
    requires id in dm && id < LIMIT32 && |all| == n * size
    requires tag == TAG_TABLE_CONTENT || tag == TAG_TABLE_CONTENT_ALT
    requires AllValid(ResponseHead() + DeltaGroup(id, size, all, n, tag))
    ensures
      var r := Extracted(Stream(ResponseHead() + DeltaGroup(id, size, all, n, tag)), dm, unpack);
      r.Ok? && r.value.pairs == [Pair(dm[id], all)] && r.value.counts == map[]
  {
    hide DeltaGroup, Clean, Settled, Fed, Finish, Stream, Walk, AllValid;
    var recs := DeltaGroup(id, size, all, n, tag);
    StreamBack(ResponseHead() + recs, []);
    assert Stream(ResponseHead() + recs) + [] == Stream(ResponseHead() + recs);
    StartClean();
    SilentFed(START, ResponseHead(), dm, unpack);
    FedAppend(START, ResponseHead(), recs, dm, unpack);
    DeltaFed(START, id, size, all, n, tag, dm, unpack);
    Settles(Fed(START, recs, dm, unpack).value, unpack);
    assert [] + [Pair(dm[id], all)] == [Pair(dm[id], all)];
  }

  /** A table that was sent with rows and comes back, changed or not, under the id it was sent under: the
      client returns its rows, in normal form, under the parameter's name. */
  lemma {:induction false} ReturnedById(params: seq<Param>, args: Args, k: nat, rows: seq<Values>, tag: nat, unpack: Unpacker)
    requires GoodParams(params) && k < |params| && Built(CLIENT, params, args, |params|).Ok?
    requires Included(CLIENT, params[k], args) && params[k].shape.Table? && params[k].direction != IMPORTING
    requires WireOf(params[k], Many(rows)).Ok? && ArgFits(params[k], Many(rows))
    requires tag == TAG_TABLE_CONTENT || tag == TAG_TABLE_CONTENT_ALT
    ensures params[k].shape.layout.Some? && GoodRows(rows, params[k].shape.layout.value)
    ensures
      var p := params[k];
      var l := p.shape.layout.value;
      var reply := Serialised(ResponseHead() +
                              DeltaGroup(SentId(params, args, k), l.size, WireOf(p, Many(rows)).value.value, |rows|, tag));
      reply.Ok? ==>
        ParseResponse(reply.value, params, DmTableIds(params, args, |params|), unpack) ==
        Ok(map[p.name := Many(NormalRows(rows, l))])
  {
    var p, id, dm := params[k], SentId(params, args, k), DmTableIds(params, args, |params|);
    SentUnderId(params, args, k);
    IdFits(p, args, id);
    FindBack(SERVER, params, k);
    GoodAt(params, k);
    TableWire(p, Many(rows));
    var l, all := p.shape.layout.value, WireOf(p, Many(rows)).value.value;
    RowsDecoded(p, all, l, rows);
    hide *;
    var recs := DeltaGroup(id, l.size, all, |rows|, tag);
    if Serialised(ResponseHead() + recs).Ok? {
      SerialisedIs(ResponseHead() + recs);
      DeltaHarmless(id, l.size, all, |rows|, tag);
      ReadsAsSuccess(recs);
      DeltaExtracted(id, l.size, all, |rows|, tag, dm, unpack);
      OneValue(params, p, all, Many(NormalRows(rows, l)));
      ParsedFrom(Stream(ResponseHead() + recs), params, dm, unpack);
    }
  }

  lemma {:induction false} GoodAt(params: seq<Param>, k: nat)
    requires GoodParams(params) && k < |params|
    ensures GoodParam(params[k])
  {
  }

  lemma {:induction false} RowsDecoded(p: Param, all: seq<byte>, l: Layout, rows: seq<Values>)
    requires p.shape == Table(Some(l)) && GoodRows(rows, l)
    requires DecodeTable(all, Some(l), None) == Ok(NormalRows(rows, l))
    ensures DecodeArg(p, all, None) == Ok(Many(NormalRows(rows, l)))
  {
    hide DecodeTable, NormalRows, GoodRows;
  }

  lemma {:induction false} SerialisedIs(recs: seq<Rec>)
    requires Serialised(recs).Ok?
    ensures AllValid(recs) && Serialised(recs).value == Stream(recs)
  {
  }

  lemma {:induction false} ParsedFrom(resp: seq<byte>, params: seq<Param>, dm: map<nat, Name>, unpack: Unpacker)
    requires Calls.Classify(resp, true).Returned? && Extracted(resp, dm, unpack).Ok?
    ensures
      var w := Extracted(resp, dm, unpack).value;
      ParseResponse(resp, params, dm, unpack) == Collected(SERVER, params, w.pairs, w.counts)
  {
    hide Extracted, Collected;
  }
}
