/** Requests and responses built from a function descriptor and read back (invoke.py, server.py). */
module Messages {
  import opened Bits
  import opened Words
  import opened Tlv
  import opened Leaves
  import opened Layouts
  import opened Pairs
  import Calls
  import Replies

  const TAG_RESPONSE_START: nat := 0x0500
  const TAG_CALL_START: nat := 0x0502
  const TAG_RFC_VERSION: nat := 0x000B
  const TAG_FUNC_NAME: nat := 0x0102
  const TAG_PARAM_SECTION: nat := 0x0512
  const TAG_EXPORT_DECL: nat := 0x0205

  datatype Direction = IMPORTING | EXPORTING | CHANGING | TABLES

  datatype Shape = Single(kind: Kind, length: nat) | Table(layout: Option<Layout>)

  datatype Param = Param(name: Name, direction: Direction, shape: Shape)

  datatype Arg = One(value: Val) | Many(rows: seq<Values>)

  /** Arguments under their upper-case names, as both builders look them up. */
  type Args = map<Name, Arg>

  /** Who builds the message: the server its response, or the client its request. */
  datatype Side = SERVER | CLIENT

  // ---- building ----

  /** Whether a parameter's value goes into the message.  A request leaves empty tables out. */
  predicate Included(side: Side, p: Param, args: Args) {
    Upper(p.name) in args &&
    match side
    case SERVER => p.direction != IMPORTING
    case CLIENT => p.direction != EXPORTING && !(p.shape.Table? && args[Upper(p.name)] == Many([]))
  }

  /** A value on the wire, and how many rows it is when it is a table. */
  datatype Wire = Wire(value: seq<byte>, rows: nat)

  function FieldOf(kind: Kind, length: nat): Field {
    Field("", kind, 0, length)
  }

  function WireOf(p: Param, arg: Arg): Result<Wire> {
    match p.shape
    case Single(kind, length) =>
      if arg.Many? then Err("TypeError")
      else Mapped(EncodeField(FieldOf(kind, length), arg.value), b => Wire(b, 0))
    case Table(None) => Err("IncompleteDescriptorError")
    case Table(Some(l)) =>
      if arg.One? then Err("TypeError") else Mapped(EncodeTable(arg.rows, l), b => Wire(b, |arg.rows|))
  }

  const LIMIT32: nat := 0x1_0000_0000

  /** Clients write row records under 0x0303, servers under 0x0304. */
  function RowTag(side: Side): nat {
    if side.SERVER? then TAG_TABLE_CONTENT_ALT else TAG_TABLE_CONTENT
  }

  function Group(side: Side, p: Param, arg: Arg, id: nat): Result<seq<Rec>> {
    if !IsText(p.name) then Err("UnicodeEncodeError")
    else
      match WireOf(p, arg)
      case Err(e) => Err(e)
      case Ok(w) =>
        match p.shape
        case Single(_, _) => Ok(ScalarGroup(p.name, w.value))
        case Table(Some(l)) =>
          if w.rows > 0 && (w.rows >= LIMIT32 || l.size >= LIMIT32 || id >= LIMIT32) then Err("struct.error")
          else Ok(TableGroup(p.name, id, l.size, w.value, w.rows, RowTag(side)))
  }

  datatype Progress = Progress(recs: seq<Rec>, tables: nat)

  /** The groups of the first k parameters; tables are numbered from 1 as they come. */
  function Built(side: Side, params: seq<Param>, args: Args, k: nat): Result<Progress>
    requires k <= |params|
  {
    if k == 0 then Ok(Progress([], 0))
    else
      match Built(side, params, args, k - 1)
      case Err(e) => Err(e)
      case Ok(done) =>
        var p := params[k - 1];
        if !Included(side, p, args) then Ok(done)
        else
          match Group(side, p, args[Upper(p.name)], done.tables + 1)
          case Err(e) => Err(e)
          case Ok(group) => Ok(Progress(done.recs + group, done.tables + (if p.shape.Table? then 1 else 0)))
  }

  /** Joining the records; a value of 4 GiB or more has no length field. */
  function Serialised(recs: seq<Rec>): Result<seq<byte>> {
    if AllValid(recs) then Ok(Stream(recs)) else Err("struct.error")
  }

  function ResponseHead(): seq<Rec> {
    [Rec(TAG_RESPONSE_START, []), Rec(Replies.TAG_RETURN_CODE, BigEndianBytes(0, 4))]
  }

  function BuildResponse(params: seq<Param>, args: Args): Result<seq<byte>> {
    match Built(SERVER, params, args, |params|)
    case Err(e) => Err(e)
    case Ok(done) => Serialised(ResponseHead() + done.recs)
  }

  predicate Known(params: seq<Param>, up: Name) {
    exists i :: 0 <= i < |params| && Upper(params[i].name) == up
  }

  predicate Declarable(params: seq<Param>) {
    forall i :: 0 <= i < |params| && params[i].direction != IMPORTING ==> IsText(params[i].name)
  }

  function Declared(params: seq<Param>): seq<Rec>
    requires Declarable(params)
  {
    if params == [] then []
    else
      (if params[0].direction == IMPORTING then [] else [Rec(TAG_EXPORT_DECL, Utf16(params[0].name))]) +
      Declared(params[1..])
  }

  function RequestHead(version: seq<byte>, function_: Name, params: seq<Param>): seq<Rec>
    requires IsText(function_) && Declarable(params)
  {
    [Rec(TAG_CALL_START, []), Rec(TAG_RFC_VERSION, version), Rec(TAG_FUNC_NAME, Utf16(function_)),
     Rec(TAG_PARAM_SECTION, [])] + Declared(params)
  }

  function BuildRequest(version: seq<byte>, function_: Name, params: seq<Param>, args: Args): Result<seq<byte>> {
    if !IsText(function_) || !Declarable(params) then Err("UnicodeEncodeError")
    else if exists up <- args :: !Known(params, up) then Err("not in the function interface")
    else
      match Built(CLIENT, params, args, |params|)
      case Err(e) => Err(e)
      case Ok(done) => Serialised(RequestHead(version, function_, params) + done.recs)
  }

  // ---- reading ----

  /** A response never carries the caller's own IMPORTING values; a request may carry any name. */
  predicate Wanted(side: Side, p: Param) {
    side.CLIENT? || p.direction != IMPORTING
  }

  /** The descriptor of a name, the last one when names repeat. */
  function Find(side: Side, params: seq<Param>, up: Name): Option<Param> {
    if params == [] then None
    else
      var last := params[|params| - 1];
      if Wanted(side, last) && Upper(last.name) == up then Some(last) else Find(side, params[..|params| - 1], up)
  }

  function DecodeArg(p: Param, value: seq<byte>, count: Option<int>): Result<Arg> {
    match p.shape
    case Single(kind, length) => Mapped(DecodeField(FieldOf(kind, length), value), v => One(v))
    case Table(layout) => Mapped(DecodeTable(value, layout, count), rows => Many(rows))
  }

  /** Only the client reads the announced row counts. */
  function CountOf(side: Side, counts: map<Name, nat>, name: Name): Option<int> {
    if side.SERVER? && name in counts then Some(counts[name]) else None
  }

  function Collected(side: Side, params: seq<Param>, pairs: seq<Pair>, counts: map<Name, nat>): Result<Args> {
    if pairs == [] then Ok(map[])
    else
      match Collected(side, params, pairs[..|pairs| - 1], counts)
      case Err(e) => Err(e)
      case Ok(args) =>
        var pair := pairs[|pairs| - 1];
        match Find(side, params, Upper(pair.name))
        case None => Ok(args)
        case Some(p) => Mapped(DecodeArg(p, pair.value, CountOf(side, counts, pair.name)), a => args[p.name := a])
  }

  function ParseResponse(resp: seq<byte>, params: seq<Param>, dm: map<nat, Name>, unpack: Unpacker): Result<Args> {
    if !Calls.Classify(resp, true).Returned? then Err("an RFC error or no response")
    else
      match Extracted(resp, dm, unpack)
      case Err(e) => Err(e)
      case Ok(w) => Collected(SERVER, params, w.pairs, w.counts)
  }

  function DeserializeRequest(tlv: seq<byte>, params: seq<Param>, unpack: Unpacker): Result<Args> {
    match Extracted(tlv, map[], unpack)
    case Err(e) => Err(e)
    case Ok(w) => Collected(CLIENT, params, w.pairs, w.counts)
  }

  // ---- sound descriptors, normal form ----

  predicate GoodParam(p: Param) {
    GoodName(p.name) &&
    match p.shape
    case Single(kind, length) => kind != Struct(None) ==> SoundField(FieldOf(kind, length), length)
    case Table(None) => true
    case Table(Some(l)) => Sound(l) && l.size > 0
  }

  /** Names are distinct even without regard to case. */
  predicate GoodParams(params: seq<Param>) {
    && (forall i :: 0 <= i < |params| ==> GoodParam(params[i]))
    && (forall i, j :: 0 <= i < j < |params| ==> Upper(params[i].name) != Upper(params[j].name))
  }

  predicate ArgFits(p: Param, arg: Arg) {
    match p.shape
    case Single(kind, length) => arg.One? ==> FieldFits(FieldOf(kind, length), arg.value)
    case Table(None) => true
    case Table(Some(l)) => arg.Many? ==> forall i :: 0 <= i < |arg.rows| ==> Fits(arg.rows[i], l)
  }

  predicate ArgsFit(params: seq<Param>, args: Args) {
    forall i :: 0 <= i < |params| && Upper(params[i].name) in args ==> ArgFits(params[i], args[Upper(params[i].name)])
  }

  lemma {:induction false} TableRowsGood(rows: seq<Values>, l: Layout)
    requires EncodeTable(rows, l).Ok?
    ensures forall i :: 0 <= i < |rows| ==> EncodeStructure(rows[i], l).Ok?
  {
    if rows != [] {
      var n := |rows| - 1;
      TableRowsGood(rows[..n], l);
      hide EncodeStructure;
      forall i | 0 <= i < |rows| ensures EncodeStructure(rows[i], l).Ok? {
        if i < n {
          assert rows[..n][i] == rows[i];
        }
      }
    }
  }

  /** Like a structure field's normal form, except that a byte string by itself is not filled up. */
  function NormalArg(p: Param, arg: Arg): Arg
    requires WireOf(p, arg).Ok? && ArgFits(p, arg)
  {
    match p.shape
    case Single(kind, length) =>
      if kind == Simple(BYTE) then arg else One(NormalField(FieldOf(kind, length), arg.value))
    case Table(Some(l)) =>
      TableRowsGood(arg.rows, l);
      Many(NormalRows(arg.rows, l))
  }

  lemma {:induction false} BuiltBefore(side: Side, params: seq<Param>, args: Args, k: nat)
    requires 0 < k <= |params| && Built(side, params, args, k).Ok?
    ensures Built(side, params, args, k - 1).Ok?
    ensures
      var p := params[k - 1];
      Included(side, p, args) ==> IsText(p.name) && WireOf(p, args[Upper(p.name)]).Ok?
  {
    hide WireOf, IsText;
  }

  lemma {:induction false} ArgFitted(params: seq<Param>, args: Args, i: nat)
    requires ArgsFit(params, args) && i < |params| && Upper(params[i].name) in args
    ensures ArgFits(params[i], args[Upper(params[i].name)])
  {
  }

  /** What should come back from the first k parameters: each included value in normal form. */
  function NormalArgs(side: Side, params: seq<Param>, args: Args, k: nat): Args
    requires k <= |params| && Built(side, params, args, k).Ok? && ArgsFit(params, args)
  {
    if k == 0 then map[]
    else
      BuiltBefore(side, params, args, k);
      var p := params[k - 1];
      var before := NormalArgs(side, params, args, k - 1);
      if Included(side, p, args) then
        ArgFitted(params, args, k - 1);
        before[p.name := NormalArg(p, args[Upper(p.name)])]
      else before
  }

  // ---- the walk over what was built ----

  lemma {:induction false} TableWire(p: Param, arg: Arg)
    requires GoodParam(p) && p.shape.Table? && WireOf(p, arg).Ok? && ArgFits(p, arg)
    ensures
      p.shape.layout.Some? && arg.Many? &&
      var l, w := p.shape.layout.value, WireOf(p, arg).value;
      && w == Wire(EncodeTable(arg.rows, l).value, |arg.rows|) && |w.value| == w.rows * l.size
      && GoodRows(arg.rows, l)
      && DecodeTable(w.value, Some(l), None) == Ok(NormalRows(arg.rows, l))
      && DecodeTable(w.value, Some(l), Some(w.rows)) == Ok(NormalRows(arg.rows, l))
  {
    hide Sound, Fits, EncodeStructure, EncodeTable, DecodeTable, NormalRows, GoodName;
    var l := p.shape.layout.value;
    TableRowsGood(arg.rows, l);
    TableBack(arg.rows, l);
  }

  /** One group adds one pair, reporting the table before it when one was left open. */
  lemma {:induction false} GroupFed(w: Walker, side: Side, p: Param, arg: Arg, id: nat, dm: map<nat, Name>, unpack: Unpacker)
    requires Clean(w) && GoodParam(p) && ArgFits(p, arg) && Group(side, p, arg, id).Ok?
    ensures WireOf(p, arg).Ok?
    ensures
      var r := Fed(w, Group(side, p, arg, id).value, dm, unpack);
      var wire := WireOf(p, arg).value;
      && r.Ok? && Clean(r.value)
      && r.value.counts == (if wire.rows > 0 then w.counts[p.name := wire.rows] else w.counts)
      && Settled(r.value) == Settled(w) + [Pair(p.name, wire.value)]
  {
    hide GoodName, IsText, Clean, Settled, Fed, ScalarGroup, TableGroup, Sound, Fits, EncodeTable, EncodeField, ArgFits;
    if p.shape.Single? {
      ScalarFed(w, p.name, WireOf(p, arg).value.value, dm, unpack);
    } else {
      TableWire(p, arg);
      var l := p.shape.layout.value;
      TableFed(w, p.name, id, l.size, WireOf(p, arg).value.value, WireOf(p, arg).value.rows, RowTag(side), dm, unpack);
    }
  }

  function ExpectedPairs(side: Side, params: seq<Param>, args: Args, k: nat): seq<Pair>
    requires k <= |params| && Built(side, params, args, k).Ok?
  {
    if k == 0 then []
    else
      BuiltBefore(side, params, args, k);
      var p := params[k - 1];
      ExpectedPairs(side, params, args, k - 1) +
      if Included(side, p, args) then [Pair(p.name, WireOf(p, args[Upper(p.name)]).value.value)] else []
  }

  function ExpectedCounts(side: Side, params: seq<Param>, args: Args, k: nat): map<Name, nat>
    requires k <= |params| && Built(side, params, args, k).Ok?
  {
    if k == 0 then map[]
    else
      BuiltBefore(side, params, args, k);
      var p := params[k - 1];
      var before := ExpectedCounts(side, params, args, k - 1);
      if Included(side, p, args) && WireOf(p, args[Upper(p.name)]).value.rows > 0 then
        before[p.name := WireOf(p, args[Upper(p.name)]).value.rows]
      else before
  }

  lemma {:induction false} GoodAt(params: seq<Param>, i: nat)
    requires GoodParams(params) && i < |params|
    ensures GoodParam(params[i])
  {
  }

  lemma {:induction false} BuiltFed(w: Walker, side: Side, params: seq<Param>, args: Args, k: nat,
                                    dm: map<nat, Name>, unpack: Unpacker)
    requires Clean(w) && Settled(w) == [] && w.counts == map[]
    requires k <= |params| && GoodParams(params) && ArgsFit(params, args) && Built(side, params, args, k).Ok?
    ensures
      var r := Fed(w, Built(side, params, args, k).value.recs, dm, unpack);
      && r.Ok? && Clean(r.value)
      && r.value.counts == ExpectedCounts(side, params, args, k)
      && Settled(r.value) == ExpectedPairs(side, params, args, k)
    decreases k
  {
    hide GoodParams, ArgsFit, ArgFits, Group, WireOf, Fed, Clean, Settled, IsText, Upper;
    if k == 0 {
      FedNone(w, dm, unpack);
    } else {
      BuiltBefore(side, params, args, k);
      BuiltFed(w, side, params, args, k - 1, dm, unpack);
      var p := params[k - 1];
      if Included(side, p, args) {
        var done := Built(side, params, args, k - 1).value;
        var arg := args[Upper(p.name)];
        var mid := Fed(w, done.recs, dm, unpack).value;
        GoodAt(params, k - 1);
        ArgFitted(params, args, k - 1);
        GroupFed(mid, side, p, arg, done.tables + 1, dm, unpack);
        FedAppend(w, done.recs, Group(side, p, arg, done.tables + 1).value, dm, unpack);
      }
    }
  }

  lemma {:induction false} FedNone(w: Walker, dm: map<nat, Name>, unpack: Unpacker)
    ensures Fed(w, [], dm, unpack) == Ok(w)
  {
  }

  lemma {:induction false} Settles(w: Walker, unpack: Unpacker)
    requires Clean(w)
    ensures Finish(w, unpack).Ok? && Finish(w, unpack).value.pairs == Settled(w) && Finish(w, unpack).value.counts == w.counts
  {
  }

  /** Whatever silent records stand in front, the stream yields exactly the values put in. */
  lemma {:induction false} ExtractedBuilt(head: seq<Rec>, side: Side, params: seq<Param>, args: Args,
                                          dm: map<nat, Name>, unpack: Unpacker)
    requires GoodParams(params) && ArgsFit(params, args) && Built(side, params, args, |params|).Ok?
    requires forall i :: 0 <= i < |head| ==> Silent(head[i].tag)
    requires AllValid(head + Built(side, params, args, |params|).value.recs)
    ensures
      var r := Extracted(Stream(head + Built(side, params, args, |params|).value.recs), dm, unpack);
      && r.Ok?
      && r.value.pairs == ExpectedPairs(side, params, args, |params|)
      && r.value.counts == ExpectedCounts(side, params, args, |params|)
  {
    hide GoodParams, ArgsFit, Built, Fed, Clean, Settled, Finish, Stream, Walk, AllValid, ExpectedPairs, ExpectedCounts;
    var recs := Built(side, params, args, |params|).value.recs;
    StreamBack(head + recs, []);
    assert Stream(head + recs) + [] == Stream(head + recs);
    StartClean();
    SilentFed(START, head, dm, unpack);
    FedAppend(START, head, recs, dm, unpack);
    BuiltFed(START, side, params, args, |params|, dm, unpack);
    Settles(Fed(START, recs, dm, unpack).value, unpack);
  }

  lemma {:induction false} StartClean()
    ensures Clean(START) && Settled(START) == [] && START.counts == map[]
  {
  }

  // ---- collecting the values ----

  lemma {:induction false} FindBack(side: Side, params: seq<Param>, i: nat)
    requires GoodParams(params) && i < |params| && Wanted(side, params[i])
    ensures Find(side, params, Upper(params[i].name)) == Some(params[i])
    decreases |params|
  {
    hide Upper, GoodParam;
    var n := |params| - 1;
    if i < n {
      assert params[..n][i] == params[i];
      FindBack(side, params[..n], i);
    }
  }

  /** What decoding one parameter's value gives, with the announced count or without. */
  lemma {:induction false} ArgBack(p: Param, arg: Arg, count: Option<int>)
    requires GoodParam(p) && WireOf(p, arg).Ok? && ArgFits(p, arg)
    requires count == None || count == Some(WireOf(p, arg).value.rows)
    ensures DecodeArg(p, WireOf(p, arg).value.value, count) == Ok(NormalArg(p, arg))
  {
    hide GoodName, Sound, Fits, EncodeField, DecodeField, NormalField, EncodeTable, DecodeTable, NormalRows, SoundField, FieldFits;
    match p.shape
    case Single(kind, length) =>
      var f := FieldOf(kind, length);
      NotIncomplete(f, arg.value);
      if kind == Simple(BYTE) {
        BytesAlone(f, arg.value);
      } else {
        Layouts.FieldBack(f, arg.value, length);
        FullShown(f, arg.value, length);
      }
    case Table(_) => TableWire(p, arg);
  }

  lemma {:induction false} NotIncomplete(f: Field, v: Val)
    requires EncodeField(f, v).Ok?
    ensures f.kind != Struct(None)
  {
  }

  /** A byte string standing alone is not filled up. */
  lemma {:induction false} BytesAlone(f: Field, v: Val)
    requires f.kind == Simple(BYTE) && EncodeField(f, v).Ok?
    ensures DecodeField(f, EncodeField(f, v).value) == Ok(v)
  {
  }

  lemma {:induction false} FullShown(f: Field, v: Val, size: nat)
    requires SoundField(f, size) && EncodeField(f, v).Ok? && FieldFits(f, v)
    requires f.kind != Simple(BYTE)
    ensures
      var raw := EncodeField(f, v).value;
      |raw| == f.length && Shown(raw, f.length) == raw
  {
    hide EncodeLeaf, LengthFits, Sound, Fits, Filled;
    var raw := EncodeField(f, v).value;
    match f.kind
    case Simple(k) =>
      RawBytes(k, v.leaf, f.length);
      LeafBack(k, v.leaf, f.length);
    case Struct(Some(l)) =>
      StructureBack(v.fields, l);
      LaidSize(v.fields, l, |l.fields|, raw);
  }

  /** The final row counts say of every value sent how many rows it has, if it has any. */
  lemma {:induction false} CountsBack(side: Side, params: seq<Param>, args: Args, k: nat, i: nat)
    requires i < |params| && k <= |params| && Built(side, params, args, k).Ok? && GoodParams(params)
    ensures i < k && Included(side, params[i], args) ==> WireOf(params[i], args[Upper(params[i].name)]).Ok?
    ensures
      var counts := ExpectedCounts(side, params, args, k);
      if i < k && Included(side, params[i], args) && WireOf(params[i], args[Upper(params[i].name)]).value.rows > 0
      then params[i].name in counts && counts[params[i].name] == WireOf(params[i], args[Upper(params[i].name)]).value.rows
      else params[i].name !in counts
    decreases k
  {
    if k > 0 {
      hide WireOf, Group, Upper, GoodParam, IsText;
      BuiltBefore(side, params, args, k);
      CountsBack(side, params, args, k - 1, i);
      if i != k - 1 {
        NamesDiffer(params, i, k - 1);
      }
    }
  }

  lemma {:induction false} NamesDiffer(params: seq<Param>, i: nat, j: nat)
    requires GoodParams(params) && i < |params| && j < |params| && i != j
    ensures params[i].name != params[j].name
  {
    hide GoodParam;
    if i < j {
      assert Upper(params[i].name) != Upper(params[j].name);
    } else {
      assert Upper(params[j].name) != Upper(params[i].name);
    }
  }

  lemma {:induction false} IncludedWanted(side: Side, p: Param, args: Args)
    requires Included(side, p, args)
    ensures Wanted(side, p) && Upper(p.name) in args
  {
  }

  lemma {:induction false} CollectedBack(side: Side, params: seq<Param>, args: Args, k: nat)
    requires k <= |params| && GoodParams(params) && ArgsFit(params, args)
    requires Built(side, params, args, k).Ok? && Built(side, params, args, |params|).Ok?
    ensures
      var counts := ExpectedCounts(side, params, args, |params|);
      Collected(side, params, ExpectedPairs(side, params, args, k), counts) == Ok(NormalArgs(side, params, args, k))
    decreases k
  {
    hide GoodParams, ArgsFit, ArgFits, WireOf, DecodeArg, NormalArg, Find, ExpectedCounts, Built, Upper, Included, IsText;
    var counts := ExpectedCounts(side, params, args, |params|);
    if k > 0 {
      BuiltBefore(side, params, args, k);
      CollectedBack(side, params, args, k - 1);
      var p := params[k - 1];
      if Included(side, p, args) {
        IncludedWanted(side, p, args);
        var arg := args[Upper(p.name)];
        GoodAt(params, k - 1);
        ArgFitted(params, args, k - 1);
        FindBack(side, params, k - 1);
        CountsBack(side, params, args, |params|, k - 1);
        ArgBack(p, arg, CountOf(side, counts, p.name));
        var before := ExpectedPairs(side, params, args, k - 1);
        var pair := Pair(p.name, WireOf(p, arg).value.value);
        CollectedNext(side, params, before, pair, counts);
      } else {
        assert ExpectedPairs(side, params, args, k) == ExpectedPairs(side, params, args, k - 1);
      }
    }
  }

  lemma {:induction false} CollectedNext(side: Side, params: seq<Param>, before: seq<Pair>, pair: Pair, counts: map<Name, nat>)
    requires Find(side, params, Upper(pair.name)).Some?
    requires Collected(side, params, before, counts).Ok?
    requires DecodeArg(Find(side, params, Upper(pair.name)).value, pair.value, CountOf(side, counts, pair.name)).Ok?
    ensures
      var p := Find(side, params, Upper(pair.name)).value;
      Collected(side, params, before + [pair], counts) ==
      Ok(Collected(side, params, before, counts).value[p.name :=
           DecodeArg(p, pair.value, CountOf(side, counts, pair.name)).value])
  {
    hide Find, DecodeArg, Upper;
    assert (before + [pair])[..|before|] == before;
  }

  // ---- the two round trips ----

  /** The tags a group uses. */
  predicate GroupTag(tag: nat) {
    TAG_PARAM_NAME <= tag <= TAG_PARAM_VALUE || TAG_TABLE_NAME <= tag <= TAG_DM_TABLE_ID
  }

  predicate AllGroupTags(recs: seq<Rec>) {
    forall i :: 0 <= i < |recs| ==> GroupTag(recs[i].tag)
  }

  lemma {:induction false} RowTags(tag: nat, all: seq<byte>, size: nat, n: nat)
    requires GroupTag(tag)
    ensures AllGroupTags(RowRecords(tag, all, size, n))
    decreases n
  {
    if n > 0 {
      RowTags(tag, all, size, n - 1);
      hide Slice;
    }
  }

  lemma {:induction false} TagsJoin(a: seq<Rec>, b: seq<Rec>)
    requires AllGroupTags(a) && AllGroupTags(b)
    ensures AllGroupTags(a + b)
  {
  }

  lemma {:induction false} TableTags(name: Name, id: nat, size: nat, all: seq<byte>, n: nat, tag: nat)
    requires IsText(name) && GroupTag(tag)
    ensures AllGroupTags(TableGroup(name, id, size, all, n, tag))
  {
    hide IsText, RowRecords, Utf16, Pair32;
    RowTags(tag, all, size, n);
    if n > 0 {
      var info := [Rec(TAG_DM_TABLE_ID, BigEndianBytes(id, 4)), Rec(TAG_TABLE_INFO, Pair32(size, n))];
      TagsJoin(info, RowRecords(tag, all, size, n));
      TagsJoin([Rec(TAG_TABLE_NAME, Utf16(name))], info + RowRecords(tag, all, size, n));
    }
  }

  lemma {:induction false} GroupTags(side: Side, p: Param, arg: Arg, id: nat)
    requires Group(side, p, arg, id).Ok?
    ensures AllGroupTags(Group(side, p, arg, id).value)
  {
    hide IsText, TableGroup, Utf16, EncodeField, EncodeTable;
    var w := WireOf(p, arg).value;
    if p.shape.Table? && p.shape.layout.Some? {
      TableTags(p.name, id, p.shape.layout.value.size, w.value, w.rows, RowTag(side));
    }
  }

  lemma {:induction false} BuiltTags(side: Side, params: seq<Param>, args: Args, k: nat)
    requires k <= |params| && Built(side, params, args, k).Ok?
    ensures AllGroupTags(Built(side, params, args, k).value.recs)
    decreases k
  {
    if k > 0 {
      hide Group, WireOf, Upper, IsText;
      BuiltTags(side, params, args, k - 1);
      var p := params[k - 1];
      if Included(side, p, args) {
        GroupTags(side, p, args[Upper(p.name)], Built(side, params, args, k - 1).value.tables + 1);
      }
    }
  }

  predicate Harmless(recs: seq<Rec>) {
    forall i :: 0 <= i < |recs| ==> recs[i].tag != Replies.TAG_RETURN_CODE && recs[i].tag != Replies.TAG_EXCEPTION_NUMBER
  }

  /** Behind the head of a response, records without a code or an exception of their own read as a success:
      return code 0, no exception, no gateway error. */
  lemma {:induction false} RecordsPass(recs: seq<Rec>, tlv: seq<byte>)
    requires Harmless(recs) && Walk(tlv) == (ResponseHead() + recs, AtTerminator) && tlv != [] && tlv[0] == 0x05
    ensures Calls.Classify(tlv, true) == Calls.Returned(tlv)
  {
    hide Walk, Tags;
    var all := ResponseHead() + recs;
    TagsPut(all, Replies.TAG_RETURN_CODE, 1);
    TagsAbsent(all, Replies.TAG_EXCEPTION_NUMBER);
    Pow256Values();
    BigEndianRoundTrip(0, 4);
  }

  lemma {:induction false} GroupsHarmless(recs: seq<Rec>)
    requires AllGroupTags(recs)
    ensures Harmless(recs)
  {
  }

  /** A built response reads as a success. */
  lemma {:induction false} ReadsAsSuccess(recs: seq<Rec>)
    requires Harmless(recs) && AllValid(ResponseHead() + recs)
    ensures
      var resp := Stream(ResponseHead() + recs);
      Calls.Classify(resp, true) == Calls.Returned(resp)
  {
    hide AllValid, Walk, Stream, Harmless, Calls.Classify;
    var all := ResponseHead() + recs;
    var resp := Stream(all);
    StreamBack(all, []);
    assert resp + [] == resp;
    StreamStarts(all);
    RecordsPass(recs, resp);
  }

  /** Whatever the descriptor and the handler's result: when the server can build the response, the
      client reads every returned value back in normal form, empty tables and tables without an end
      tag included. */
  lemma {:induction false} ResponseBack(params: seq<Param>, args: Args, dm: map<nat, Name>, unpack: Unpacker)
    requires GoodParams(params) && ArgsFit(params, args) && BuildResponse(params, args).Ok?
    ensures Built(SERVER, params, args, |params|).Ok?
    ensures ParseResponse(BuildResponse(params, args).value, params, dm, unpack) ==
            Ok(NormalArgs(SERVER, params, args, |params|))
  {
    hide GoodParams, ArgsFit, Built, Extracted, AllValid, Stream, Collected, NormalArgs, ExpectedPairs, ExpectedCounts,
         AllGroupTags, Harmless, Calls.Classify;
    var recs := Built(SERVER, params, args, |params|).value.recs;
    BuiltTags(SERVER, params, args, |params|);
    GroupsHarmless(recs);
    ReadsAsSuccess(recs);
    ExtractedBuilt(ResponseHead(), SERVER, params, args, dm, unpack);
    CollectedBack(SERVER, params, args, |params|);
  }

  lemma {:induction false} DeclaredSilent(params: seq<Param>)
    requires Declarable(params)
    ensures forall i :: 0 <= i < |Declared(params)| ==> Silent(Declared(params)[i].tag)
  {
    if params != [] {
      DeclaredSilent(params[1..]);
      hide IsText, Utf16;
    }
  }

  lemma {:induction false} RequestHeadSilent(version: seq<byte>, function_: Name, params: seq<Param>)
    requires IsText(function_) && Declarable(params)
    ensures forall i :: 0 <= i < |RequestHead(version, function_, params)| ==>
              Silent(RequestHead(version, function_, params)[i].tag)
  {
    hide IsText, Utf16, Declared;
    DeclaredSilent(params);
  }

  /** Whatever the descriptor and the caller's arguments: when the client can build the request, the
      server reads every value sent back in normal form; empty tables and EXPORTING values are not sent. */
  lemma {:induction false} RequestBack(version: seq<byte>, function_: Name, params: seq<Param>, args: Args, unpack: Unpacker)
    requires GoodParams(params) && ArgsFit(params, args) && BuildRequest(version, function_, params, args).Ok?
    ensures Built(CLIENT, params, args, |params|).Ok?
    ensures DeserializeRequest(BuildRequest(version, function_, params, args).value, params, unpack) ==
            Ok(NormalArgs(CLIENT, params, args, |params|))
  {
    hide GoodParams, ArgsFit, Built, Extracted, AllValid, Stream, Collected, NormalArgs, ExpectedPairs, ExpectedCounts,
         RequestHead, Declarable, Known, IsText;
    RequestHeadSilent(version, function_, params);
    ExtractedBuilt(RequestHead(version, function_, params), CLIENT, params, args, map[], unpack);
    CollectedBack(CLIENT, params, args, |params|);
  }

  // ---- the builders and readers as written ----

  function BuiltStep(side: Side, params: seq<Param>, args: Args, k: nat, done: Progress): Result<Progress>
    requires k < |params|
  {
    var p := params[k];
    if !Included(side, p, args) then Ok(done)
    else
      match Group(side, p, args[Upper(p.name)], done.tables + 1)
      case Err(e) => Err(e)
      case Ok(group) => Ok(Progress(done.recs + group, done.tables + (if p.shape.Table? then 1 else 0)))
  }

  lemma {:induction false} BuiltNext(side: Side, params: seq<Param>, args: Args, k: nat, done: Progress)
    requires k < |params| && Built(side, params, args, k) == Ok(done)
    ensures Built(side, params, args, k + 1) == BuiltStep(side, params, args, k, done)
  {
    hide Group, Included, Upper;
  }

  lemma {:induction false} BuiltFails(side: Side, params: seq<Param>, args: Args, k: nat, n: nat)
    requires k <= n <= |params| && Built(side, params, args, k).Err?
    ensures Built(side, params, args, n) == Built(side, params, args, k)
    decreases n
  {
    if k < n {
      BuiltFails(side, params, args, k, n - 1);
      hide Group, Included, Upper;
    }
  }

  method BuildGroups(side: Side, params: seq<Param>, args: Args) returns (r: Result<Progress>)
    ensures r == Built(side, params, args, |params|)
  {
    hide Group, Included, Upper, Built, IsText;
    var done := Progress([], 0);
    BuiltNone(side, params, args);
    for i := 0 to |params|
      invariant Built(side, params, args, i) == Ok(done)
    {
      var p := params[i];
      BuiltNext(side, params, args, i, done);
      if Included(side, p, args) {
        IncludedWanted(side, p, args);
        var group := Group(side, p, args[Upper(p.name)], done.tables + 1);
        if group.Err? {
          BuiltFails(side, params, args, i + 1, |params|);
          return Err(group.reason);
        }
        done := Progress(done.recs + group.value, done.tables + (if p.shape.Table? then 1 else 0));
      }
    }
    return Ok(done);
  }

  lemma {:induction false} BuiltNone(side: Side, params: seq<Param>, args: Args)
    ensures Built(side, params, args, 0) == Ok(Progress([], 0))
  {
  }

  method BuildResponseMessage(params: seq<Param>, args: Args) returns (r: Result<seq<byte>>)
    ensures r == BuildResponse(params, args)
  {
    hide Built, Stream, AllValid;
    var done := BuildGroups(SERVER, params, args);
    if done.Err? {
      return Err(done.reason);
    }
    r := Serialised(ResponseHead() + done.value.recs);
  }

  method BuildRequestMessage(version: seq<byte>, function_: Name, params: seq<Param>, args: Args)
    returns (r: Result<seq<byte>>)
    ensures r == BuildRequest(version, function_, params, args)
  {
    hide Built, Stream, AllValid, Known, Declarable, IsText, RequestHead;
    if !IsText(function_) || !Declarable(params) {
      return Err("UnicodeEncodeError");
    }
    if exists up <- args :: !Known(params, up) {
      return Err("not in the function interface");
    }
    var done := BuildGroups(CLIENT, params, args);
    if done.Err? {
      return Err(done.reason);
    }
    r := Serialised(RequestHead(version, function_, params) + done.value.recs);
  }

  lemma {:induction false} CollectedFails(side: Side, params: seq<Param>, pairs: seq<Pair>, counts: map<Name, nat>, k: nat)
    requires k <= |pairs| && Collected(side, params, pairs[..k], counts).Err?
    ensures Collected(side, params, pairs, counts) == Collected(side, params, pairs[..k], counts)
    decreases |pairs|
  {
    hide Find, DecodeArg;
    if k < |pairs| {
      assert pairs[..|pairs| - 1][..k] == pairs[..k];
      CollectedFails(side, params, pairs[..|pairs| - 1], counts, k);
    } else {
      assert pairs[..k] == pairs;
    }
  }

  lemma {:induction false} CollectedStep(side: Side, params: seq<Param>, pairs: seq<Pair>, counts: map<Name, nat>, k: nat)
    requires k < |pairs| && Collected(side, params, pairs[..k], counts).Ok?
    ensures
      var args, pair := Collected(side, params, pairs[..k], counts).value, pairs[k];
      Collected(side, params, pairs[..k + 1], counts) ==
      match Find(side, params, Upper(pair.name))
      case None => Ok(args)
      case Some(p) =>
        match DecodeArg(p, pair.value, CountOf(side, counts, pair.name))
        case Err(e) => Err(e)
        case Ok(a) => Ok(args[p.name := a])
  {
    hide Find, DecodeArg, CountOf;
    assert pairs[..k + 1][..k] == pairs[..k];
  }

  method CollectValues(side: Side, params: seq<Param>, pairs: seq<Pair>, counts: map<Name, nat>)
    returns (r: Result<Args>)
    ensures r == Collected(side, params, pairs, counts)
  {
    hide Find, DecodeArg, Collected, Upper, CountOf;
    var args: Args := map[];
    CollectedNone(side, params, counts);
    assert pairs[..0] == [];
    for i := 0 to |pairs|
      invariant Collected(side, params, pairs[..i], counts) == Ok(args)
    {
      CollectedStep(side, params, pairs, counts, i);
      var p := Find(side, params, Upper(pairs[i].name));
      if p.Some? {
        var a := DecodeArg(p.value, pairs[i].value, CountOf(side, counts, pairs[i].name));
        if a.Err? {
          CollectedFails(side, params, pairs, counts, i + 1);
          return Err(a.reason);
        }
        args := args[p.value.name := a.value];
      }
    }
    assert pairs[..|pairs|] == pairs;
    return Ok(args);
  }

  lemma {:induction false} CollectedNone(side: Side, params: seq<Param>, counts: map<Name, nat>)
    ensures Collected(side, params, [], counts) == Ok(map[])
  {
  }

  method ParseInvokeResponse(resp: seq<byte>, params: seq<Param>, dm: map<nat, Name>, unpack: Unpacker)
    returns (r: Result<Args>)
    ensures r == ParseResponse(resp, params, dm, unpack)
  {
    hide Calls.Classify, Extracted, Collected;
    if !Calls.Classify(resp, true).Returned? {
      return Err("an RFC error or no response");
    }
    var w := ExtractNameValuePairs(resp, dm, unpack);
    if w.Err? {
      return Err(w.reason);
    }
    r := CollectValues(SERVER, params, w.value.pairs, w.value.counts);
  }

  // ---- table ids ----

  /** The id each table with rows goes out under, as the client keeps it for the reply. */
  function DmTableIds(params: seq<Param>, args: Args, k: nat): map<nat, Name>
    requires k <= |params|
  {
    if k == 0 then map[]
    else
      var before := DmTableIds(params, args, k - 1);
      var p := params[k - 1];
      if p.direction != EXPORTING && p.shape.Table? && Upper(p.name) in args && args[Upper(p.name)] != Many([]) then
        before[|before| + 1 := p.name]
      else before
  }

  /** The ids kept are the ids written: as many as tables were sent, numbered from 1, and the table
      sent as number n is the one the reply's id n is read as. */
  lemma {:induction false} IdsAgree(params: seq<Param>, args: Args, k: nat)
    requires k <= |params| && Built(CLIENT, params, args, k).Ok?
    ensures
      var ids := DmTableIds(params, args, k);
      && |ids| == Built(CLIENT, params, args, k).value.tables
      && (forall id :: id in ids <==> 1 <= id <= |ids|)
      && (k > 0 && Included(CLIENT, params[k - 1], args) && params[k - 1].shape.Table? ==>
            Built(CLIENT, params, args, k - 1).Ok? &&
            ids[Built(CLIENT, params, args, k - 1).value.tables + 1] == params[k - 1].name)
  {
    hide Group, Upper, IsText, WireOf, Built;
    if k == 0 {
      BuiltNone(CLIENT, params, args);
    } else {
      BuiltBefore(CLIENT, params, args, k);
      BuiltTables(CLIENT, params, args, k);
      IdsAgree(params, args, k - 1);
    }
  }

  lemma {:induction false} BuiltTables(side: Side, params: seq<Param>, args: Args, k: nat)
    requires 0 < k <= |params| && Built(side, params, args, k).Ok? && Built(side, params, args, k - 1).Ok?
    ensures
      var p := params[k - 1];
      Built(side, params, args, k).value.tables ==
      Built(side, params, args, k - 1).value.tables + (if Included(side, p, args) && p.shape.Table? then 1 else 0)
  {
    hide Group, Upper, Included, IsText, WireOf;
  }
}
