/** The connection pool (pool.py) as a monitor with lock gaps.

    A checkout holds the condition's lock except while it pings, opens or closes a connection and
    while it waits, so other callers run in those gaps.  The state records the pool's own fields
    and, for every acquire() call, where it stands; a step is one stretch of code between two
    gaps.  All theorems are about every state some run of such steps can reach. */
module Pools {
  type Conn = nat

  /** One acquire() call, from its first lock to its release. */
  type Caller = nat

  datatype Kind = OUT | WAIT | WOKE | OPEN | PING | LENT | DISCARD | RETURN

  /** Where a call stands.  Discarding closes a dead connection outside the lock and still owes a
      notify; Returning closes a connection released into a closed pool. */
  datatype Stage =
    | Outside | Waiting | Woken | Opening
    | Pinging(conn: Conn) | Lent(conn: Conn) | Discarding(conn: Conn) | Returning(conn: Conn)
  {
    function Kind(): Kind {
      match this
      case Outside => OUT
      case Waiting => WAIT
      case Woken => WOKE
      case Opening => OPEN
      case Pinging(_) => PING
      case Lent(_) => LENT
      case Discarding(_) => DISCARD
      case Returning(_) => RETURN
    }

    predicate HasConn() { Pinging? || Lent? || Discarding? || Returning? }

    predicate InUse() { Pinging? || Lent? }
  }

  datatype Metrics = Metrics(acquires: int, hits: int, creates: int, discards: int, timeouts: int)

  /** drain is what close() still has to close, closes the log of close() calls on connections. */
  datatype Pool = Pool(
    max: int, idle: seq<Conn>, inUse: set<Conn>, created: int, closed: bool, metrics: Metrics,
    calls: map<Caller, Stage>, made: set<Conn>, drain: seq<Conn>, closes: seq<Conn>)

  datatype Step =
    | Enter(t: Caller, late: bool)
    | Resume(t: Caller, late: bool)
    | PingOk(t: Caller)
    | PingDead(t: Caller)
    | DiscardDone(t: Caller, w: Caller, late: bool)
    | OpenOk(t: Caller, c: Conn)
    | OpenFailed(t: Caller, w: Caller)
    | Release(t: Caller, w: Caller)
    | ReturnDone(t: Caller, w: Caller)
    | Close
    | DrainOne

  // ---- the steps ----

  function Stand(calls: map<Caller, Stage>, t: Caller): Stage {
    if t in calls then calls[t] else Outside
  }

  function Put(p: Pool, t: Caller, s: Stage): Pool {
    p.(calls := p.calls[t := s])
  }

  predicate SomeoneWaits(calls: map<Caller, Stage>) {
    exists t :: t in calls && calls[t].Waiting?
  }

  /** notify() wakes one waiting call, whichever the condition picks, and none when none waits. */
  predicate Picks(p: Pool, w: Caller) {
    SomeoneWaits(p.calls) ==> Stand(p.calls, w).Waiting?
  }

  function Notify(p: Pool, w: Caller): Pool {
    if Stand(p.calls, w).Waiting? then Put(p, w, Woken) else p
  }

  /** Everything that waits is woken. */
  function NotifyAll(calls: map<Caller, Stage>): map<Caller, Stage> {
    map t | t in calls :: if calls[t].Waiting? then Woken else calls[t]
  }

  /** The loop of _checkout from its top to the next gap or exit; late says the deadline passed. */
  function Top(p: Pool, t: Caller, late: bool): Pool {
    if p.closed then Put(p, t, Outside)
    else if p.idle != [] then
      Put(p.(idle := p.idle[1..], inUse := p.inUse + {p.idle[0]}), t, Pinging(p.idle[0]))
    else if p.created < p.max then
      Put(p.(created := p.created + 1, metrics := p.metrics.(creates := p.metrics.creates + 1)), t, Opening)
    else if late then Put(p.(metrics := p.metrics.(timeouts := p.metrics.timeouts + 1)), t, Outside)
    else Put(p, t, Waiting)
  }

  function Lend(p: Pool, t: Caller, c: Conn): Pool {
    Put(p.(metrics := p.metrics.(acquires := p.metrics.acquires + 1)), t, Lent(c))
  }

  function AfterPing(p: Pool, t: Caller, c: Conn, healthy: bool): Pool {
    if healthy then Lend(p.(metrics := p.metrics.(hits := p.metrics.hits + 1)), t, c)
    else
      Put(p.(inUse := p.inUse - {c}, created := p.created - 1,
             metrics := p.metrics.(discards := p.metrics.discards + 1)), t, Discarding(c))
  }

  function AfterRelease(p: Pool, t: Caller, c: Conn, w: Caller): Pool {
    var q := p.(inUse := p.inUse - {c});
    if p.closed then Put(q.(created := p.created - 1), t, Returning(c))
    else Notify(Put(q.(idle := p.idle + [c]), t, Outside), w)
  }

  function AfterFailedOpen(p: Pool, t: Caller, w: Caller): Pool {
    Notify(Put(p.(created := p.created - 1, metrics := p.metrics.(creates := p.metrics.creates - 1)), t, Outside), w)
  }

  function AfterOpen(p: Pool, t: Caller, c: Conn): Pool {
    Lend(p.(inUse := p.inUse + {c}, made := p.made + {c}), t, c)
  }

  /** A connection has been closed outside the lock; the call takes the lock back and notifies. */
  function AfterQuietClose(p: Pool, t: Caller, c: Conn, w: Caller): Pool {
    Notify(Put(p.(closes := p.closes + [c]), t, Outside), w)
  }

  function AfterClose(p: Pool): Pool {
    if p.closed then p
    else
      p.(closed := true, idle := [], drain := p.idle, created := p.created - |p.idle|, calls := NotifyAll(p.calls))
  }

  predicate Enabled(p: Pool, s: Step) {
    match s
    case Enter(t, _) => Stand(p.calls, t).Outside?
    case Resume(t, _) => Stand(p.calls, t).Waiting? || Stand(p.calls, t).Woken?
    case PingOk(t) => Stand(p.calls, t).Pinging?
    case PingDead(t) => Stand(p.calls, t).Pinging?
    case DiscardDone(t, w, _) => Stand(p.calls, t).Discarding? && Picks(p, w)
    case OpenOk(t, c) => Stand(p.calls, t).Opening? && c !in p.made
    case OpenFailed(t, w) => Stand(p.calls, t).Opening? && Picks(p, w)
    case Release(t, w) => Stand(p.calls, t).Lent? && Picks(p, w)
    case ReturnDone(t, w) => Stand(p.calls, t).Returning? && Picks(p, w)
    case Close => true
    case DrainOne => p.drain != []
  }

  function Next(p: Pool, s: Step): Pool
    requires Enabled(p, s)
  {
    match s
    case Enter(t, late) => Top(p, t, late)
    case Resume(t, late) => Top(p, t, late)
    case PingOk(t) => AfterPing(p, t, Stand(p.calls, t).conn, true)
    case PingDead(t) => AfterPing(p, t, Stand(p.calls, t).conn, false)
    case DiscardDone(t, w, late) => Top(AfterQuietClose(p, t, Stand(p.calls, t).conn, w), t, late)
    case OpenOk(t, c) => AfterOpen(p, t, c)
    case OpenFailed(t, w) => AfterFailedOpen(p, t, w)
    case Release(t, w) => AfterRelease(p, t, Stand(p.calls, t).conn, w)
    case ReturnDone(t, w) => AfterQuietClose(p, t, Stand(p.calls, t).conn, w)
    case Close => AfterClose(p)
    case DrainOne => p.(drain := p.drain[1..], closes := p.closes + [p.drain[0]])
  }

  /** A step that is not possible where it is asked for does not happen. */
  function Act(p: Pool, s: Step): Pool {
    if Enabled(p, s) then Next(p, s) else p
  }

  /** The state after a run: any steps of any calls, interleaved in any order the gaps allow. */
  function Run(p: Pool, steps: seq<Step>): Pool
    decreases |steps|
  {
    if steps == [] then p else Run(Act(p, steps[0]), steps[1..])
  }

  /** The sizes the constructor accepts. */
  predicate SizesAccepted(min: int, max: int) {
    0 <= min && 1 <= max && min <= max
  }

  ghost predicate Distinct<T>(s: seq<T>) {
    forall i, j :: 0 <= i < j < |s| ==> s[i] != s[j]
  }

  function Elements<T>(s: seq<T>): set<T> {
    set x | x in s
  }

  /** A pool warmed up with the given connections. */
  function Fresh(max: int, warm: seq<Conn>): Pool {
    Pool(max, warm, {}, |warm|, false, Metrics(0, 0, 0, 0, 0), map[], Elements(warm), [], [])
  }

  // ---- how many calls stand where ----

  ghost function At(calls: map<Caller, Stage>, k: Kind): set<Caller> {
    set t | t in calls && calls[t].Kind() == k
  }

  ghost function Count(calls: map<Caller, Stage>, k: Kind): nat {
    |At(calls, k)|
  }

  ghost function One(b: bool): nat {
    if b then 1 else 0
  }

  lemma {:induction false} InAt(calls: map<Caller, Stage>, k: Kind, t: Caller)
    requires k != OUT
    ensures t in At(calls, k) <==> Stand(calls, t).Kind() == k
  {
  }

  lemma {:induction false} AtMoved(calls: map<Caller, Stage>, t: Caller, s: Stage, k: Kind)
    requires k != OUT
    ensures At(calls[t := s], k) == (At(calls, k) - {t}) + (if s.Kind() == k then {t} else {})
  {
    var l, r := At(calls[t := s], k), (At(calls, k) - {t}) + (if s.Kind() == k then {t} else {});
    forall u ensures u in l <==> u in r {
      hide At, Stage.Kind;
      InAt(calls, k, u);
      InAt(calls[t := s], k, u);
    }
  }

  lemma {:induction false} CountMoved(calls: map<Caller, Stage>, t: Caller, s: Stage, k: Kind)
    requires k != OUT
    ensures Count(calls[t := s], k) + One(Stand(calls, t).Kind() == k) == Count(calls, k) + One(s.Kind() == k)
  {
    hide At, Stage.Kind, Stand;
    AtMoved(calls, t, s, k);
    InAt(calls, k, t);
    assert |At(calls, k) - {t}| + One(t in At(calls, k)) == |At(calls, k)|;
  }

  lemma {:induction false} CountWaiting(calls: map<Caller, Stage>)
    ensures SomeoneWaits(calls) <==> Count(calls, WAIT) > 0
  {
    if SomeoneWaits(calls) {
      var t :| t in calls && calls[t].Waiting?;
      assert t in At(calls, WAIT);
    }
    if Count(calls, WAIT) > 0 {
      var t :| t in At(calls, WAIT);
      assert t in calls && calls[t].Waiting?;
    }
  }

  ghost function N(p: Pool, k: Kind): nat {
    Count(p.calls, k)
  }

  /** Every count after one call moves. */
  lemma {:induction false} Moved(p: Pool, t: Caller, s: Stage)
    ensures forall k | k != OUT ::
              N(Put(p, t, s), k) + One(Stand(p.calls, t).Kind() == k) == N(p, k) + One(s.Kind() == k)
  {
    hide Count, Stage.Kind, Stand;
    forall k | k != OUT
      ensures N(Put(p, t, s), k) + One(Stand(p.calls, t).Kind() == k) == N(p, k) + One(s.Kind() == k)
    {
      CountMoved(p.calls, t, s, k);
    }
  }

  lemma {:induction false} Notified(p: Pool, w: Caller)
    requires Picks(p, w)
    ensures forall k | k != OUT && k != WAIT && k != WOKE :: N(Notify(p, w), k) == N(p, k)
    ensures N(p, WAIT) == 0 ==> Notify(p, w) == p
    ensures N(p, WAIT) > 0 ==>
              N(Notify(p, w), WAIT) == N(p, WAIT) - 1 && N(Notify(p, w), WOKE) == N(p, WOKE) + 1
  {
    CountWaiting(p.calls);
    Moved(p, w, Woken);
    hide Count, SomeoneWaits;
  }

  // ---- the invariant ----

  ghost predicate Sums(p: Pool) {
    && p.created == |p.idle| + |p.inUse| + N(p, OPEN)
    && p.created <= p.max
    && |p.inUse| == N(p, PING) + N(p, LENT)
    && p.metrics.acquires == p.metrics.hits + p.metrics.creates - N(p, OPEN)
    && |p.made| == |p.idle| + |p.inUse| + N(p, DISCARD) + N(p, RETURN) + |p.drain| + |p.closes|
  }

  /** Slots a call could have at once: idle connections and room to grow. */
  function Free(p: Pool): int {
    |p.idle| + p.max - p.created
  }

  ghost predicate Awake(p: Pool) {
    && (p.closed ==> p.idle == [] && N(p, WAIT) == 0)
    && (!p.closed ==> p.drain == [] && N(p, RETURN) == 0)
    && (!p.closed && N(p, WAIT) > 0 ==> Free(p) <= N(p, WOKE) + N(p, DISCARD))
  }

  /** The connections no call has in hand, with how often each is listed. */
  ghost function Shelf(p: Pool): multiset<Conn> {
    multiset(p.idle) + multiset(p.drain) + multiset(p.closes)
  }

  predicate Has(calls: map<Caller, Stage>, t: Caller, c: Conn) {
    Stand(calls, t).HasConn() && Stand(calls, t).conn == c
  }

  predicate Uses(calls: map<Caller, Stage>, t: Caller, c: Conn) {
    Stand(calls, t).InUse() && Stand(calls, t).conn == c
  }

  /** Nothing is listed twice, listed things are in no call's hands, and no two calls have the same. */
  ghost predicate Separate(shelf: multiset<Conn>, made: set<Conn>, inUse: set<Conn>, calls: map<Caller, Stage>) {
    && (forall c :: shelf[c] <= 1)
    && (forall c <- shelf :: c in made && c !in inUse)
    && inUse <= made
    && (forall t, c | Has(calls, t, c) :: c in made && c !in shelf)
    && (forall t, c | Has(calls, t, c) :: c in inUse <==> Uses(calls, t, c))
    && (forall t, u, c | Has(calls, t, c) && Has(calls, u, c) :: t == u)
  }

  ghost predicate Apart(p: Pool) {
    Separate(Shelf(p), p.made, p.inUse, p.calls)
  }

  ghost predicate Sound(p: Pool) {
    Sums(p) && Awake(p) && Apart(p)
  }

  ghost predicate AtTop(p: Pool, t: Caller) {
    Stand(p.calls, t).Outside? || Stand(p.calls, t).Waiting? || Stand(p.calls, t).Woken?
  }

  lemma {:induction false} TopCounts(p: Pool, t: Caller, late: bool)
    requires Sums(p) && Awake(p) && AtTop(p, t)
    requires p.idle != [] ==> p.idle[0] !in p.inUse
    ensures Sums(Top(p, t, late)) && Awake(Top(p, t, late))
  {
    hide Count;
    if p.closed {
      Moved(p, t, Outside);
    } else if p.idle != [] {
      hide Sums, Awake, Top;
      TakeCounts(p, t, late);
    } else if p.created < p.max {
      hide Sums, Awake, Top;
      ReserveCounts(p, t, late);
    } else if late {
      Moved(p, t, Outside);
    } else {
      Moved(p, t, Waiting);
    }
  }

  lemma {:induction false} TakeCounts(p: Pool, t: Caller, late: bool)
    requires Sums(p) && Awake(p) && AtTop(p, t) && !p.closed && p.idle != [] && p.idle[0] !in p.inUse
    ensures Sums(Top(p, t, late)) && Awake(Top(p, t, late))
  {
    hide Count;
    Moved(p, t, Pinging(p.idle[0]));
  }

  lemma {:induction false} ReserveCounts(p: Pool, t: Caller, late: bool)
    requires Sums(p) && Awake(p) && AtTop(p, t) && !p.closed && p.idle == [] && p.created < p.max
    ensures Sums(Top(p, t, late)) && Awake(Top(p, t, late))
  {
    hide Count;
    Moved(p, t, Opening);
  }

  lemma {:induction false} PingCounts(p: Pool, t: Caller, healthy: bool)
    requires Sums(p) && Awake(p) && Stand(p.calls, t).Pinging? && Stand(p.calls, t).conn in p.inUse
    ensures
      var q := AfterPing(p, t, Stand(p.calls, t).conn, healthy);
      Sums(q) && Awake(q)
  {
    hide Count;
    var c := Stand(p.calls, t).conn;
    Moved(p, t, if healthy then Lent(c) else Discarding(c));
  }

  lemma {:induction false} OpenCounts(p: Pool, t: Caller, c: Conn)
    requires Sums(p) && Awake(p) && Stand(p.calls, t).Opening? && c !in p.made && p.inUse <= p.made
    ensures Sums(AfterOpen(p, t, c)) && Awake(AfterOpen(p, t, c))
  {
    hide Count;
    Moved(p, t, Lent(c));
  }

  lemma {:induction false} FailedOpenCounts(p: Pool, t: Caller, w: Caller)
    requires Sums(p) && Awake(p) && Stand(p.calls, t).Opening? && Picks(p, w)
    ensures Sums(AfterFailedOpen(p, t, w)) && Awake(AfterFailedOpen(p, t, w))
  {
    hide Count;
    Moved(p, t, Outside);
    var q := Put(p.(created := p.created - 1, metrics := p.metrics.(creates := p.metrics.creates - 1)), t, Outside);
    StillPicks(p.calls, t, Outside, w);
    Notified(q, w);
  }

  lemma {:induction false} StillPicks(calls: map<Caller, Stage>, t: Caller, s: Stage, w: Caller)
    requires !Stand(calls, t).Waiting? && !s.Waiting?
    requires SomeoneWaits(calls) ==> Stand(calls, w).Waiting?
    ensures SomeoneWaits(calls[t := s]) ==> Stand(calls[t := s], w).Waiting?
  {
    if SomeoneWaits(calls[t := s]) {
      var u :| u in calls[t := s] && calls[t := s][u].Waiting?;
      assert u in calls && calls[u].Waiting?;
    }
  }

  lemma {:induction false} ReleaseCounts(p: Pool, t: Caller, w: Caller)
    requires Sums(p) && Awake(p) && Stand(p.calls, t).Lent? && Stand(p.calls, t).conn in p.inUse && Picks(p, w)
    ensures
      var q := AfterRelease(p, t, Stand(p.calls, t).conn, w);
      Sums(q) && Awake(q)
  {
    hide Count;
    var c := Stand(p.calls, t).conn;
    var q := p.(inUse := p.inUse - {c});
    if p.closed {
      Moved(p, t, Returning(c));
    } else {
      Moved(p, t, Outside);
      StillPicks(p.calls, t, Outside, w);
      Notified(Put(q.(idle := p.idle + [c]), t, Outside), w);
    }
  }

  lemma {:induction false} QuietCloseCounts(p: Pool, t: Caller, w: Caller)
    requires Sums(p) && Awake(p) && Picks(p, w)
    requires Stand(p.calls, t).Discarding? || Stand(p.calls, t).Returning?
    ensures
      var q := AfterQuietClose(p, t, Stand(p.calls, t).conn, w);
      Sums(q) && Awake(q)
  {
    hide Count;
    Moved(p, t, Outside);
    StillPicks(p.calls, t, Outside, w);
    Notified(Put(p.(closes := p.closes + [Stand(p.calls, t).conn]), t, Outside), w);
  }

  lemma {:induction false} CloseCounts(p: Pool)
    requires Sums(p) && Awake(p)
    ensures Sums(AfterClose(p)) && Awake(AfterClose(p))
  {
    if !p.closed {
      var q := AfterClose(p);
      forall k | k != OUT && k != WAIT && k != WOKE ensures N(q, k) == N(p, k) {
        assert At(q.calls, k) == At(p.calls, k);
      }
      assert At(q.calls, WAIT) == {};
    }
    hide Count;
  }

  // ---- every connection is in one place ----

  lemma {:induction false} Popped(s: seq<Conn>)
    requires s != []
    ensures multiset(s) == multiset{s[0]} + multiset(s[1..])
  {
    assert s == [s[0]] + s[1..];
  }

  predicate HasIf(calls: map<Caller, Stage>, t: Caller, s: Stage, u: Caller, c: Conn) {
    if u == t then s.HasConn() && s.conn == c else Has(calls, u, c)
  }

  predicate UsesIf(calls: map<Caller, Stage>, t: Caller, s: Stage, u: Caller, c: Conn) {
    if u == t then s.InUse() && s.conn == c else Uses(calls, u, c)
  }

  lemma {:induction false} HasMoved(calls: map<Caller, Stage>, t: Caller, s: Stage, d: map<Caller, Stage>)
    requires d == calls[t := s]
    ensures forall u, c :: Has(d, u, c) == HasIf(calls, t, s, u, c)
    ensures forall u, c :: Uses(d, u, c) == UsesIf(calls, t, s, u, c)
  {
    forall u, c
      ensures Has(d, u, c) == HasIf(calls, t, s, u, c)
      ensures Uses(d, u, c) == UsesIf(calls, t, s, u, c)
    {
    }
  }

  lemma {:induction false} NothingMoved(shelf: multiset<Conn>, made: set<Conn>, inUse: set<Conn>,
                                        calls: map<Caller, Stage>, t: Caller, s: Stage)
    requires Separate(shelf, made, inUse, calls) && !s.HasConn() && !Stand(calls, t).HasConn()
    ensures Separate(shelf, made, inUse, calls[t := s])
  {
    HasMoved(calls, t, s, calls[t := s]);
    hide Has, Uses;
  }

  /** A call takes a connection off the shelf. */
  lemma {:induction false} TakeUp(shelf: multiset<Conn>, made: set<Conn>, inUse: set<Conn>,
                                  calls: map<Caller, Stage>, t: Caller, s: Stage)
    requires s.InUse() && Separate(shelf + multiset{s.conn}, made, inUse, calls) && !Stand(calls, t).HasConn()
    ensures Separate(shelf, made, inUse + {s.conn}, calls[t := s])
  {
    HasMoved(calls, t, s, calls[t := s]);
    assert s.conn in shelf + multiset{s.conn};
    assert (shelf + multiset{s.conn})[s.conn] == shelf[s.conn] + 1;
    forall c ensures shelf[c] <= (shelf + multiset{s.conn})[c] {}
    hide Has, Uses;
  }

  /** A call gets a connection that is new. */
  lemma {:induction false} TakeNew(shelf: multiset<Conn>, made: set<Conn>, inUse: set<Conn>,
                                   calls: map<Caller, Stage>, t: Caller, s: Stage)
    requires s.InUse() && Separate(shelf, made, inUse, calls) && s.conn !in made
    ensures Separate(shelf, made + {s.conn}, inUse + {s.conn}, calls[t := s])
  {
    HasMoved(calls, t, s, calls[t := s]);
    hide Has, Uses;
  }

  /** A call keeps its connection, in use or about to be closed. */
  lemma {:induction false} KeepHold(shelf: multiset<Conn>, made: set<Conn>, inUse: set<Conn>,
                                    calls: map<Caller, Stage>, t: Caller, s: Stage)
    requires Separate(shelf, made, inUse, calls) && s.HasConn() && Has(calls, t, s.conn)
    ensures Separate(shelf, made, if s.InUse() then inUse + {s.conn} else inUse - {s.conn}, calls[t := s])
  {
    HasMoved(calls, t, s, calls[t := s]);
    hide Has, Uses;
  }

  /** A call puts its connection on the shelf. */
  lemma {:induction false} PutDown(shelf: multiset<Conn>, made: set<Conn>, inUse: set<Conn>,
                                   calls: map<Caller, Stage>, t: Caller, c: Conn)
    requires Separate(shelf, made, inUse, calls) && Has(calls, t, c)
    ensures Separate(shelf + multiset{c}, made, inUse - {c}, calls[t := Outside])
  {
    HasMoved(calls, t, Outside, calls[t := Outside]);
    assert c !in shelf;
    forall d ensures (shelf + multiset{c})[d] <= 1 {
      assert (shelf + multiset{c})[d] == shelf[d] + multiset{c}[d];
    }
    forall d <- shelf + multiset{c} ensures d in shelf || d == c {}
    hide Has, Uses;
  }

  lemma {:induction false} TopApart(p: Pool, t: Caller, late: bool)
    requires Apart(p) && AtTop(p, t)
    ensures Apart(Top(p, t, late))
  {
    hide Separate;
    if !p.closed && p.idle != [] {
      var q := Top(p, t, late);
      Popped(p.idle);
      assert Shelf(p) == Shelf(q) + multiset{p.idle[0]};
      TakeUp(Shelf(q), p.made, p.inUse, p.calls, t, Pinging(p.idle[0]));
    } else {
      NothingMoved(Shelf(p), p.made, p.inUse, p.calls, t, Stand(Top(p, t, late).calls, t));
    }
  }

  lemma {:induction false} HeadIsIdle(p: Pool)
    requires Apart(p) && p.idle != []
    ensures p.idle[0] !in p.inUse
  {
    assert p.idle[0] in Shelf(p);
  }

  lemma {:induction false} PingApart(p: Pool, t: Caller, healthy: bool)
    requires Apart(p) && Stand(p.calls, t).Pinging?
    ensures Apart(AfterPing(p, t, Stand(p.calls, t).conn, healthy))
  {
    var c := Stand(p.calls, t).conn;
    InHand(p, t);
    hide Separate;
    assert p.inUse + {c} == p.inUse;
    KeepHold(Shelf(p), p.made, p.inUse, p.calls, t, if healthy then Lent(c) else Discarding(c));
  }

  lemma {:induction false} OpenApart(p: Pool, t: Caller, c: Conn)
    requires Apart(p) && Stand(p.calls, t).Opening? && c !in p.made
    ensures Apart(AfterOpen(p, t, c))
  {
    hide Separate;
    TakeNew(Shelf(p), p.made, p.inUse, p.calls, t, Lent(c));
  }

  lemma {:induction false} NotifyApart(p: Pool, w: Caller)
    requires Apart(p)
    ensures Apart(Notify(p, w))
  {
    hide Separate;
    if Stand(p.calls, w).Waiting? {
      NothingMoved(Shelf(p), p.made, p.inUse, p.calls, w, Woken);
    }
  }

  lemma {:induction false} FailedOpenApart(p: Pool, t: Caller, w: Caller)
    requires Apart(p) && Stand(p.calls, t).Opening?
    ensures Apart(AfterFailedOpen(p, t, w))
  {
    hide Separate;
    NothingMoved(Shelf(p), p.made, p.inUse, p.calls, t, Outside);
    NotifyApart(Put(p.(created := p.created - 1, metrics := p.metrics.(creates := p.metrics.creates - 1)), t, Outside), w);
  }

  lemma {:induction false} ReleaseApart(p: Pool, t: Caller, w: Caller)
    requires Apart(p) && Stand(p.calls, t).Lent?
    ensures Apart(AfterRelease(p, t, Stand(p.calls, t).conn, w))
  {
    hide Separate;
    var c := Stand(p.calls, t).conn;
    if p.closed {
      KeepHold(Shelf(p), p.made, p.inUse, p.calls, t, Returning(c));
    } else {
      var r := Put(p.(inUse := p.inUse - {c}, idle := p.idle + [c]), t, Outside);
      PutDown(Shelf(p), p.made, p.inUse, p.calls, t, c);
      assert Shelf(r) == Shelf(p) + multiset{c};
      NotifyApart(r, w);
    }
  }

  lemma {:induction false} QuietCloseApart(p: Pool, t: Caller, w: Caller)
    requires Apart(p) && (Stand(p.calls, t).Discarding? || Stand(p.calls, t).Returning?)
    ensures Apart(AfterQuietClose(p, t, Stand(p.calls, t).conn, w))
  {
    var c := Stand(p.calls, t).conn;
    var r := Put(p.(closes := p.closes + [c]), t, Outside);
    assert Has(p.calls, t, c) && !Uses(p.calls, t, c);
    assert p.inUse - {c} == p.inUse;
    hide Separate;
    PutDown(Shelf(p), p.made, p.inUse, p.calls, t, c);
    assert Shelf(r) == Shelf(p) + multiset{c};
    NotifyApart(r, w);
  }

  lemma {:induction false} CloseApart(p: Pool)
    requires Apart(p) && (!p.closed ==> p.drain == [])
    ensures Apart(AfterClose(p))
  {
    if !p.closed {
      var q := AfterClose(p);
      assert Shelf(q) == Shelf(p);
      forall t, c
        ensures Has(q.calls, t, c) == Has(p.calls, t, c) && Uses(q.calls, t, c) == Uses(p.calls, t, c)
      {
      }
      hide Has, Uses;
    }
  }

  lemma {:induction false} DrainApart(p: Pool)
    requires Apart(p) && p.drain != []
    ensures Apart(p.(drain := p.drain[1..], closes := p.closes + [p.drain[0]]))
  {
    Popped(p.drain);
    var q := p.(drain := p.drain[1..], closes := p.closes + [p.drain[0]]);
    assert Shelf(q) == Shelf(p);
  }

  // ---- every step, every run ----

  lemma {:induction false} InHand(p: Pool, t: Caller)
    requires Apart(p) && Stand(p.calls, t).InUse()
    ensures Stand(p.calls, t).conn in p.inUse
  {
    assert Has(p.calls, t, Stand(p.calls, t).conn);
  }

  lemma {:induction false} DrainCounts(p: Pool)
    requires Sums(p) && Awake(p) && p.drain != []
    ensures
      var q := p.(drain := p.drain[1..], closes := p.closes + [p.drain[0]]);
      Sums(q) && Awake(q)
  {
    hide Count;
  }

  lemma {:induction false} TopSound(p: Pool, t: Caller, late: bool)
    requires Sound(p) && AtTop(p, t)
    ensures Sound(Top(p, t, late))
  {
    hide Sums, Awake, Apart, Top;
    TopApart(p, t, late);
    if p.idle != [] {
      HeadIsIdle(p);
    }
    TopCounts(p, t, late);
  }

  /** Every step of every call keeps the invariant. */
  lemma {:induction false} StepSound(p: Pool, s: Step)
    requires Sound(p) && Enabled(p, s)
    ensures Sound(Next(p, s))
  {
    hide Sums, Apart, Top, AfterPing, AfterOpen, AfterFailedOpen, AfterRelease, AfterClose, Count;
    match s
    case Enter(t, late) => TopSound(p, t, late);
    case Resume(t, late) => TopSound(p, t, late);
    case PingOk(t) =>
      InHand(p, t);
      PingApart(p, t, true);
      PingCounts(p, t, true);
    case PingDead(t) =>
      InHand(p, t);
      PingApart(p, t, false);
      PingCounts(p, t, false);
    case DiscardDone(t, w, late) =>
      QuietCloseApart(p, t, w);
      QuietCloseCounts(p, t, w);
      TopSound(AfterQuietClose(p, t, Stand(p.calls, t).conn, w), t, late);
    case OpenOk(t, c) =>
      MadeInUse(p);
      OpenApart(p, t, c);
      OpenCounts(p, t, c);
    case OpenFailed(t, w) =>
      FailedOpenApart(p, t, w);
      FailedOpenCounts(p, t, w);
    case Release(t, w) =>
      InHand(p, t);
      ReleaseApart(p, t, w);
      ReleaseCounts(p, t, w);
    case ReturnDone(t, w) =>
      QuietCloseApart(p, t, w);
      QuietCloseCounts(p, t, w);
    case Close =>
      CloseApart(p);
      CloseCounts(p);
    case DrainOne =>
      DrainApart(p);
      DrainCounts(p);
  }

  lemma {:induction false} MadeInUse(p: Pool)
    requires Apart(p)
    ensures p.inUse <= p.made
  {
  }

  lemma {:induction false} RunSound(p: Pool, steps: seq<Step>)
    requires Sound(p)
    ensures Sound(Run(p, steps))
    decreases |steps|
  {
    if steps != [] {
      if Enabled(p, steps[0]) {
        StepSound(p, steps[0]);
      }
      hide Sound, Enabled, Next;
      RunSound(Act(p, steps[0]), steps[1..]);
    }
  }

  lemma {:induction false} FreshSound(max: int, warm: seq<Conn>)
    requires |warm| <= max && Distinct(warm)
    ensures Sound(Fresh(max, warm))
  {
    var p := Fresh(max, warm);
    forall k ensures Count(map[], k) == 0 {
      assert At(map[], k) == {};
    }
    SizeOfDistinct(warm);
    forall c ensures multiset(warm)[c] <= 1 {
      OnceInDistinct(warm, c);
    }
    assert Shelf(p) == multiset(warm);
  }

  lemma {:induction false} SizeOfDistinct(s: seq<Conn>)
    requires Distinct(s)
    ensures |Elements(s)| == |s|
  {
    if s != [] {
      var n := |s| - 1;
      SizeOfDistinct(s[..n]);
      assert s == s[..n] + [s[n]];
      assert Elements(s) == Elements(s[..n]) + {s[n]};
    }
  }

  lemma {:induction false} OnceInDistinct(s: seq<Conn>, c: Conn)
    requires Distinct(s)
    ensures multiset(s)[c] <= 1
  {
    if s != [] {
      var n := |s| - 1;
      OnceInDistinct(s[..n], c);
      assert s == s[..n] + [s[n]];
    }
  }

  // ---- what holds in every reachable state ----

  lemma {:induction false} ReachableSound(max: int, warm: seq<Conn>, steps: seq<Step>)
    requires SizesAccepted(|warm|, max) && Distinct(warm)
    ensures Sound(Run(Fresh(max, warm), steps))
  {
    FreshSound(max, warm);
    hide Sound, Run, Fresh;
    RunSound(Fresh(max, warm), steps);
  }

  /** No lost wake-up: on an open pool with a call asleep, every usable slot has a call on its way
      to it, woken already or still owing a notify. */
  lemma {:induction false} NoLostWakeUp(max: int, warm: seq<Conn>, steps: seq<Step>)
    requires SizesAccepted(|warm|, max) && Distinct(warm)
    ensures
      var p := Run(Fresh(max, warm), steps);
      SomeoneWaits(p.calls) ==> !p.closed && Free(p) <= N(p, WOKE) + N(p, DISCARD)
  {
    var p := Run(Fresh(max, warm), steps);
    ReachableSound(max, warm, steps);
    hide Run, Fresh;
    CountWaiting(p.calls);
  }

  /** When nobody is on the way, a sleeper means every slot is in somebody's hands. */
  lemma {:induction false} NobodyStranded(max: int, warm: seq<Conn>, steps: seq<Step>)
    requires SizesAccepted(|warm|, max) && Distinct(warm)
    ensures
      var p := Run(Fresh(max, warm), steps);
      SomeoneWaits(p.calls) && N(p, WOKE) == 0 && N(p, DISCARD) == 0 ==>
        N(p, LENT) + N(p, PING) + N(p, OPEN) == p.max
  {
    var p := Run(Fresh(max, warm), steps);
    ReachableSound(max, warm, steps);
    hide Run, Fresh;
    CountWaiting(p.calls);
  }

  /** Every slot is accounted for, and never more than the ceiling; the counters agree. */
  lemma {:induction false} SlotsConserved(max: int, warm: seq<Conn>, steps: seq<Step>)
    requires SizesAccepted(|warm|, max) && Distinct(warm)
    ensures
      var p := Run(Fresh(max, warm), steps);
      && p.created == |p.idle| + |p.inUse| + N(p, OPEN) <= p.max == max
      && |p.inUse| == N(p, PING) + N(p, LENT)
      && p.metrics.acquires == p.metrics.hits + p.metrics.creates - N(p, OPEN)
  {
    ReachableSound(max, warm, steps);
    MaxStays(Fresh(max, warm), steps);
    hide Run;
  }

  lemma {:induction false} MaxStays(p: Pool, steps: seq<Step>)
    ensures Run(p, steps).max == p.max
    decreases |steps|
  {
    if steps != [] {
      MaxStays(Act(p, steps[0]), steps[1..]);
    }
  }

  /** A lent connection has one holder, is nobody else's, idle nowhere and never closed. */
  lemma {:induction false} OneHolder(max: int, warm: seq<Conn>, steps: seq<Step>, t: Caller, u: Caller)
    requires SizesAccepted(|warm|, max) && Distinct(warm)
    ensures
      var p := Run(Fresh(max, warm), steps);
      Stand(p.calls, t).Lent? ==>
        var c := Stand(p.calls, t).conn;
        && c in p.inUse && c !in p.idle && c !in p.closes
        && (Stand(p.calls, u).HasConn() && Stand(p.calls, u).conn == c ==> u == t)
  {
    var p := Run(Fresh(max, warm), steps);
    ReachableSound(max, warm, steps);
    hide Run, Fresh, Sums, Awake;
    if Stand(p.calls, t).Lent? {
      var c := Stand(p.calls, t).conn;
      assert Has(p.calls, t, c) && Uses(p.calls, t, c);
      assert c !in Shelf(p);
      if Stand(p.calls, u).HasConn() && Stand(p.calls, u).conn == c {
        assert Has(p.calls, u, c);
      }
    }
  }

  /** No connection is ever closed twice, and only connections the pool made are closed. */
  lemma {:induction false} NeverClosedTwice(max: int, warm: seq<Conn>, steps: seq<Step>)
    requires SizesAccepted(|warm|, max) && Distinct(warm)
    ensures
      var p := Run(Fresh(max, warm), steps);
      forall c :: multiset(p.closes)[c] <= One(c in p.made)
  {
    var p := Run(Fresh(max, warm), steps);
    ReachableSound(max, warm, steps);
    hide Run, Fresh, Sums, Awake;
    forall c ensures multiset(p.closes)[c] <= One(c in p.made) {
      assert multiset(p.closes)[c] <= Shelf(p)[c] <= 1;
      if c in p.closes {
        assert c in Shelf(p);
      }
    }
  }

  /** Once the pool is closed, close() is through and the last call is done, every connection the
      pool ever made has been closed exactly once. */
  lemma {:induction false} EverythingClosedOnce(max: int, warm: seq<Conn>, steps: seq<Step>)
    requires SizesAccepted(|warm|, max) && Distinct(warm)
    ensures
      var p := Run(Fresh(max, warm), steps);
      p.closed && p.drain == [] && (forall t <- p.calls :: p.calls[t].Outside?) ==>
        multiset(p.closes) == multiset(p.made) && p.created == 0
  {
    var p := Run(Fresh(max, warm), steps);
    ReachableSound(max, warm, steps);
    NeverClosedTwice(max, warm, steps);
    hide Run, Fresh, Apart;
    if p.closed && p.drain == [] && (forall t <- p.calls :: p.calls[t].Outside?) {
      forall k | k != OUT ensures N(p, k) == 0 {
        assert At(p.calls, k) == {};
      }
      SameSize(multiset(p.closes), p.made);
    }
  }

  lemma {:induction false} SameSize(m: multiset<Conn>, s: set<Conn>)
    requires |m| == |s|
    requires forall c :: m[c] <= One(c in s)
    ensures m == multiset(s)
  {
    assert m <= multiset(s);
    assert multiset(s) == m + (multiset(s) - m);
    assert |multiset(s) - m| == 0;
  }

  /** A call times out exactly when its deadline has passed with no slot left to take. */
  lemma {:induction false} TimesOutIff(max: int, warm: seq<Conn>, steps: seq<Step>, t: Caller, late: bool)
    requires SizesAccepted(|warm|, max) && Distinct(warm)
    requires AtTop(Run(Fresh(max, warm), steps), t)
    ensures
      var p := Run(Fresh(max, warm), steps);
      Top(p, t, late).metrics.timeouts > p.metrics.timeouts <==>
        late && !p.closed && p.idle == [] && |p.inUse| + N(p, OPEN) == max
  {
    ReachableSound(max, warm, steps);
    MaxStays(Fresh(max, warm), steps);
    hide Run, Apart, Awake;
  }

  // ---- the pool object ----

  /** What the loop of _checkout does next. */
  datatype Verdict = ShutDown | Try(conn: Conn) | Grow | GiveUp | Sleep

  datatype Checkout = PoolClosed | PoolTimeout | OpenError | Got(conn: Conn) | StillTrying

  /** What happens around one turn of the loop: the steps other calls take in its gaps, whether the
      ping or the open succeeds and with which connection, whether the deadline has passed. */
  datatype Turn = Turn(late: bool, gap: seq<Step>, ok: bool, conn: Conn, closing: seq<Step>, wake: Caller)

  predicate By(s: Step, t: Caller) {
    match s
    case Close => false
    case DrainOne => false
    case _ => s.t == t
  }

  lemma {:induction false} RunAppend(p: Pool, a: seq<Step>, b: seq<Step>)
    ensures Run(p, a + b) == Run(Run(p, a), b)
    decreases |a|
  {
    if a == [] {
      assert a + b == b;
    } else {
      hide Act;
      RunAppend(Act(p, a[0]), a[1..], b);
      assert (a + b)[1..] == a[1..] + b;
    }
  }

  lemma {:induction false} RunOne(p: Pool, s: Step)
    ensures Run(p, [s]) == Act(p, s)
  {
    hide Act;
    assert [s][1..] == [];
  }

  /** Other calls leave a call where it stands, except that they may wake it. */
  predicate Stays(before: Stage, after: Stage) {
    before == after || (before.Waiting? && after.Woken?)
  }

  lemma {:induction false} PutStays(calls: map<Caller, Stage>, u: Caller, s: Stage, t: Caller)
    requires u != t
    ensures Stand(calls[u := s], t) == Stand(calls, t)
  {
  }

  lemma {:induction false} NotifyStays(p: Pool, w: Caller, t: Caller)
    ensures Stays(Stand(p.calls, t), Stand(Notify(p, w).calls, t))
  {
  }

  lemma {:induction false} TopStays(p: Pool, u: Caller, late: bool, t: Caller)
    requires u != t
    ensures Stand(Top(p, u, late).calls, t) == Stand(p.calls, t)
  {
  }

  lemma {:induction false} AllStays(calls: map<Caller, Stage>, t: Caller)
    ensures Stays(Stand(calls, t), Stand(NotifyAll(calls), t))
  {
  }

  lemma {:induction false} OthersNext(p: Pool, s: Step, t: Caller)
    requires !By(s, t) && Enabled(p, s)
    ensures Stays(Stand(p.calls, t), Stand(Next(p, s).calls, t))
  {
    match s
    case Enter(u, late) =>
      hide Stand, Top;
      TopStays(p, u, late, t);
    case Resume(u, late) =>
      hide Stand, Top;
      TopStays(p, u, late, t);
    case PingOk(u) => PutStays(p.calls, u, Lent(Stand(p.calls, u).conn), t);
    case PingDead(u) => PutStays(p.calls, u, Discarding(Stand(p.calls, u).conn), t);
    case DiscardDone(u, w, late) =>
      var c := Stand(p.calls, u).conn;
      hide Top, Notify;
      PutStays(p.calls, u, Outside, t);
      NotifyStays(Put(p.(closes := p.closes + [c]), u, Outside), w, t);
      TopStays(AfterQuietClose(p, u, c, w), u, late, t);
    case OpenOk(u, c) => PutStays(p.calls, u, Lent(c), t);
    case OpenFailed(u, w) =>
      hide Notify;
      PutStays(p.calls, u, Outside, t);
      NotifyStays(Put(p.(created := p.created - 1, metrics := p.metrics.(creates := p.metrics.creates - 1)), u, Outside), w, t);
    case Release(u, w) =>
      var c := Stand(p.calls, u).conn;
      hide Notify;
      PutStays(p.calls, u, Outside, t);
      PutStays(p.calls, u, Returning(c), t);
      NotifyStays(Put(p.(inUse := p.inUse - {c}, idle := p.idle + [c]), u, Outside), w, t);
    case ReturnDone(u, w) =>
      var c := Stand(p.calls, u).conn;
      hide Notify;
      PutStays(p.calls, u, Outside, t);
      NotifyStays(Put(p.(closes := p.closes + [c]), u, Outside), w, t);
    case Close => AllStays(p.calls, t);
    case DrainOne =>
  }

  lemma {:induction false} OthersStep(p: Pool, s: Step, t: Caller)
    requires !By(s, t)
    ensures Stays(Stand(p.calls, t), Stand(Act(p, s).calls, t))
  {
    hide Next, Enabled, Stand;
    if Enabled(p, s) {
      OthersNext(p, s, t);
    }
  }

  lemma {:induction false} OthersRun(p: Pool, steps: seq<Step>, t: Caller)
    requires forall s <- steps :: !By(s, t)
    ensures Stays(Stand(p.calls, t), Stand(Run(p, steps).calls, t))
    decreases |steps|
  {
    if steps != [] {
      OthersStep(p, steps[0], t);
      hide Act;
      OthersRun(Act(p, steps[0]), steps[1..], t);
    }
  }

  /** The steps of a script that are not the given call's. */
  function OthersOf(steps: seq<Step>, t: Caller): (r: seq<Step>)
    ensures forall s <- r :: !By(s, t)
    ensures (forall s <- steps :: !By(s, t)) ==> r == steps
  {
    if steps == [] then [] else (if By(steps[0], t) then [] else [steps[0]]) + OthersOf(steps[1..], t)
  }

  lemma {:induction false} ClosedStays(p: Pool, steps: seq<Step>)
    ensures p.closed ==> Run(p, steps).closed
    decreases |steps|
  {
    if steps != [] {
      ClosedStays(Act(p, steps[0]), steps[1..]);
    }
  }

  lemma {:induction false} ClosingStep(p: Pool)
    ensures Enabled(p, Step.Close) && Next(p, Step.Close) == AfterClose(p)
  {
  }

  lemma {:induction false} DrainingStep(p: Pool)
    requires p.drain != []
    ensures Enabled(p, DrainOne)
    ensures Next(p, DrainOne) == p.(drain := p.drain[1..], closes := p.closes + [p.drain[0]])
  {
  }

  class ConnectionPool {
    const max: int
    var idle: seq<Conn>
    var inUse: set<Conn>
    var created: int
    var closed: bool
    var metrics: Metrics
    /** Where every call stands: the condition's waiters and the callers' own positions. */
    var calls: map<Caller, Stage>
    /** The connections opened so far, those close() has in hand, and those closed. */
    var made: set<Conn>
    var drain: seq<Conn>
    var closes: seq<Conn>

    function View(): Pool
      reads this
    {
      Pool(max, idle, inUse, created, closed, metrics, calls, made, drain, closes)
    }

    constructor (max: int, warm: seq<Conn>)
      requires SizesAccepted(|warm|, max)
      ensures View() == Fresh(max, warm)
      ensures Distinct(warm) ==> Sound(View())
    {
      this.max := max;
      idle, inUse, created, closed := warm, {}, |warm|, false;
      metrics := Metrics(0, 0, 0, 0, 0);
      calls, made, drain, closes := map[], Elements(warm), [], [];
      new;
      if Distinct(warm) {
        FreshSound(max, warm);
      }
    }

    /** Refused sizes raise; otherwise the pool opens its first `min` connections. */
    static method Create(min: int, max: int, supply: seq<Conn>) returns (pool: ConnectionPool?)
      requires min <= |supply|
      ensures pool != null <==> SizesAccepted(min, max)
      ensures pool != null ==> fresh(pool) && pool.View() == Fresh(max, supply[..min])
    {
      if min < 0 || max < 1 || min > max {
        return null;
      }
      pool := new ConnectionPool(max, supply[..min]);
    }

    /** notify(): the call the condition picked goes from waiting to woken. */
    method Wake(w: Caller)
      modifies this
      ensures View() == Notify(old(View()), w)
    {
      if w in calls && calls[w].Waiting? {
        calls := calls[w := Woken];
      }
    }

    /** One turn of the loop of _checkout, up to the gap it opens or the way it ends. */
    method LoopTop(t: Caller, late: bool) returns (v: Verdict)
      modifies this
      ensures View() == Top(old(View()), t, late)
      ensures v.ShutDown? <==> old(closed)
      ensures v.Try? ==> Stand(calls, t) == Pinging(v.conn) && old(idle) != [] && v.conn == old(idle)[0]
      ensures v.Grow? ==> Stand(calls, t) == Opening && old(idle) == [] && old(created) < max
      ensures v.GiveUp? ==> late && old(idle) == [] && old(created) >= max
      ensures v.Sleep? <==> Stand(calls, t) == Waiting
    {
      if closed {
        calls := calls[t := Outside];
        return ShutDown;
      }
      if idle != [] {
        var candidate := idle[0];
        idle := idle[1..];
        inUse := inUse + {candidate};
        calls := calls[t := Pinging(candidate)];
        return Try(candidate);
      }
      if created < max {
        created := created + 1;
        metrics := metrics.(creates := metrics.creates + 1);
        calls := calls[t := Opening];
        return Grow;
      }
      if late {
        metrics := metrics.(timeouts := metrics.timeouts + 1);
        calls := calls[t := Outside];
        return GiveUp;
      }
      calls := calls[t := Waiting];
      return Sleep;
    }

    /** A gap: the lock is free and other calls run. */
    method Gap(t: Caller, steps: seq<Step>)
      modifies this
      ensures View() == Run(old(View()), OthersOf(steps, t))
      ensures Stays(old(Stand(calls, t)), Stand(calls, t))
      ensures closed || !old(closed)
    {
      var others := OthersOf(steps, t);
      OthersRun(View(), others, t);
      ClosedStays(View(), others);
      MaxStays(View(), others);
      var p := Run(View(), others);
      idle, inUse, created, closed, metrics := p.idle, p.inUse, p.created, p.closed, p.metrics;
      calls, made, drain, closes := p.calls, p.made, p.drain, p.closes;
    }

    /** What notify() picks: the hinted call if it waits, else any call that does. */
    method Pick(hint: Caller) returns (w: Caller)
      ensures Picks(View(), w)
    {
      w := hint;
      if SomeoneWaits(calls) && !Stand(calls, hint).Waiting? {
        w :| w in calls && calls[w].Waiting?;
      }
    }

    /** The lock is regained, after a wait or after closing a dead connection, and the loop turns. */
    method TakeTurn(t: Caller, turn: Turn) returns (v: Verdict, ghost s: Step)
      requires AtTop(View(), t) || Stand(calls, t).Discarding?
      modifies this
      ensures Enabled(old(View()), s) && View() == Next(old(View()), s)
      ensures v.ShutDown? || v.GiveUp? ==> Stand(calls, t) == Outside
      ensures v.ShutDown? ==> closed
      ensures v.Try? ==> Stand(calls, t) == Pinging(v.conn)
      ensures v.Grow? ==> Stand(calls, t) == Opening
      ensures v.GiveUp? ==> turn.late && idle == [] && created >= max
      ensures v.Sleep? ==> Stand(calls, t) == Waiting
    {
      var stage := Stand(calls, t);
      if stage.Discarding? {
        var w := Pick(turn.wake);
        closes := closes + [stage.conn];
        calls := calls[t := Outside];
        Wake(w);
        s := DiscardDone(t, w, turn.late);
      } else {
        s := if stage.Outside? then Enter(t, turn.late) else Resume(t, turn.late);
      }
      v := LoopTop(t, turn.late);
    }

    /** The ping's gap is over: lend the candidate, or count it out and leave to close it. */
    method AfterTry(t: Caller, healthy: bool) returns (ghost s: Step)
      requires Stand(calls, t).Pinging?
      modifies this
      ensures Enabled(old(View()), s) && View() == Next(old(View()), s)
      ensures Stand(calls, t) ==
        if healthy then Lent(old(Stand(calls, t)).conn) else Discarding(old(Stand(calls, t)).conn)
    {
      var candidate := Stand(calls, t).conn;
      if healthy {
        metrics := metrics.(hits := metrics.hits + 1);
        metrics := metrics.(acquires := metrics.acquires + 1);
        calls := calls[t := Lent(candidate)];
        s := PingOk(t);
      } else {
        inUse := inUse - {candidate};
        created := created - 1;
        metrics := metrics.(discards := metrics.discards + 1);
        calls := calls[t := Discarding(candidate)];
        s := PingDead(t);
      }
    }

    /** The open's gap is over: lend the new connection, or give the reserved slot back. */
    method AfterGrow(t: Caller, turn: Turn) returns (ok: bool, ghost s: Step)
      requires Stand(calls, t).Opening?
      modifies this
      ensures ok <==> turn.ok && turn.conn !in old(made)
      ensures Enabled(old(View()), s) && View() == Next(old(View()), s)
      ensures Stand(calls, t) == if ok then Lent(turn.conn) else Outside
    {
      ok := turn.ok && turn.conn !in made;
      if ok {
        inUse := inUse + {turn.conn};
        made := made + {turn.conn};
        metrics := metrics.(acquires := metrics.acquires + 1);
        calls := calls[t := Lent(turn.conn)];
        s := OpenOk(t, turn.conn);
      } else {
        var w := Pick(turn.wake);
        created := created - 1;
        metrics := metrics.(creates := metrics.creates - 1);
        calls := calls[t := Outside];
        Wake(w);
        s := OpenFailed(t, w);
      }
    }

    /** _checkout: whatever other calls do in its gaps, it is a run of the pool's steps, and it ends
        with a connection in hand exactly when it says so. */
    method Checkout(t: Caller, turns: seq<Turn>) returns (r: Checkout, ghost trace: seq<Step>)
      requires Stand(calls, t).Outside?
      modifies this
      ensures View() == Run(old(View()), trace)
      ensures r.Got? ==> Stand(calls, t) == Lent(r.conn)
      ensures r.PoolClosed? || r.PoolTimeout? || r.OpenError? ==> Stand(calls, t) == Outside
      ensures r.PoolClosed? ==> closed
      ensures r.PoolTimeout? ==> idle == [] && created >= max
      ensures r.StillTrying? ==> AtTop(View(), t) || Stand(calls, t).Discarding?
    {
      hide Run, Next, Top, Enabled, Stays;
      ghost var first := View();
      trace := [];
      RunNone(first);
      for i := 0 to |turns|
        invariant View() == Run(first, trace)
        invariant AtTop(View(), t) || Stand(calls, t).Discarding?
      {
        ghost var s: Step;
        var v: Verdict;
        v, s := TakeTurn(t, turns[i]);
        trace := Extended(first, trace, s, View());
        match v
        case ShutDown => return PoolClosed, trace;
        case GiveUp => return PoolTimeout, trace;
        case Try(candidate) =>
          trace := Interleaved(first, trace, OthersOf(turns[i].gap, t));
          Gap(t, turns[i].gap);
          s := AfterTry(t, turns[i].ok);
          trace := Extended(first, trace, s, View());
          if turns[i].ok {
            return Got(candidate), trace;
          }
          trace := Interleaved(first, trace, OthersOf(turns[i].closing, t));
          Gap(t, turns[i].closing);
        case Grow =>
          trace := Interleaved(first, trace, OthersOf(turns[i].gap, t));
          Gap(t, turns[i].gap);
          var ok: bool;
          ok, s := AfterGrow(t, turns[i]);
          trace := Extended(first, trace, s, View());
          return if ok then Got(turns[i].conn) else OpenError, trace;
        case Sleep =>
          trace := Interleaved(first, trace, OthersOf(turns[i].gap, t));
          Gap(t, turns[i].gap);
      }
      return StillTrying, trace;
    }

    /** release: back to the idle queue with one notify, or out of a closed pool to be closed. */
    method Release(t: Caller, gap: seq<Step>, wake: Caller) returns (ghost trace: seq<Step>)
      requires Stand(calls, t).Lent?
      modifies this
      ensures View() == Run(old(View()), trace)
      ensures Stand(calls, t).Outside?
    {
      hide Run, Next, Enabled;
      ghost var first := View();
      RunNone(first);
      var conn := Stand(calls, t).conn;
      var w := Pick(wake);
      ghost var s: Step;
      s := PutBack(t, w);
      trace := Extended(first, [], s, View());
      if Stand(calls, t).Returning? {
        trace := Interleaved(first, trace, OthersOf(gap, t));
        Gap(t, gap);
        w := Pick(wake);
        s := FinishReturn(t, w);
        trace := Extended(first, trace, s, View());
      }
    }

    /** close: shut the pool under the lock, waking everyone, then close what was idle. */
    method Close() returns (ghost trace: seq<Step>)
      requires closed || drain == []
      modifies this
      ensures View() == Run(old(View()), trace)
      ensures closed && (old(closed) ==> View() == old(View()))
      ensures !old(closed) ==> drain == [] && closes == old(closes) + old(idle)
    {
      hide Run, Next, Enabled;
      ghost var first := View();
      RunNone(first);
      trace := [];
      if closed {
        return;
      }
      ClosingStep(first);
      closed := true;
      drain := idle;
      idle := [];
      created := created - |drain|;
      calls := NotifyAll(calls);
      trace := Extended(first, [], Step.Close, View());
      ghost var was := drain;
      while drain != []
        invariant closed && View() == Run(first, trace)
        invariant closes + drain == first.closes + was
        decreases |drain|
      {
        DrainingStep(View());
        trace := Extended(first, trace, DrainOne, View().(drain := drain[1..], closes := closes + [drain[0]]));
        closes := closes + [drain[0]];
        drain := drain[1..];
      }
    }

    method PutBack(t: Caller, w: Caller) returns (ghost s: Step)
      requires Stand(calls, t).Lent? && Picks(View(), w)
      modifies this
      ensures Enabled(old(View()), s) && View() == Next(old(View()), s)
      ensures Stand(calls, t) == if old(closed) then Returning(old(Stand(calls, t)).conn) else Outside
    {
      var conn := Stand(calls, t).conn;
      s := Step.Release(t, w);
      inUse := inUse - {conn};
      if closed {
        created := created - 1;
        calls := calls[t := Returning(conn)];
      } else {
        idle := idle + [conn];
        calls := calls[t := Outside];
        Wake(w);
      }
    }

    method FinishReturn(t: Caller, w: Caller) returns (ghost s: Step)
      requires Stand(calls, t).Returning? && Picks(View(), w)
      modifies this
      ensures Enabled(old(View()), s) && View() == Next(old(View()), s)
      ensures Stand(calls, t).Outside?
    {
      s := ReturnDone(t, w);
      closes := closes + [Stand(calls, t).conn];
      calls := calls[t := Outside];
      Wake(w);
    }
  }

  lemma {:induction false} RunNone(p: Pool)
    ensures Run(p, []) == p
  {
  }

  ghost function Extended(first: Pool, trace: seq<Step>, s: Step, now: Pool): (r: seq<Step>)
    requires Enabled(Run(first, trace), s) && now == Next(Run(first, trace), s)
    ensures now == Run(first, r)
  {
    RunAppend(first, trace, [s]);
    RunOne(Run(first, trace), s);
    trace + [s]
  }

  ghost function Interleaved(first: Pool, trace: seq<Step>, others: seq<Step>): (r: seq<Step>)
    ensures Run(Run(first, trace), others) == Run(first, r)
  {
    RunAppend(first, trace, others);
    trace + others
  }
}
