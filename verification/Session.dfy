/** The session state machine of `session.py`. What a received frame contains is a parameter. */
module Sessions {

  datatype State = Disconnected | Connected | NiVersioned | GwConnected | GwDone | Ready | InCall | Closed | Broken | WsPending

  /** Everything a caller can ask of a session. `accepted` says whether a fed frame passes its checks. */
  datatype Op =
    | Start
    | Feed(accepted: bool)
    | MarkInCall
    | MarkReady
    | MarkBroken
    | BeginWs
    | CompleteWs

  /** The state after an operation. An operation that raises leaves the state alone. */
  function Apply(s: State, op: Op): State {
    match op
    case Start => Connected
    case Feed(accepted) =>
      if !accepted then s
      else
        (match s
         case Connected => NiVersioned
         case NiVersioned => GwConnected
         case GwConnected => GwDone
         case GwDone => Ready
         case _ => s)
    case MarkInCall => if s == Ready then InCall else s
    case MarkReady => if s == InCall then Ready else s
    case MarkBroken => Broken
    case BeginWs => WsPending
    case CompleteWs => Ready
  }

  predicate Raises(s: State, op: Op) {
    match op
    case Feed(accepted) => !accepted || s !in {Connected, NiVersioned, GwConnected, GwDone}
    case MarkInCall => s != Ready
    case MarkReady => s != InCall
    case _ => false
  }

  class Session {
    var state: State
    var brokenReason: string

    constructor ()
      ensures state == Disconnected
    {
      state := Disconnected;
      brokenReason := "";
    }

    /** The guard every operation asks first; a refusal on a broken session names the original cause. */
    method RequireState(allowed: set<State>) returns (refusal: string)
      ensures refusal == "" <==> state in allowed
      ensures state == Broken && Broken !in allowed ==> brokenReason <= refusal
    {
      if state == Broken && Broken !in allowed {
        refusal := brokenReason + ": connection is unusable";
        assert refusal[|brokenReason|] == ':';
        return;
      }
      if state !in allowed {
        return "operation not allowed in this state";
      }
      return "";
    }

    method Do(op: Op, reason: string) returns (raised: bool)
      modifies this
      ensures state == Apply(old(state), op)
      ensures raised == Raises(old(state), op)
      ensures brokenReason == if op == MarkBroken then reason else old(brokenReason)
    {
      raised := false;
      match op
      case Start =>
        state := Connected;
      case Feed(accepted) =>
        raised := Receive(accepted);
      case MarkInCall =>
        var refusal := RequireState({Ready});
        if refusal != "" {
          return true;
        }
        state := InCall;
      case MarkReady =>
        var refusal := RequireState({InCall});
        if refusal != "" {
          return true;
        }
        state := Ready;
      case MarkBroken =>
        state, brokenReason := Broken, reason;
      case BeginWs =>
        state := WsPending;
      case CompleteWs =>
        state := Ready;
    }

    method Receive(accepted: bool) returns (raised: bool)
      modifies this`state
      ensures state == Apply(old(state), Feed(accepted)) && raised == Raises(old(state), Feed(accepted))
    {
      if !accepted {
        return true;
      }
      raised := false;
      match state
      case Connected => state := NiVersioned;
      case NiVersioned => state := GwConnected;
      case GwConnected => state := GwDone;
      case GwDone => state := Ready;
      case _ => raised := true;
    }
  }

  function Run(s: State, ops: seq<Op>): State
    decreases |ops|
  {
    if ops == [] then s else Run(Apply(s, ops[0]), ops[1..])
  }

  /** The operations that set the state without looking at it. */
  predicate Restarts(op: Op) {
    op.Start? || op.BeginWs? || op.CompleteWs?
  }

  /** A session is broken after every one of the operations. */
  ghost predicate StaysBroken(s: State, ops: seq<Op>)
    decreases |ops|
  {
    s == Broken && (ops != [] ==> StaysBroken(Apply(s, ops[0]), ops[1..]))
  }

  /** The source calls BROKEN terminal, with no path back. That holds exactly for the runs without
  `start`, `begin_ws_session` and the two `complete_ws_...` operations. */
  lemma {:induction false} BrokenIsTerminalIff(ops: seq<Op>)
    ensures StaysBroken(Broken, ops) <==> forall k :: 0 <= k < |ops| ==> !Restarts(ops[k])
    decreases |ops|
  {
    if ops != [] {
      BrokenIsTerminalIff(ops[1..]);
      if Restarts(ops[0]) {
        assert Apply(Broken, ops[0]) != Broken;
      } else {
        assert Apply(Broken, ops[0]) == Broken;
        assert forall k :: 0 <= k < |ops[1..]| ==> ops[1..][k] == ops[k + 1];
        assert forall k :: 1 <= k < |ops| ==> ops[k] == ops[1..][k - 1];
      }
    }
  }

  /** A broken session made ready again: one call to `complete_ws_handshake`. */
  lemma {:induction false} BrokenEscapes()
    ensures Run(Broken, [CompleteWs]) == Ready
  {
    assert Run(Ready, [CompleteWs][1..]) == Ready;
  }
}
