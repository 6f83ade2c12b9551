/**
 * A Manager's Close beside its reconnection chain (client_manager.go, client_manager_conn.go).  Close writes the state,
 * the flag, the counter and the state again, and then closes the connection; the chain tests the flag at three places
 * only.  Each critical section is one action.
 */
module CloseRace {
  import opened Prelude
  import opened Reconnect

  /** What the chain does next. */
  datatype ChainPc =
    | Starting    // the first call tests the flag
    | Entering    // claims the state
    | Testing     // compares the counter with the limit
    | Counting    // takes the delay, which counts the attempt
    | FirstTest   // tests the flag after the delay
    | Announcing  // the attempt handlers
    | SecondTest  // tests the flag after them
    | Dialing     // connect: sets the state
    | Locking     // connect: takes eioMu
    | Answering   // connect: the dial is answered; eioMu is held
    | Linking     // connect: the callbacks of the new connection become removable; eioMu is held
    | Reporting   // onReconnect
    | FailReset   // the limit was reached: resets the counter
    | FailState   // and gives up the state
    | Stopped

  /** What Close has done. */
  datatype ClosePc = NotClosed | StateSet | FlagSet | CounterReset | StateSetAgain | Closed

  /** The onClose of a connection that Close ended. */
  datatype Dying = Quiet | MustReset | MustSetState

  datatype State = State(
    pc: ChainPc,
    conn: ConnectionState,
    counter: nat,
    skip: bool,
    close: ClosePc,
    active: bool,           // the chain's connection exists and its callbacks have not been removed
    dying: Dying,
    ending: Option<Event>)  // the final event of the chain

  const INIT: State := State(Starting, Disconnected, 0, false, NotClosed, false, Quiet, None)

  datatype Action =
    | Chain(accepts: bool)  // a step of the chain; `accepts` answers the dial
    | CloseStep
    | DyingStep

  function ChainStep(s: State, accepts: bool, limit: nat): State {
    match s.pc
    case Starting => s.(pc := if s.skip then Stopped else Entering)
    case Entering => if s.conn != Disconnected then s.(pc := Stopped) else s.(conn := Reconnecting, pc := Testing)
    case Testing => s.(pc := if s.counter >= limit then FailReset else Counting)
    case Counting => s.(counter := s.counter + 1, pc := FirstTest)
    case FirstTest => s.(pc := if s.skip then Stopped else Announcing)
    case Announcing => s.(pc := SecondTest)
    case SecondTest => s.(pc := if s.skip then Stopped else Dialing)
    case Dialing => if s.conn == Connected then s.(pc := Reporting) else s.(conn := Connecting, pc := Locking)
    case Locking => s.(pc := Answering)
    case Answering => if accepts then s.(conn := Connected, pc := Linking) else s.(conn := Disconnected, pc := Entering)
    case Linking => s.(active := true, pc := Reporting)
    case Reporting => s.(counter := 0, ending := Some(Reconnected(s.counter)), pc := Stopped)
    case FailReset => s.(counter := 0, pc := FailState)
    case FailState => s.(conn := Disconnected, ending := Some(ReconnectFailed), pc := Stopped)
    case Stopped => s
  }

  /** eioMu is held from the dial until the connection is linked. */
  predicate Locked(s: State) {
    s.pc == Answering || s.pc == Linking
  }

  function DoClose(s: State): State {
    match s.close
    case NotClosed => s.(conn := Disconnected, close := StateSet)
    case StateSet => s.(skip := true, close := FlagSet)
    case FlagSet => s.(active := false, counter := 0, close := CounterReset)
    case CounterReset => s.(conn := Disconnected, close := StateSetAgain)
    case StateSetAgain =>
      if Locked(s) then s else s.(dying := if s.active then MustReset else Quiet, close := Closed)
    case Closed => s
  }

  function DoDying(s: State): State {
    match s.dying
    case Quiet => s
    case MustReset => s.(active := false, counter := 0, dying := MustSetState)
    case MustSetState => s.(conn := Disconnected, dying := Quiet)
  }

  function Do(s: State, a: Action, limit: nat): State {
    match a
    case Chain(accepts) => ChainStep(s, accepts, limit)
    case CloseStep => DoClose(s)
    case DyingStep => DoDying(s)
  }

  function Exec(s: State, actions: seq<Action>, limit: nat): State
    decreases |actions|
  {
    if actions == [] then s else Exec(Do(s, actions[0], limit), actions[1..], limit)
  }

  /** Chain and Close are over, and so is the onClose of a connection that Close ended. */
  predicate Over(s: State) {
    s.pc == Stopped && s.close == Closed && s.dying == Quiet
  }

  // ------------------------------------------------------------------------------------------
  // What every interleaving keeps
  // ------------------------------------------------------------------------------------------

  /** Close has reset the counter. */
  predicate WasReset(s: State) {
    s.close == CounterReset || s.close == StateSetAgain || s.close == Closed
  }

  /** The chain has made an attempt its own and not yet dialled. */
  predicate Attempting(pc: ChainPc) {
    pc in {Testing, Counting, FirstTest, Announcing, SecondTest, Dialing}
  }

  predicate Inv(s: State) {
    && (s.skip <==> s.close in {FlagSet, CounterReset, StateSetAgain, Closed})
    && (s.pc == Starting || s.pc == Entering ==> s.conn == Disconnected)
    && (Attempting(s.pc) ==> s.conn == Reconnecting || s.conn == Disconnected)
    && (s.pc == Locking || s.pc == Answering ==> s.conn == Connecting || s.conn == Disconnected)
    && (s.pc == Linking || s.pc == Reporting ==> s.conn == Connected || s.conn == Disconnected)
    && (s.pc == FailReset || s.pc == FailState ==> s.conn == Reconnecting || s.conn == Disconnected)
    && (s.pc == Stopped ==> s.conn != Connecting)
    && (s.active ==> s.pc == Reporting || s.pc == Stopped)
    && (s.dying != Quiet ==> s.close == Closed && (s.pc == Reporting || s.pc == Stopped))
    && (WasReset(s) ==> s.counter == 0 || (s.counter == 1 && (s.pc == FirstTest || s.pc == Stopped)))
    && (s.conn == Connected && s.close == StateSetAgain && !Locked(s) ==> s.active)
    && (s.ending.Some? ==> s.pc == Stopped)
  }

  lemma DoKeepsInv(s: State, a: Action, limit: nat)
    requires Inv(s)
    ensures Inv(Do(s, a, limit))
  {
  }

  lemma {:induction false} ExecKeepsInv(s: State, actions: seq<Action>, limit: nat)
    requires Inv(s)
    ensures Inv(Exec(s, actions, limit))
    decreases |actions|
  {
    if actions != [] {
      DoKeepsInv(s, actions[0], limit);
      ExecKeepsInv(Do(s, actions[0], limit), actions[1..], limit);
    }
  }

  // ------------------------------------------------------------------------------------------
  // A chain that nothing disturbs
  // ------------------------------------------------------------------------------------------

  /** The chain is about to claim the state, the counter being at a. */
  function Before(a: nat): State {
    State(Entering, Disconnected, a, false, NotClosed, false, Quiet, None)
  }

  function After(conn: ConnectionState, ending: Event): State {
    State(Stopped, conn, 0, false, NotClosed, conn == Connected, Quiet, Some(ending))
  }

  /** n steps of the chain, with the same answer to the dial. */
  function ChainSteps(n: nat, accepts: bool): (steps: seq<Action>)
    ensures |steps| == n && forall i | 0 <= i < n :: steps[i] == Chain(accepts)
  {
    seq(n, i => Chain(accepts))
  }

  lemma {:induction false} ExecStates(s: State, actions: seq<Action>, states: seq<State>, limit: nat)
    requires |states| == |actions| + 1 && states[0] == s
    requires forall i | 0 <= i < |actions| :: states[i + 1] == Do(states[i], actions[i], limit)
    ensures Exec(s, actions, limit) == states[|actions|]
    decreases |actions|
  {
    if actions != [] {
      ExecStates(states[1], actions[1..], states[1..], limit);
    }
  }

  lemma {:induction false} ExecAppend(s: State, a: seq<Action>, b: seq<Action>, limit: nat)
    ensures Exec(s, a + b, limit) == Exec(Exec(s, a, limit), b, limit)
    decreases |a|
  {
    if a == [] {
      assert a + b == b;
    } else {
      assert (a + b)[1..] == a[1..] + b;
      ExecAppend(Do(s, a[0], limit), a[1..], b, limit);
    }
  }

  /** Up to the dial. */
  lemma AttemptStarts(a: nat, accepts: bool, limit: nat)
    requires a < limit
    ensures Exec(Before(a), ChainSteps(8, accepts), limit) ==
            Before(a).(pc := Answering, conn := Connecting, counter := a + 1)
  {
    var s := Before(a);
    var c := s.(conn := Reconnecting, counter := a + 1);
    ExecStates(s, ChainSteps(8, accepts),
               [s, s.(pc := Testing, conn := Reconnecting), s.(pc := Counting, conn := Reconnecting),
                c.(pc := FirstTest), c.(pc := Announcing), c.(pc := SecondTest), c.(pc := Dialing),
                c.(pc := Locking, conn := Connecting), c.(pc := Answering, conn := Connecting)], limit);
  }

  lemma RefusedAttempt(a: nat, limit: nat)
    requires a < limit
    ensures Exec(Before(a), ChainSteps(9, false), limit) == Before(a + 1)
  {
    AttemptStarts(a, false, limit);
    assert ChainSteps(9, false) == ChainSteps(8, false) + ChainSteps(1, false);
    ExecAppend(Before(a), ChainSteps(8, false), ChainSteps(1, false), limit);
    var dialled := Before(a).(pc := Answering, conn := Connecting, counter := a + 1);
    ExecStates(dialled, ChainSteps(1, false), [dialled, Before(a + 1)], limit);
  }

  lemma AcceptedAttempt(a: nat, limit: nat)
    requires a < limit
    ensures Exec(Before(a), ChainSteps(11, true), limit) == After(Connected, Reconnected(a + 1))
  {
    AttemptStarts(a, true, limit);
    assert ChainSteps(11, true) == ChainSteps(8, true) + ChainSteps(3, true);
    ExecAppend(Before(a), ChainSteps(8, true), ChainSteps(3, true), limit);
    var dialled := Before(a).(pc := Answering, conn := Connecting, counter := a + 1);
    var linking := dialled.(pc := Linking, conn := Connected);
    ExecStates(dialled, ChainSteps(3, true),
               [dialled, linking, linking.(pc := Reporting, active := true), After(Connected, Reconnected(a + 1))],
               limit);
  }

  lemma LimitReached(a: nat, limit: nat)
    requires a >= limit
    ensures Exec(Before(a), ChainSteps(4, false), limit) == After(Disconnected, ReconnectFailed)
  {
    var s := Before(a);
    var c := s.(conn := Reconnecting);
    ExecStates(s, ChainSteps(4, false),
               [s, c.(pc := Testing), c.(pc := FailReset), c.(pc := FailState, counter := 0),
                After(Disconnected, ReconnectFailed)], limit);
  }

  /** The steps of a chain whose dials are answered by `turns`. */
  function WholeChain(turns: nat -> Turn, a: nat, limit: nat): seq<Action>
    decreases limit - a
  {
    if a >= limit then ChainSteps(4, false)
    else if turns(a) == Accepted then ChainSteps(11, true)
    else ChainSteps(9, false) + WholeChain(turns, a + 1, limit)
  }

  lemma {:induction false} ChainFrom(turns: nat -> Turn, a: nat, limit: nat)
    ensures var t, run := Exec(Before(a), WholeChain(turns, a, limit), limit), Run(turns, a, limit);
            t.pc == Stopped && t.conn == run.state && t.counter == run.counter
            && t.ending.Some? && Endings(run.events) == [t.ending.value]
    decreases limit - a
  {
    if a >= limit {
      LimitReached(a, limit);
      SeenOne(ReconnectFailed);
    } else if turns(a) == Accepted {
      AcceptedAttempt(a, limit);
      Reconnect.AcceptedAttempt(a + 1);
    } else {
      RefusedAttempt(a, limit);
      ExecAppend(Before(a), ChainSteps(9, false), WholeChain(turns, a + 1, limit), limit);
      ChainFrom(turns, a + 1, limit);
      RefusedOnce(a + 1);
      EndingsAppend([Attempt(a + 1), Error, ReconnectError], Run(turns, a + 1, limit).events);
    }
  }

  /** Without a Close the steps of the chain come to what reconnect does: same state, same counter, same last event. */
  lemma UndisturbedChain(turns: nat -> Turn, limit: nat)
    ensures var t := Exec(INIT, [Chain(false)] + WholeChain(turns, 0, limit), limit);
            var run := Run(turns, 0, limit);
            t.pc == Stopped && t.conn == run.state && t.counter == run.counter
            && t.ending.Some? && Endings(run.events) == [t.ending.value]
  {
    var chain := WholeChain(turns, 0, limit);
    assert ([Chain(false)] + chain)[1..] == chain;
    ChainFrom(turns, 0, limit);
  }

  // ------------------------------------------------------------------------------------------
  // Once Close is over
  // ------------------------------------------------------------------------------------------

  /** Where everything ends: state, counter, and the final event. */
  datatype Fate = Fate(conn: ConnectionState, counter: nat, ending: Option<Event>)

  /** A chain that claims the state once more counts one attempt and stops at the flag, unless the limit is reached. */
  function OneMoreAttempt(conn: ConnectionState, counter: nat, limit: nat): Fate {
    if counter >= limit then Fate(Disconnected, 0, Some(ReconnectFailed)) else Fate(conn, counter + 1, None)
  }

  /** What the rest of the chain makes of a state in which the flag is set; `accepts` answers its dial, if it dials. */
  function ChainFate(s: State, accepts: bool, limit: nat): Fate {
    match s.pc
    case Starting => Fate(s.conn, s.counter, None)
    case Entering => OneMoreAttempt(Reconnecting, s.counter, limit)
    case Testing => OneMoreAttempt(s.conn, s.counter, limit)
    case Counting => Fate(s.conn, s.counter + 1, None)
    case FirstTest => Fate(s.conn, s.counter, None)
    case Announcing => Fate(s.conn, s.counter, None)
    case SecondTest => Fate(s.conn, s.counter, None)
    case Dialing => DialFate(s, accepts, limit)
    case Locking => DialFate(s, accepts, limit)
    case Answering => DialFate(s, accepts, limit)
    case Linking => Fate(s.conn, 0, Some(Reconnected(s.counter)))
    case Reporting => Fate(s.conn, 0, Some(Reconnected(s.counter)))
    case FailReset => Fate(Disconnected, 0, Some(ReconnectFailed))
    case FailState => Fate(Disconnected, s.counter, Some(ReconnectFailed))
    case Stopped => Fate(s.conn, s.counter, s.ending)
  }

  function DialFate(s: State, accepts: bool, limit: nat): Fate {
    if accepts then Fate(Connected, 0, Some(Reconnected(s.counter))) else OneMoreAttempt(Reconnecting, s.counter, limit)
  }

  /** The onClose of a connection that Close ended has the last word. */
  function FateOf(s: State, accepts: bool, limit: nat): Fate {
    var fate := ChainFate(s, accepts, limit);
    match s.dying
    case Quiet => fate
    case MustReset => fate.(conn := Disconnected, counter := 0)
    case MustSetState => fate.(conn := Disconnected)
  }

  /** How the run answers the chain's next dial. */
  function Answer(s: State, actions: seq<Action>, limit: nat): bool
    decreases |actions|
  {
    if actions == [] then true
    else if s.pc == Answering && actions[0].Chain? then actions[0].accepts
    else Answer(Do(s, actions[0], limit), actions[1..], limit)
  }

  /** No step changes the fate; the answer to the dial matters only when it is given. */
  lemma StepKeepsFate(s: State, a: Action, limit: nat)
    requires Inv(s) && s.close == Closed
    ensures Do(s, a, limit).close == Closed
    ensures forall x, y | (if s.pc == Answering && a.Chain? then x == a.accepts else x == y) ::
              FateOf(s, x, limit) == FateOf(Do(s, a, limit), y, limit)
  {
  }

  lemma {:induction false} FateIsKept(s: State, actions: seq<Action>, limit: nat)
    requires Inv(s) && s.close == Closed && Over(Exec(s, actions, limit))
    ensures var t := Exec(s, actions, limit);
            FateOf(s, Answer(s, actions, limit), limit) == Fate(t.conn, t.counter, t.ending)
    decreases |actions|
  {
    if actions != [] {
      StepKeepsFate(s, actions[0], limit);
      DoKeepsInv(s, actions[0], limit);
      FateIsKept(Do(s, actions[0], limit), actions[1..], limit);
    }
  }

  /** The run ends with Close's last step. */
  predicate Closes(actions: seq<Action>, limit: nat) {
    && actions != [] && actions[|actions| - 1] == CloseStep
    && var s := Exec(INIT, actions[..|actions| - 1], limit);
       s.close == StateSetAgain && !Locked(s)
  }

  lemma {:induction false} ExecLast(s: State, actions: seq<Action>, limit: nat)
    requires actions != []
    ensures Exec(s, actions, limit) ==
            Do(Exec(s, actions[..|actions| - 1], limit), actions[|actions| - 1], limit)
    decreases |actions|
  {
    if |actions| == 1 {
      assert actions[..0] == [] && actions[1..] == [];
    } else {
      ExecLast(Do(s, actions[0], limit), actions[1..], limit);
      assert actions[..|actions| - 1][1..] == actions[1..][..|actions[1..]| - 1];
    }
  }

  /** What the last step of Close leaves: a connection made beside it is about to be closed. */
  ghost predicate JustClosed(s: State) {
    Inv(s) && s.close == Closed && (s.conn == Connected ==> s.dying == MustReset)
    && (s.pc == Reporting ==> s.dying == MustReset || s.conn == Disconnected) && !Locked(s) && s.dying != MustSetState
  }

  lemma CloseEnds(before: seq<Action>, limit: nat)
    requires Closes(before, limit)
    ensures JustClosed(Exec(INIT, before, limit))
  {
    ExecKeepsInv(INIT, before[..|before| - 1], limit);
    ExecLast(INIT, before, limit);
    DoKeepsInv(Exec(INIT, before[..|before| - 1], limit), CloseStep, limit);
  }

  /** The chain goes on after Close and connects. */
  predicate Reopens(s: State, accepts: bool) {
    (s.pc == Dialing || s.pc == Locking) && accepts
  }

  /** The chain claims the state after Close, or did so before Close was over and after it last wrote the state. */
  predicate Reclaims(s: State, accepts: bool) {
    s.pc == Entering || ((s.pc == Dialing || s.pc == Locking) && !accepts)
    || (s.conn == Reconnecting && s.dying == Quiet
        && s.pc in {Testing, Counting, FirstTest, Announcing, SecondTest, Stopped})
  }

  /** The chain counts an attempt after Close, or did so before Close was over and after it reset the counter. */
  predicate Recounts(s: State, accepts: bool) {
    s.pc == Entering || s.pc == Testing || s.pc == Counting || ((s.pc == Dialing || s.pc == Locking) && !accepts)
    || (s.counter > 0 && s.dying == Quiet)
  }

  lemma FateByPlace(s: State, accepts: bool, limit: nat)
    requires JustClosed(s) && limit > 0
    ensures var fate := FateOf(s, accepts, limit);
            && (fate.conn == Connected <==> Reopens(s, accepts))
            && (fate.conn == Reconnecting <==> Reclaims(s, accepts))
            && fate.conn != Connecting
            && fate.counter == if Recounts(s, accepts) then 1 else 0
  {
  }

  /**
   * A Close beside the chain, their steps in any order.  By the place the chain has reached when Close takes its last
   * step: the manager ends connected if and only if the chain was past its second test and about to dial, and the dial
   * is accepted; it ends Reconnecting, so that a later call to reconnect does nothing, if and only if the chain claims
   * the state again; its counter ends at one if and only if the chain counts again, and at zero otherwise.
   */
  lemma CloseDecides(before: seq<Action>, after: seq<Action>, limit: nat)
    requires limit > 0 && Closes(before, limit) && Over(Exec(Exec(INIT, before, limit), after, limit))
    ensures var s, t := Exec(INIT, before, limit), Exec(Exec(INIT, before, limit), after, limit);
            var accepts := Answer(s, after, limit);
            && (t.conn == Connected <==> Reopens(s, accepts))
            && (t.conn == Reconnecting <==> Reclaims(s, accepts))
            && (t.conn == Disconnected <==> !Reopens(s, accepts) && !Reclaims(s, accepts))
            && t.counter == (if Recounts(s, accepts) then 1 else 0)
            && t.ending == FateOf(s, accepts, limit).ending
  {
    var s := Exec(INIT, before, limit);
    CloseEnds(before, limit);
    FateIsKept(s, after, limit);
    FateByPlace(s, Answer(s, after, limit), limit);
  }

  // ------------------------------------------------------------------------------------------
  // A Close that the chain does not interrupt
  // ------------------------------------------------------------------------------------------

  /** The outcome by the place in the chain at which Close runs from its first step to its last. */
  function AtOnce(s: State, accepts: bool): Fate {
    match s.pc
    case Starting => Fate(Disconnected, 0, None)
    case Entering => Fate(Reconnecting, 1, None)
    case Testing => Fate(Disconnected, 1, None)
    case Counting => Fate(Disconnected, 1, None)
    case FirstTest => Fate(Disconnected, 0, None)
    case Announcing => Fate(Disconnected, 0, None)
    case SecondTest => Fate(Disconnected, 0, None)
    case Dialing => if accepts then Fate(Connected, 0, Some(Reconnected(0))) else Fate(Reconnecting, 1, None)
    case Locking => if accepts then Fate(Connected, 0, Some(Reconnected(0))) else Fate(Reconnecting, 1, None)
    case Answering => if accepts then Fate(Disconnected, 0, Some(Reconnected(0))) else Fate(Reconnecting, 1, None)
    case Linking => Fate(Disconnected, 0, Some(Reconnected(0)))
    case Reporting => Fate(Disconnected, 0, Some(Reconnected(0)))
    case FailReset => Fate(Disconnected, 0, Some(ReconnectFailed))
    case FailState => Fate(Disconnected, 0, Some(ReconnectFailed))
    case Stopped => Fate(Disconnected, 0, s.ending)
  }

  /** The four writes of Close in one go. */
  function FourWrites(s: State): State {
    DoClose(DoClose(DoClose(DoClose(s))))
  }

  /** During the delay and the attempt handlers, Close leaves the manager disconnected with the counter at zero. */
  lemma CloseAtOnce(s: State, accepts: bool, limit: nat)
    requires Inv(s) && s.close == NotClosed && !Locked(s) && limit > 0
    ensures FateOf(DoClose(FourWrites(s)), accepts, limit) == AtOnce(s, accepts)
  {
  }

  /** While the chain dials, Close waits with its last step for the answer. */
  lemma CloseWhileDialling(s: State, accepts: bool, limit: nat)
    requires Inv(s) && s.close == NotClosed && Locked(s) && limit > 0
    ensures var t := ChainStep(FourWrites(s), accepts, limit);
            var u := if Locked(t) then ChainStep(t, accepts, limit) else t;
            FateOf(DoClose(u), accepts, limit) == AtOnce(s, accepts)
  {
  }
}
