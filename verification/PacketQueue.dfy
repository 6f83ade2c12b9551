/**
 * The two signalled queues: packetQueue (packet_queue.go), whose ready channel holds a token, and
 * pollQueue (engine.io/transport/polling/poll_queue.go), whose ready channel holds nothing.
 */
module PacketQueue {
  import opened Prelude

  /** Where pollAndSend's goroutine is. */
  datatype Pc = FirstGet | AtSelect | SecondGet

  datatype State<T> = State(
    queue: seq<T>,
    token: bool,               // the one slot of the ready channel
    pc: Pc,
    signalling: nat,           // adders that have appended and have not yet signalled
    batches: seq<seq<T>>)      // what poll has returned, in order

  datatype Action<T> =
    | Add(packets: seq<T>)  // the critical section of add
    | Signal                // its select on ready
    | Get                   // the first get of poll
    | Receive               // the poller's select takes the token
    | GetAgain              // the second get of poll

  function Init<T>(): State<T> {
    State([], false, FirstGet, 0, [])
  }

  predicate Enabled<T>(s: State<T>, a: Action<T>) {
    match a
    case Add(_) => true
    case Signal => s.signalling > 0
    case Get => s.pc == FirstGet
    case Receive => s.pc == AtSelect && s.token
    case GetAgain => s.pc == SecondGet
  }

  /** get: take everything, and return it if there is anything. */
  function Collect<T>(s: State<T>, ifEmpty: Pc): State<T> {
    if |s.queue| == 0 then s.(pc := ifEmpty)
    else s.(queue := [], pc := FirstGet, batches := s.batches + [s.queue])
  }

  function Do<T>(s: State<T>, a: Action<T>): State<T> {
    if !Enabled(s, a) then s
    else match a
      case Add(ps) => s.(queue := s.queue + ps, signalling := s.signalling + 1)
      case Signal => s.(token := true, signalling := s.signalling - 1)
      case Get => Collect(s, AtSelect)
      case Receive => s.(token := false, pc := SecondGet)
      case GetAgain => Collect(s, FirstGet)
  }

  function Exec<T>(s: State<T>, actions: seq<Action<T>>): State<T>
    decreases |actions|
  {
    if actions == [] then s else Exec(Do(s, actions[0]), actions[1..])
  }

  /** packetQueue's shared fields; ready stands for the token in its channel. */
  class Queue<T> {
    var packets: seq<T>
    var ready: bool

    constructor ()
      ensures packets == [] && !ready
    {
      packets, ready := [], false;
    }

    /** The critical section of add. */
    method Append(ps: seq<T>)
      modifies this`packets
      ensures packets == old(packets) + ps
    {
      if |packets| == 0 {
        packets := ps;
      } else {
        packets := packets + ps;
      }
    }

    /** The send that add ends with, lost when the token is already there. */
    method Signal()
      modifies this`ready
      ensures ready
    {
      if !ready {
        ready := true;
      }
    }

    method Get() returns (ps: seq<T>)
      modifies this`packets
      ensures ps == old(packets) && packets == []
    {
      ps := packets;
      packets := [];
    }

    /** Each operation takes the step of the same name. */
    method Perform(s: State<T>, a: Action<T>) returns (t: State<T>)
      requires Enabled(s, a) && s.queue == packets && s.token == ready
      modifies this
      ensures t == Do(s, a) && t.queue == packets && t.token == ready
    {
      match a {
        case Add(ps) =>
          Append(ps);
          t := s.(queue := packets, signalling := s.signalling + 1);
        case Signal =>
          Signal();
          t := s.(token := ready, signalling := s.signalling - 1);
        case Receive =>
          ready := false;
          t := s.(token := ready, pc := SecondGet);
        case Get =>
          var ps := Get();
          t := if |ps| != 0 then s.(queue := packets, pc := FirstGet, batches := s.batches + [ps])
               else s.(pc := AtSelect);
        case GetAgain =>
          var ps := Get();
          t := if |ps| != 0 then s.(queue := packets, pc := FirstGet, batches := s.batches + [ps])
               else s.(pc := FirstGet);
      }
    }
  }

  ghost predicate Inv<T(!new)>(s: State<T>) {
    && (forall i | 0 <= i < |s.batches| :: s.batches[i] != [])
    && (s.pc == AtSelect && s.queue != [] ==> s.token || s.signalling > 0)
  }

  lemma DoKeepsInv<T(!new)>(s: State<T>, a: Action<T>)
    requires Inv(s)
    ensures Inv(Do(s, a))
  {
  }

  lemma {:induction false} ExecKeepsInv<T(!new)>(s: State<T>, actions: seq<Action<T>>)
    requires Inv(s)
    ensures Inv(Exec(s, actions))
    decreases |actions|
  {
    if actions != [] {
      DoKeepsInv(s, actions[0]);
      ExecKeepsInv(Do(s, actions[0]), actions[1..]);
    }
  }

  /** The packets of the adds of a run, in the order in which their appends take effect. */
  function Added<T>(actions: seq<Action<T>>): seq<T> {
    if actions == [] then [] else (if actions[0].Add? then actions[0].packets else []) + Added(actions[1..])
  }

  lemma DoConserves<T(!new)>(s: State<T>, a: Action<T>)
    ensures var t := Do(s, a);
            Flatten(t.batches) + t.queue == Flatten(s.batches) + s.queue + (if a.Add? then a.packets else [])
  {
    if a.Add? {
      Assoc(Flatten(s.batches), s.queue, a.packets);
    } else {
      FlattenSnoc(s.batches, s.queue);
    }
  }

  lemma {:induction false} ExecConserves<T(!new)>(s: State<T>, actions: seq<Action<T>>)
    ensures var t := Exec(s, actions);
            Flatten(t.batches) + t.queue == Flatten(s.batches) + s.queue + Added(actions)
    decreases |actions|
  {
    if actions != [] {
      var a := actions[0];
      DoConserves(s, a);
      ExecConserves(Do(s, a), actions[1..]);
      Assoc(Flatten(s.batches) + s.queue, if a.Add? then a.packets else [], Added(actions[1..]));
    }
  }

  /** First in, first out: the polled batches, none of them empty, followed by the queue are the adds in order. */
  lemma FirstInFirstOut<T(!new)>(actions: seq<Action<T>>)
    ensures var s := Exec(Init(), actions);
            Flatten(s.batches) + s.queue == Added(actions) && forall i | 0 <= i < |s.batches| :: s.batches[i] != []
  {
    ExecKeepsInv(Init(), actions);
    ExecConserves(Init(), actions);
    assert [] + Added(actions) == Added(actions);
  }

  /** The steps by which the poller, and one pending signal if it needs it, empty the queue. */
  function Wake<T>(s: State<T>): seq<Action<T>> {
    match s.pc
    case FirstGet => [Get]
    case SecondGet => [GetAgain]
    case AtSelect => if s.token then [Receive, GetAgain] else [Signal, Receive, GetAgain]
  }

  /**
   * No wakeup is lost: whenever the poller waits on a non-empty queue the token is there or an adder is about to set
   * it, and from every reachable state, without another add, the queue is polled to the end.
   */
  lemma NoLostWakeup<T(!new)>(actions: seq<Action<T>>)
    ensures var s := Exec<T>(Init(), actions);
            s.pc == AtSelect && s.queue != [] ==> s.token || s.signalling > 0
    ensures var s := Exec<T>(Init(), actions);
            var t := Exec(s, Wake(s));
            s.queue != [] ==> t.queue == [] && t.batches == s.batches + [s.queue]
  {
    var s := Exec<T>(Init(), actions);
    ExecKeepsInv(Init(), actions);
    if s.queue != [] {
      match s.pc
      case FirstGet => ExecOne(s, Get);
      case SecondGet => ExecOne(s, GetAgain);
      case AtSelect =>
        if s.token {
          ExecTwo(s, Receive, GetAgain);
        } else {
          var s1 := Do(s, Signal);
          ExecTwo(s1, Receive, GetAgain);
          assert Wake(s)[1..] == [Receive, GetAgain];
        }
    }
  }

  lemma ExecOne<T>(s: State<T>, a: Action<T>)
    ensures Exec(s, [a]) == Do(s, a)
  {
    assert [a][1..] == [];
  }

  lemma ExecTwo<T>(s: State<T>, a: Action<T>, b: Action<T>)
    ensures Exec(s, [a, b]) == Do(Do(s, a), b)
  {
    assert [a, b][1..] == [b];
    ExecOne(Do(s, a), b);
  }

  // ------------------------------------------------------------------------------------------
  // pollQueue: an unbuffered channel forgets a signal nobody is waiting for
  // ------------------------------------------------------------------------------------------

  /** Where a poll request is: past its first get, in its select, or woken from it. */
  datatype PollPc = Checked | Waiting | Woken

  datatype PollState<T> = PollState(
    queue: seq<T>,
    polls: map<nat, PollPc>,   // the poll requests in progress; any number of them
    adding: bool,              // an add has appended and still holds the lock
    responses: seq<seq<T>>)    // what the poll requests were answered with

  datatype PollAction<T> =
    | PollAppend(packets: seq<T>)
    | PollSignal(waiter: nat)  // the send that add ends with, and the unlock; it wakes one waiting poll, if any
    | Check(poll: nat)         // the first get of poll
    | Wait(poll: nat)          // the poll reaches its select
    | CheckAgain(poll: nat)    // the second get, after a signal
    | TimesOut(poll: nat)      // pollTimeout passes first

  function PollInit<T>(): PollState<T> {
    PollState([], map[], false, [])
  }

  predicate Is<T>(s: PollState<T>, p: nat, pc: PollPc) {
    p in s.polls && s.polls[p] == pc
  }

  predicate Any<T>(s: PollState<T>, pc: PollPc) {
    exists p | p in s.polls :: s.polls[p] == pc
  }

  predicate PollEnabled<T>(s: PollState<T>, a: PollAction<T>) {
    match a
    case PollAppend(ps) => !s.adding
    case PollSignal(p) => s.adding && (Any(s, Waiting) ==> Is(s, p, Waiting))
    case Check(p) => p !in s.polls && !s.adding
    case Wait(p) => Is(s, p, Checked)
    case CheckAgain(p) => Is(s, p, Woken) && !s.adding
    case TimesOut(p) => Is(s, p, Waiting)
  }

  function PollDo<T>(s: PollState<T>, a: PollAction<T>): PollState<T> {
    if !PollEnabled(s, a) then s
    else match a
      case PollAppend(ps) => s.(queue := s.queue + ps, adding := true)
      case PollSignal(p) => s.(adding := false, polls := if Is(s, p, Waiting) then s.polls[p := Woken] else s.polls)
      case Check(p) =>
        if |s.queue| > 0 then s.(queue := [], responses := s.responses + [s.queue])
        else s.(polls := s.polls[p := Checked])
      case Wait(p) => s.(polls := s.polls[p := Waiting])
      case CheckAgain(p) => s.(queue := [], polls := s.polls - {p}, responses := s.responses + [s.queue])
      case TimesOut(p) => s.(polls := s.polls - {p}, responses := s.responses + [[]])
  }

  function PollExec<T>(s: PollState<T>, actions: seq<PollAction<T>>): PollState<T>
    decreases |actions|
  {
    if actions == [] then s else PollExec(PollDo(s, actions[0]), actions[1..])
  }

  /** A signal for queued packets finds nobody waiting while the poll is between its check and its wait. */
  predicate Misses<T>(s: PollState<T>, a: PollAction<T>, p: nat) {
    a.PollSignal? && PollEnabled(s, a) && !Any(s, Waiting) && Is(s, p, Checked) && |s.queue| > 0
  }

  /** The action takes the queue. */
  predicate Takes<T>(s: PollState<T>, a: PollAction<T>) {
    PollEnabled(s, a) && (a.Check? || a.CheckAgain?) && |s.queue| > 0
  }

  /** No action of the run takes the queue. */
  predicate Untaken<T>(s: PollState<T>, actions: seq<PollAction<T>>)
    decreases |actions|
  {
    actions == [] || (!Takes(s, actions[0]) && Untaken(PollDo(s, actions[0]), actions[1..]))
  }

  /** Somewhere in the run the poll misses a signal, and nobody takes the packets after it. */
  predicate MissedSignal<T>(s: PollState<T>, actions: seq<PollAction<T>>, p: nat)
    decreases |actions|
  {
    actions != [] &&
    ((Misses(s, actions[0], p) && Untaken(PollDo(s, actions[0]), actions[1..]))
     || MissedSignal(PollDo(s, actions[0]), actions[1..], p))
  }

  /** The polls that missed a signal for what is queued now. */
  ghost function LateAfter<T>(s: PollState<T>, late: set<nat>, a: PollAction<T>): set<nat> {
    if Takes(s, a) then {} else late + set p | p in s.polls && Misses(s, a, p)
  }

  ghost predicate PollInv<T(!new)>(s: PollState<T>, late: set<nat>) {
    s.queue != [] && !s.adding && !Any(s, Woken) ==> forall p | p in s.polls :: p in late
  }

  lemma PollDoKeepsInv<T(!new)>(s: PollState<T>, late: set<nat>, a: PollAction<T>)
    requires PollInv(s, late)
    ensures PollInv(PollDo(s, a), LateAfter(s, late, a))
  {
    if PollEnabled(s, a) {
      match a
      case PollSignal(p) => SignalKeepsInv(s, late, p);
      case Wait(p) => StillWoken(s, PollDo(s, a), p);
      case TimesOut(p) => StillWoken(s, PollDo(s, a), p);
      case _ =>
    }
  }

  /** A signal that finds nobody waiting is missed by every poll there is, unless one is already awake. */
  lemma SignalKeepsInv<T(!new)>(s: PollState<T>, late: set<nat>, p: nat)
    requires PollInv(s, late) && PollEnabled(s, PollSignal(p))
    ensures PollInv(PollDo(s, PollSignal(p)), LateAfter(s, late, PollSignal(p)))
  {
    var a := PollSignal(p);
    var s' := PollDo(s, a);
    if Is(s, p, Waiting) {
      assert s'.polls[p] == Woken;
    } else if !Any(s', Woken) && s'.queue != [] {
      forall q | q in s'.polls ensures q in LateAfter(s, late, a) {
        assert s.polls[q] != Waiting && s'.polls[q] != Woken;
        assert Misses(s, a, q);
      }
    }
  }

  lemma StillWoken<T(!new)>(s: PollState<T>, s': PollState<T>, p: nat)
    requires p in s.polls && s.polls[p] != Woken
    requires forall q | q in s.polls && q != p :: q in s'.polls && s'.polls[q] == s.polls[q]
    ensures Any(s, Woken) ==> Any(s', Woken)
  {
    if Any(s, Woken) {
      var q :| q in s.polls && s.polls[q] == Woken;
      assert s'.polls[q] == Woken;
    }
  }

  /** Packets that nobody takes stay. */
  lemma {:induction false} UntakenStays<T(!new)>(s: PollState<T>, actions: seq<PollAction<T>>)
    requires s.queue != [] && Untaken(s, actions)
    ensures PollExec(s, actions).queue != []
    decreases |actions|
  {
    if actions != [] {
      UntakenStays(PollDo(s, actions[0]), actions[1..]);
    }
  }

  lemma {:induction false} MissedStays<T(!new)>(s: PollState<T>, actions: seq<PollAction<T>>, p: nat)
    requires MissedSignal(s, actions, p)
    ensures PollExec(s, actions).queue != []
    decreases |actions|
  {
    var s' := PollDo(s, actions[0]);
    if Misses(s, actions[0], p) && Untaken(s', actions[1..]) {
      UntakenStays(s', actions[1..]);
    } else {
      MissedStays(s', actions[1..], p);
    }
  }

  /** A poll waits in vain at the end of the run. */
  ghost predicate WaitsInVain<T(!new)>(s: PollState<T>, p: nat) {
    Is(s, p, Waiting) && !s.adding && !Any(s, Woken) && s.queue != []
  }

  lemma {:induction false} VainMeansMissed<T(!new)>(s: PollState<T>, late: set<nat>, actions: seq<PollAction<T>>,
                                                    p: nat)
    requires PollInv(s, late) && WaitsInVain(PollExec(s, actions), p)
    ensures MissedSignal(s, actions, p) || (p in late && Untaken(s, actions))
    decreases |actions|
  {
    if actions != [] {
      PollDoKeepsInv(s, late, actions[0]);
      VainMeansMissed(PollDo(s, actions[0]), LateAfter(s, late, actions[0]), actions[1..], p);
    }
  }

  /**
   * With any number of poll requests: one that waits while nobody is adding and nobody is awake sleeps on a non-empty
   * queue, and can only time out with nothing, if and only if it missed a signal, that is, a signal fell between its
   * check and its wait, found nobody waiting, and nobody has taken the packets since.
   */
  lemma LostWakeupExactly<T(!new)>(actions: seq<PollAction<T>>, p: nat)
    requires var s := PollExec(PollInit<T>(), actions); Is(s, p, Waiting) && !s.adding && !Any(s, Woken)
    ensures PollExec(PollInit(), actions).queue != [] <==> MissedSignal(PollInit(), actions, p)
  {
    if PollExec(PollInit(), actions).queue != [] {
      VainMeansMissed(PollInit(), {}, actions, p);
    }
    if MissedSignal(PollInit(), actions, p) {
      MissedStays(PollInit(), actions, p);
    }
  }

  /** The packets of the adds of a run; an add waits while another one holds the lock. */
  function PollAdded<T>(s: PollState<T>, actions: seq<PollAction<T>>): seq<T>
    decreases |actions|
  {
    if actions == [] then []
    else
      (if actions[0].PollAppend? && !s.adding then actions[0].packets else []) +
      PollAdded(PollDo(s, actions[0]), actions[1..])
  }

  lemma PollDoConserves<T(!new)>(s: PollState<T>, a: PollAction<T>)
    ensures var t := PollDo(s, a);
            Flatten(t.responses) + t.queue ==
            Flatten(s.responses) + s.queue + (if a.PollAppend? && !s.adding then a.packets else [])
  {
    if a.PollAppend? {
      Assoc(Flatten(s.responses), s.queue, a.packets);
    } else if a.TimesOut? {
      FlattenSnoc(s.responses, []);
    } else {
      FlattenSnoc(s.responses, s.queue);
    }
  }

  /** Missed wakeups delay packets but lose none: the responses followed by the queue are the adds in order. */
  lemma {:induction false} PollConserves<T(!new)>(s: PollState<T>, actions: seq<PollAction<T>>)
    ensures var t := PollExec(s, actions);
            Flatten(t.responses) + t.queue == Flatten(s.responses) + s.queue + PollAdded(s, actions)
    decreases |actions|
  {
    if actions != [] {
      var a := actions[0];
      PollDoConserves(s, a);
      PollConserves(PollDo(s, a), actions[1..]);
      Assoc(Flatten(s.responses) + s.queue, if a.PollAppend? && !s.adding then a.packets else [],
            PollAdded(PollDo(s, a), actions[1..]));
    }
  }

  /** A poll that is awake is answered with everything that is queued as soon as nobody is adding. */
  lemma WokenIsAnswered<T(!new)>(s: PollState<T>, p: nat)
    requires Is(s, p, Waiting) && s.adding
    ensures var t := PollExec(s, [PollSignal(p), CheckAgain(p)]);
            t.responses == s.responses + [s.queue] && t.queue == [] && p !in t.polls
  {
    var woken := PollDo(s, PollSignal(p));
    PollExecSteps(s, [PollSignal(p), CheckAgain(p)], [s, woken, PollDo(woken, CheckAgain(p))]);
  }

  lemma {:induction false} PollExecSteps<T>(s: PollState<T>, actions: seq<PollAction<T>>, states: seq<PollState<T>>)
    requires |states| == |actions| + 1 && states[0] == s
    requires forall i | 0 <= i < |actions| :: states[i + 1] == PollDo(states[i], actions[i])
    ensures PollExec(s, actions) == states[|actions|]
    decreases |actions|
  {
    if actions != [] {
      PollExecSteps(states[1], actions[1..], states[1..]);
    }
  }

  lemma WakeupCanBeLost<T(!new)>(p: T)
    ensures var s := PollExec(PollInit(), [Check(0), PollAppend([p]), PollSignal(0), Wait(0), TimesOut(0)]);
            s.queue == [p] && s.responses == [[]]
  {
    var s := PollInit();
    var actions := [Check(0), PollAppend([p]), PollSignal(0), Wait(0), TimesOut(0)];
    PollExecSteps(s, actions, [s,
                               PollState([], map[0 := Checked], false, []),
                               PollState([p], map[0 := Checked], true, []),
                               PollState([p], map[0 := Checked], false, []),
                               PollState([p], map[0 := Waiting], false, []),
                               PollState([p], map[], false, [[]])]);
  }
}
