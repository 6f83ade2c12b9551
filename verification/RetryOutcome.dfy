/**
 * What the client's retry queue comes to: why packets leave it, how often they are emitted, what whole calls do, and
 * that it does not stall.
 */
module RetryOutcome {
  import opened Prelude
  import opened RetryQueue

  /** Packets leave in queue order, once each. */
  lemma LeavesInOrder(s: State, retries: nat)
    requires Inv(s, retries)
    ensures s.gone + s.queue == s.appended
  {
    assert Range(0, |s.gone|) + Range(|s.gone|, |s.appended|) == Range(0, |s.appended|);
  }

  /** A packet in the queue: its callback has not run, and it was emitted at most Retries + 1 times. */
  lemma InQueue(s: State, p: PacketId, retries: nat)
    requires Inv(s, retries) && p in s.queue
    ensures p in s.entries && s.entries[p].acks == 0 && s.entries[p].tryCount <= retries + 1
    ensures forall t | Holds(s, t, p) :: p == s.queue[0]
  {
    var i :| 0 <= i < |s.queue| && s.queue[i] == p;
    assert QueuedOk(s, p, retries);
    forall t | Holds(s, t, p) ensures p == s.queue[0] {
      HeldIsHead(s, t, retries);
    }
  }

  /** A packet that left: emitted at least once, and its callback has run once or is about to. */
  lemma AfterQueue(s: State, p: PacketId, retries: nat)
    requires Inv(s, retries) && p in s.gone
    ensures p in s.entries && 1 <= s.entries[p].tryCount <= retries + 1 && s.entries[p].acks <= 1
    ensures s.entries[p].acks == 0 ==> exists t :: Holds(s, t, p) && s.threads[t].pc == MustAck
  {
    var i :| 0 <= i < |s.gone| && s.gone[i] == p;
    assert GoneOk(s, p, retries);
  }

  // ------------------------------------------------------------------------------------------
  // What happened in a run
  // ------------------------------------------------------------------------------------------

  /** The packets for which a reply without an error came in. */
  function Acknowledged(s: State, actions: seq<Action>, retries: nat): set<PacketId>
    decreases |actions|
  {
    if actions == [] then {} else Acks(s, actions[0]) + Acknowledged(Do(s, actions[0], retries), actions[1..], retries)
  }

  function Acks(s: State, a: Action): set<PacketId> {
    if a.Outcome? && a.ok && Enabled(s, a) then {s.threads[a.t].packet} else {}
  }

  /** The step starts an emission of packet p: a goroutine that waits for its outcome appears. */
  predicate Emits(s: State, a: Action, p: PacketId, retries: nat) {
    var threads := Do(s, a, retries).threads;
    s.nextThread in threads && threads[s.nextThread] == Thread(p, Emitted)
  }

  function Emissions(s: State, actions: seq<Action>, p: PacketId, retries: nat): nat
    decreases |actions|
  {
    if actions == [] then 0
    else
      (if Emits(s, actions[0], p, retries) then 1 else 0) +
      Emissions(Do(s, actions[0], retries), actions[1..], p, retries)
  }

  /** How often the user's callback of packet p runs. */
  function Callbacks(s: State, actions: seq<Action>, p: PacketId, retries: nat): nat
    decreases |actions|
  {
    if actions == [] then 0
    else
      (if actions[0].RunAck? && Enabled(s, actions[0]) && s.threads[actions[0].t].packet == p then 1 else 0) +
      Callbacks(Do(s, actions[0], retries), actions[1..], p, retries)
  }

  /** How often a packet is queued. */
  function Enqueues(actions: seq<Action>): nat {
    if actions == [] then 0 else (if actions[0] == Enqueue then 1 else 0) + Enqueues(actions[1..])
  }

  function Tries(s: State, p: PacketId): nat {
    if p in s.entries then s.entries[p].tryCount else 0
  }

  function CallbacksOf(s: State, p: PacketId): nat {
    if p in s.entries then s.entries[p].acks else 0
  }

  lemma CountsStep(s: State, a: Action, p: PacketId, retries: nat)
    requires Inv(s, retries)
    ensures var s' := Do(s, a, retries);
            && Tries(s', p) == Tries(s, p) + (if Emits(s, a, p, retries) then 1 else 0)
            && CallbacksOf(s', p) == CallbacksOf(s, p) +
                 (if a.RunAck? && Enabled(s, a) && s.threads[a.t].packet == p then 1 else 0)
            && |s'.appended| == |s.appended| + (if a == Enqueue then 1 else 0)
  {
    assert s.nextThread in s.threads ==> ThreadOk(s, s.nextThread, retries);
  }

  /** The fields of a packet count its emissions and the runs of its callback. */
  lemma {:induction false} CountsExactly(s: State, actions: seq<Action>, p: PacketId, retries: nat)
    requires Inv(s, retries) && Gentle(s, actions, retries)
    ensures var t := Exec(s, actions, retries);
            && Tries(t, p) == Tries(s, p) + Emissions(s, actions, p, retries)
            && CallbacksOf(t, p) == CallbacksOf(s, p) + Callbacks(s, actions, p, retries)
            && |t.appended| == |s.appended| + Enqueues(actions)
    decreases |actions|
  {
    if actions != [] {
      CountsStep(s, actions[0], p, retries);
      DoKeepsInv(s, actions[0], retries);
      CountsExactly(Do(s, actions[0], retries), actions[1..], p, retries);
    }
  }

  /** Packet p, if it is in the queue, is about to be taken out by a goroutine that holds it. */
  ghost predicate Leaving(s: State, p: PacketId) {
    Queued(s, p) ==> exists t :: Holds(s, t, p) && s.threads[t].pc == MustPop
  }

  /** Packet p was acknowledged, or all its tries were used up. */
  predicate MayLeave(s: State, won: set<PacketId>, p: PacketId, retries: nat) {
    p in won || Tries(s, p) > retries
  }

  /** Why packets leave: `won` holds those acknowledged so far. */
  ghost predicate Justified(s: State, won: set<PacketId>, retries: nat) {
    && (forall t | t in s.threads && s.threads[t].pc == MustPop :: MayLeave(s, won, s.threads[t].packet, retries))
    && (forall p | p in s.gone :: MayLeave(s, won, p, retries))
    && (forall p | p in won :: p in s.entries && Leaving(s, p))
  }

  /** A packet about to be taken out is taken out next. */
  lemma StillLeaving(s: State, a: Action, p: PacketId, retries: nat)
    requires Inv(s, retries) && p in s.entries && Leaving(s, p) && !Collides(s, a)
    ensures p in Do(s, a, retries).entries && Leaving(Do(s, a, retries), p)
  {
    var s' := Do(s, a, retries);
    if Queued(s, p) {
      var t :| Holds(s, t, p) && s.threads[t].pc == MustPop;
      assert ThreadOk(s, t, retries);
      if a == Pop(t) {
        PopKeepsInv(s, t, retries);
        HeldIsHead(s, t, retries);
      } else {
        assert t in s'.threads && s'.threads[t] == s.threads[t];
        assert Holds(s', t, p);
      }
    }
  }

  /** A try is only added to the head of the queue, when nobody holds it. */
  lemma TriesKept(s: State, a: Action, p: PacketId, retries: nat)
    requires Inv(s, retries) && !Collides(s, a) && p in s.entries
    requires !Queued(s, p) || exists t :: Holds(s, t, p)
    ensures Tries(Do(s, a, retries), p) == Tries(s, p)
  {
    if Queued(s, p) {
      assert QueuedOk(s, p, retries);
    }
    assert s.queue != [] ==> Queued(s, s.queue[0]);
  }

  lemma PopJustified(s: State, t: nat, won: set<PacketId>, p: PacketId, retries: nat)
    requires Inv(s, retries) && Justified(s, won, retries) && Enabled(s, Pop(t))
    requires p in Do(s, Pop(t), retries).gone
    ensures MayLeave(Do(s, Pop(t), retries), won, p, retries)
  {
    PopKeepsInv(s, t, retries);
    assert p in s.gone || p == s.threads[t].packet;
    assert Tries(Do(s, Pop(t), retries), p) == Tries(s, p);
  }

  lemma GoneJustified(s: State, a: Action, won: set<PacketId>, p: PacketId, retries: nat)
    requires Inv(s, retries) && Justified(s, won, retries) && !Collides(s, a)
    requires p in Do(s, a, retries).gone
    ensures MayLeave(Do(s, a, retries), won + Acks(s, a), p, retries)
  {
    if a.Pop? && Enabled(s, a) {
      PopJustified(s, a.t, won, p, retries);
    } else {
      assert p in s.gone;
      AfterQueue(s, p, retries);
      assert !Queued(s, p);
      TriesKept(s, a, p, retries);
    }
  }

  lemma PopperJustified(s: State, a: Action, won: set<PacketId>, t: nat, retries: nat)
    requires Inv(s, retries) && Justified(s, won, retries) && !Collides(s, a)
    requires var s' := Do(s, a, retries); t in s'.threads && s'.threads[t].pc == MustPop
    ensures MayLeave(Do(s, a, retries), won + Acks(s, a), Do(s, a, retries).threads[t].packet, retries)
  {
    var s' := Do(s, a, retries);
    assert t in s.threads && s'.threads[t].packet == s.threads[t].packet;
    var p := s.threads[t].packet;
    assert ThreadOk(s, t, retries);
    assert Holds(s, t, p);
    TriesKept(s, a, p, retries);
  }

  lemma DoJustified(s: State, a: Action, won: set<PacketId>, retries: nat)
    requires Inv(s, retries) && Justified(s, won, retries) && !Collides(s, a)
    ensures Justified(Do(s, a, retries), won + Acks(s, a), retries)
  {
    var s', won' := Do(s, a, retries), won + Acks(s, a);
    forall t | t in s'.threads && s'.threads[t].pc == MustPop
      ensures MayLeave(s', won', s'.threads[t].packet, retries) {
      PopperJustified(s, a, won, t, retries);
    }
    forall p | p in s'.gone ensures MayLeave(s', won', p, retries) {
      GoneJustified(s, a, won, p, retries);
    }
    forall p | p in won' ensures p in s'.entries && Leaving(s', p) {
      if p in won {
        StillLeaving(s, a, p, retries);
      } else {
        assert Holds(s', a.t, p) && s'.threads[a.t].pc == MustPop;
      }
    }
  }

  lemma {:induction false} ExecJustified(s: State, actions: seq<Action>, won: set<PacketId>, retries: nat)
    requires Inv(s, retries) && Justified(s, won, retries) && Gentle(s, actions, retries)
    ensures Justified(Exec(s, actions, retries), won + Acknowledged(s, actions, retries), retries)
    decreases |actions|
  {
    if actions == [] {
      assert won + {} == won;
    } else {
      var next, acks := Do(s, actions[0], retries), Acks(s, actions[0]);
      DoKeepsInv(s, actions[0], retries);
      DoJustified(s, actions[0], won, retries);
      ExecJustified(next, actions[1..], won + acks, retries);
      var rest := Acknowledged(next, actions[1..], retries);
      assert won + acks + rest == won + (acks + rest);
    }
  }

  /**
   * In every interleaving without a colliding forced drain: the packets that were queued leave in that order, once
   * each; only the head is in flight, with one emission at a time; a packet leaves because it was acknowledged, or
   * after exactly Retries + 1 emissions, and one that was acknowledged is not emitted again; and the user's callback
   * runs once for each packet that leaves, and for no other.
   */
  lemma RetrySafety(actions: seq<Action>, retries: nat)
    requires Gentle(INIT, actions, retries)
    ensures var s := Exec(INIT, actions, retries);
            && s.gone + s.queue == Range(0, Enqueues(actions))
            && Single(s)
            && (forall p | p in s.queue :: StillQueued(s, actions, p, retries))
            && (forall p | p in s.gone :: HasLeft(s, actions, p, retries))
  {
    ExecKeepsInv(INIT, actions, retries);
    ExecJustified(INIT, actions, {}, retries);
    var s := Exec(INIT, actions, retries);
    LeavesInOrder(s, retries);
    CountsExactly(INIT, actions, 0, retries);
    forall p | p in s.queue ensures StillQueued(s, actions, p, retries) {
      CountsExactly(INIT, actions, p, retries);
      InQueue(s, p, retries);
    }
    forall p | p in s.gone ensures HasLeft(s, actions, p, retries) {
      CountsExactly(INIT, actions, p, retries);
      AfterQueue(s, p, retries);
    }
  }

  /**
   * In flight only as the head, emitted at most Retries + 1 times, and its callback has not run; about to be taken
   * out if it was acknowledged.
   */
  ghost predicate StillQueued(s: State, actions: seq<Action>, p: PacketId, retries: nat) {
    && Emissions(INIT, actions, p, retries) <= retries + 1 && Callbacks(INIT, actions, p, retries) == 0
    && (forall t | Holds(s, t, p) :: s.queue != [] && p == s.queue[0])
    && (p in Acknowledged(INIT, actions, retries) ==> exists t :: Holds(s, t, p) && s.threads[t].pc == MustPop)
  }

  /** Acknowledged after some of its tries, or given up after all; its callback has run once, or is about to. */
  ghost predicate HasLeft(s: State, actions: seq<Action>, p: PacketId, retries: nat) {
    var emissions, callbacks := Emissions(INIT, actions, p, retries), Callbacks(INIT, actions, p, retries);
    && 1 <= emissions <= retries + 1
    && (p in Acknowledged(INIT, actions, retries) || emissions == retries + 1)
    && (callbacks == 1 || (callbacks == 0 && exists t :: Holds(s, t, p) && s.threads[t].pc == MustAck))
  }

  // ------------------------------------------------------------------------------------------
  // Whole calls, and progress
  // ------------------------------------------------------------------------------------------

  /** The steps of one replacement ack, by goroutine t. */
  function AckSteps(t: nat, ok: bool, leaves: bool): seq<Action> {
    [Outcome(t, ok)] + (if ok then [] else [Check(t)]) + (if leaves then [Pop(t), RunAck(t)] else []) +
    [Clear(t), Drain(t)]
  }

  lemma LeavesQueue(s: State, t: nat, retries: nat)
    requires At(s, t, MustPop) && s.queue != [] && s.queue[0] == s.threads[t].packet
    ensures var p := s.threads[t].packet;
            Exec(s, [Pop(t), RunAck(t)], retries) ==
            Goto(s, t, MustClear).(queue := s.queue[1..], gone := s.gone + [p],
                                   entries := s.entries[p := s.entries[p].(acks := s.entries[p].acks + 1)])
  {
    var s1 := Do(s, Pop(t), retries);
    var s2 := Do(s1, RunAck(t), retries);
    ExecSteps(s, [Pop(t), RunAck(t)], [s, s1, s2], retries);
  }

  lemma ClearsAndDrains(s: State, t: nat, retries: nat)
    requires At(s, t, MustClear)
    ensures var p := s.threads[t].packet;
            Exec(s, [Clear(t), Drain(t)], retries) ==
            DrainQueue(s.(threads := s.threads - {t},
                          entries := s.entries[p := s.entries[p].(pending := false)]), false)
  {
    var s1 := Do(s, Clear(t), retries);
    assert s1.threads - {t} == s.threads - {t};
    ExecSteps(s, [Clear(t), Drain(t)], [s, s1, Do(s1, Drain(t), retries)], retries);
  }

  lemma Decides(s: State, t: nat, ok: bool, retries: nat)
    requires At(s, t, Emitted)
    ensures var p := s.threads[t].packet;
            Exec(s, [Outcome(t, ok)] + (if ok then [] else [Check(t)]), retries) ==
            Goto(s, t, if ok || s.entries[p].tryCount > retries then MustPop else MustClear)
  {
    if ok {
      assert [Outcome(t, ok)] + [] == [Outcome(t, ok)];
      ExecSteps(s, [Outcome(t, ok)], [s, Do(s, Outcome(t, ok), retries)], retries);
    } else {
      var s1 := Do(s, Outcome(t, ok), retries);
      ExecSteps(s, [Outcome(t, ok), Check(t)], [s, s1, Do(s1, Check(t), retries)], retries);
    }
  }

  lemma ThreeParts(s: State, a: seq<Action>, b: seq<Action>, c: seq<Action>, retries: nat)
    ensures Exec(s, a + b + c, retries) == Exec(Exec(Exec(s, a, retries), b, retries), c, retries)
  {
    ExecAppend(s, a, b, retries);
    ExecAppend(s, a + b, c, retries);
  }

  lemma FinishesGone(s: State, t: nat, retries: nat)
    requires At(s, t, Emitted) && s.queue != [] && s.queue[0] == s.threads[t].packet
    ensures var p, popping := s.threads[t].packet, Goto(s, t, MustPop);
            Exec(Exec(popping, [Pop(t), RunAck(t)], retries), [Clear(t), Drain(t)], retries) ==
            DrainQueue(s.(queue := s.queue[1..], gone := s.gone + [p],
                          entries := s.entries[p := Settled(s.entries[p], true)], threads := s.threads - {t}), false)
  {
    var p, popping := s.threads[t].packet, Goto(s, t, MustPop);
    LeavesQueue(popping, t, retries);
    var left := Exec(popping, [Pop(t), RunAck(t)], retries);
    ClearsAndDrains(left, t, retries);
    assert left.threads - {t} == s.threads - {t};
    assert left.entries[p := left.entries[p].(pending := false)] == s.entries[p := Settled(s.entries[p], true)];
  }

  lemma FinishesQueued(s: State, t: nat, retries: nat)
    requires At(s, t, Emitted)
    ensures var p, clearing := s.threads[t].packet, Goto(s, t, MustClear);
            Exec(Exec(clearing, [], retries), [Clear(t), Drain(t)], retries) ==
            DrainQueue(s.(entries := s.entries[p := Settled(s.entries[p], false)], threads := s.threads - {t}), false)
  {
    var p, clearing := s.threads[t].packet, Goto(s, t, MustClear);
    ClearsAndDrains(clearing, t, retries);
    assert clearing.threads - {t} == s.threads - {t};
  }

  /**
   * A replacement ack that nothing comes between, from any state of a run, does what ReplacementAck does: the packet
   * leaves the queue and its callback runs if there was no error or no try is left, it is no longer pending, and the
   * queue is drained.
   */
  lemma AckAtOnce(s: State, t: nat, ok: bool, retries: nat)
    requires Inv(s, retries) && At(s, t, Emitted)
    ensures var p := s.threads[t].packet;
            var leaves := ok || s.entries[p].tryCount > retries;
            s.queue != [] && s.queue[0] == p &&
            Exec(s, AckSteps(t, ok, leaves), retries) ==
            DrainQueue(s.(queue := if leaves then s.queue[1..] else s.queue,
                          gone := if leaves then s.gone + [p] else s.gone,
                          entries := s.entries[p := Settled(s.entries[p], leaves)],
                          threads := s.threads - {t}), false)
  {
    var p := s.threads[t].packet;
    var leaves := ok || s.entries[p].tryCount > retries;
    assert ThreadOk(s, t, retries);
    HeldIsHead(s, t, retries);
    Decides(s, t, ok, retries);
    var decide, leave := [Outcome(t, ok)] + (if ok then [] else [Check(t)]), if leaves then [Pop(t), RunAck(t)] else [];
    ThreeParts(s, decide, leave, [Clear(t), Drain(t)], retries);
    if leaves {
      FinishesGone(s, t, retries);
    } else {
      FinishesQueued(s, t, retries);
    }
  }

  /** addToQueue that nothing comes between does what AddToQueue does. */
  lemma AddAtOnce(s: State, retries: nat)
    requires Inv(s, retries)
    ensures var p := |s.appended|;
            p !in s.entries &&
            Exec(s, [Enqueue, Drain(s.nextThread)], retries) ==
            DrainQueue(s.(queue := s.queue + [p], appended := s.appended + [p], entries := Appended(s.entries, p),
                          nextThread := s.nextThread + 1), false)
  {
    var s1 := Do(s, Enqueue, retries);
    assert s.nextThread in s.threads ==> ThreadOk(s, s.nextThread, retries);
    assert s1.threads - {s.nextThread} == s.threads;
    ExecSteps(s, [Enqueue, Drain(s.nextThread)], [s, s1, Do(s1, Drain(s.nextThread), retries)], retries);
  }

  /** While connected, a drain emits the head if nobody holds it, and the drain of a new connection in any case. */
  lemma DrainEmits(s: State, t: nat, p: PacketId, retries: nat)
    requires Inv(s, retries)
    ensures Emits(s, ForceDrain, p, retries) <==> s.connected && s.queue != [] && s.queue[0] == p
    ensures At(s, t, MustDrain) ==>
              (Emits(s, Drain(t), p, retries)
               <==> s.connected && s.queue != [] && s.queue[0] == p && forall u :: !Holds(s, u, p))
  {
    assert s.nextThread in s.threads ==> ThreadOk(s, s.nextThread, retries);
    if s.queue != [] {
      assert QueuedOk(s, s.queue[0], retries);
    }
  }

  /** The last report on the connection counts. */
  function LastReport(actions: seq<Action>, before: bool): bool {
    if actions == [] then before
    else LastReport(actions[1..], if actions[0].SetConnected? then actions[0].up else before)
  }

  lemma {:induction false} ConnectedExactly(s: State, actions: seq<Action>, retries: nat)
    ensures Exec(s, actions, retries).connected == LastReport(actions, s.connected)
    decreases |actions|
  {
    if actions != [] {
      ConnectedExactly(Do(s, actions[0], retries), actions[1..], retries);
    }
  }

  /** No drain of the run finds the client disconnected. */
  predicate Online(s: State, actions: seq<Action>, retries: nat)
    decreases |actions|
  {
    actions == [] ||
    ((actions[0].Drain? || actions[0].ForceDrain? ==> s.connected) &&
     Online(Do(s, actions[0], retries), actions[1..], retries))
  }

  ghost predicate Busy(s: State) {
    s.queue != [] ==> exists t :: t in s.threads
  }

  lemma DrainKeepsBusy(s: State, t: nat, retries: nat)
    requires Inv(s, retries) && s.connected && At(s, t, MustDrain)
    ensures Busy(Do(s, Drain(t), retries))
  {
    var s1 := s.(threads := s.threads - {t});
    if Sends(s1, false) {
      assert s.nextThread in Do(s, Drain(t), retries).threads;
    } else if s.queue != [] {
      assert QueuedOk(s, s.queue[0], retries);
      var u :| Holds(s, u, s.queue[0]);
      assert u in s1.threads;
    }
  }

  lemma StepKeepsBusy(s: State, a: Action, retries: nat)
    requires Inv(s, retries) && Busy(s) && !a.Drain?
    ensures Busy(Do(s, a, retries))
  {
    var s' := Do(s, a, retries);
    assert forall t | t in s.threads :: t in s'.threads;
    if a.Enqueue? {
      assert s.nextThread in s'.threads;
    }
  }

  lemma {:induction false} ExecKeepsBusy(s: State, actions: seq<Action>, retries: nat)
    requires Inv(s, retries) && Busy(s) && Gentle(s, actions, retries) && Online(s, actions, retries)
    ensures Busy(Exec(s, actions, retries))
    decreases |actions|
  {
    if actions != [] {
      var a := actions[0];
      if a.Drain? && Enabled(s, a) {
        DrainKeepsBusy(s, a.t, retries);
      } else if !a.Drain? {
        StepKeepsBusy(s, a, retries);
      }
      DoKeepsInv(s, a, retries);
      ExecKeepsBusy(Do(s, a, retries), actions[1..], retries);
    }
  }

  /** The step a goroutine takes next; a reply may bring either outcome. */
  function NextStep(t: nat, pc: Pc, ok: bool): Action {
    match pc
    case Emitted => Outcome(t, ok)
    case CheckTries => Check(t)
    case MustPop => Pop(t)
    case MustAck => RunAck(t)
    case MustClear => Clear(t)
    case MustDrain => Drain(t)
  }

  /**
   * The queue never stalls: in every run without a colliding forced drain and without a drain while disconnected, a
   * goroutine is at work as long as a packet is queued, and the next step of every goroutine can be taken.
   */
  lemma NeverStalls(actions: seq<Action>, retries: nat)
    requires Gentle(INIT, actions, retries)
    ensures var s := Exec(INIT, actions, retries);
            && (Online(INIT, actions, retries) && s.queue != [] ==> exists t :: t in s.threads)
            && (forall t, ok | t in s.threads :: Enabled(s, NextStep(t, s.threads[t].pc, ok)))
  {
    ExecKeepsInv(INIT, actions, retries);
    if Online(INIT, actions, retries) {
      ExecKeepsBusy(INIT, actions, retries);
    }
    var s := Exec(INIT, actions, retries);
    forall t, ok | t in s.threads ensures Enabled(s, NextStep(t, s.threads[t].pc, ok)) {
      assert ThreadOk(s, t, retries);
      if s.threads[t].pc == MustPop {
        HeldIsHead(s, t, retries);
      }
    }
  }

  // ------------------------------------------------------------------------------------------
  // Collisions
  // ------------------------------------------------------------------------------------------

  /** A forced drain that meets a pending head puts the same packet in flight twice. */
  lemma CollisionDoubles(s: State, a: Action, retries: nat)
    requires Inv(s, retries) && Collides(s, a)
    ensures !Single(Do(s, a, retries))
  {
    var s' := Do(s, a, retries);
    var h := s.queue[0];
    assert QueuedOk(s, h, retries);
    var t :| Holds(s, t, h);
    assert ThreadOk(s, t, retries);
    assert Holds(s', t, h) && Holds(s', s.nextThread, h);
  }

  ghost predicate SingleThroughout(s: State, actions: seq<Action>, retries: nat)
    decreases |actions|
  {
    Single(s) && (actions == [] || SingleThroughout(Do(s, actions[0], retries), actions[1..], retries))
  }

  lemma {:induction false} SingleFrom(s: State, actions: seq<Action>, retries: nat)
    requires Inv(s, retries)
    ensures SingleThroughout(s, actions, retries) <==> Gentle(s, actions, retries)
    decreases |actions|
  {
    if actions != [] {
      if Collides(s, actions[0]) {
        CollisionDoubles(s, actions[0], retries);
      } else {
        DoKeepsInv(s, actions[0], retries);
        SingleFrom(Do(s, actions[0], retries), actions[1..], retries);
      }
    }
  }

  /** One emission at a time holds throughout a run if and only if no forced drain in it meets a pending head. */
  lemma OneInFlightExactly(actions: seq<Action>, retries: nat)
    ensures SingleThroughout(INIT, actions, retries) <==> Gentle(INIT, actions, retries)
  {
    SingleFrom(INIT, actions, retries);
  }

  const QUEUE_TWO: seq<Action> := [SetConnected(true), Enqueue, Enqueue]
  const COLLIDE: seq<Action> := [Drain(0), ForceDrain]
  const TWO_REPLIES: seq<Action> := [Outcome(2, true), Pop(2), Outcome(3, true), Pop(3)]

  const COLLIDED: State := State(
    true, [0, 1], map[0 := Entry(2, true, 0), 1 := Entry(0, false, 0)],
    map[1 := Thread(1, MustDrain), 2 := Thread(0, Emitted), 3 := Thread(0, Emitted)], 4, [0, 1], [])

  lemma {:induction false} ExecSteps(s: State, actions: seq<Action>, states: seq<State>, retries: nat)
    requires |states| == |actions| + 1 && states[0] == s
    requires forall i | 0 <= i < |actions| :: states[i + 1] == Do(states[i], actions[i], retries)
    ensures Exec(s, actions, retries) == states[|actions|]
    decreases |actions|
  {
    if actions != [] {
      ExecSteps(states[1], actions[1..], states[1..], retries);
    }
  }

  lemma {:induction false} ExecAppend(s: State, a: seq<Action>, b: seq<Action>, retries: nat)
    ensures Exec(s, a + b, retries) == Exec(Exec(s, a, retries), b, retries)
    decreases |a|
  {
    if a == [] {
      assert a + b == b;
    } else {
      assert (a + b)[1..] == a[1..] + b;
      ExecAppend(Do(s, a[0], retries), a[1..], b, retries);
    }
  }

  const TWO_QUEUED: State := State(
    true, [0, 1], map[0 := Entry(0, false, 0), 1 := Entry(0, false, 0)],
    map[0 := Thread(0, MustDrain), 1 := Thread(1, MustDrain)], 2, [0, 1], [])

  lemma TwoAreQueued(retries: nat)
    ensures Exec(INIT, QUEUE_TWO, retries) == TWO_QUEUED
  {
    var s1 := Do(INIT, SetConnected(true), retries);
    var s2 := Do(s1, Enqueue, retries);
    assert s2 == State(true, [0], map[0 := Entry(0, false, 0)], map[0 := Thread(0, MustDrain)], 1, [0], []);
    ExecSteps(INIT, QUEUE_TWO, [INIT, s1, s2, TWO_QUEUED], retries);
  }

  const ONE_SENT: State := State(
    true, [0, 1], map[0 := Entry(1, true, 0), 1 := Entry(0, false, 0)],
    map[1 := Thread(1, MustDrain), 2 := Thread(0, Emitted)], 3, [0, 1], [])

  lemma DrainSends(retries: nat)
    ensures Do(TWO_QUEUED, Drain(0), retries) == ONE_SENT
  {
    assert TWO_QUEUED.threads - {0} == map[1 := Thread(1, MustDrain)];
  }

  lemma ForceDrainSends(retries: nat)
    ensures Do(ONE_SENT, ForceDrain, retries) == COLLIDED
  {
  }

  lemma CollisionHappens(retries: nat)
    ensures Exec(INIT, QUEUE_TWO + COLLIDE, retries) == COLLIDED
  {
    TwoAreQueued(retries);
    ExecAppend(INIT, QUEUE_TWO, COLLIDE, retries);
    DrainSends(retries);
    ForceDrainSends(retries);
    ExecSteps(TWO_QUEUED, COLLIDE, [TWO_QUEUED, ONE_SENT, COLLIDED], retries);
  }

  /** After such a collision two acknowledgements remove two packets, the second of which was never emitted. */
  lemma CollisionLosesAPacket(retries: nat)
    ensures var s := Exec(INIT, QUEUE_TWO + COLLIDE + TWO_REPLIES, retries);
            s.gone == [0, 1] && 1 in s.entries && s.entries[1].tryCount == 0
  {
    CollisionHappens(retries);
    ExecAppend(INIT, QUEUE_TWO + COLLIDE, TWO_REPLIES, retries);
    var s6 := Do(COLLIDED, Outcome(2, true), retries);
    var s7 := Do(s6, Pop(2), retries);
    assert s7.queue == [1] && s7.gone == [0];
    var s8 := Do(s7, Outcome(3, true), retries);
    var s9 := Do(s8, Pop(3), retries);
    assert s9.gone == [0, 1];
    ExecSteps(COLLIDED, TWO_REPLIES, [COLLIDED, s6, s7, s8, s9], retries);
  }
}
