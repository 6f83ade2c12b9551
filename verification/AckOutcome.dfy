/** The outcome of the race for an acknowledgement: the callback runs once, for whoever came first. */
module AckOutcome {
  import opened Prelude
  import opened AckRace
  import SendBuffer

  /** In every interleaving the callback of every registration runs at most once. */
  lemma AtMostOnce(actions: seq<Action>, id: AckId)
    requires id in Exec(INIT, actions).handlers
    ensures |Exec(INIT, actions).handlers[id].runs| <= 1
  {
    ExecKeepsInv(INIT, actions);
    assert HandlerOk(Exec(INIT, actions), id);
  }

  // ------------------------------------------------------------------------------------------
  // Exactly once
  // ------------------------------------------------------------------------------------------

  /** No removal in the run panics. */
  predicate Smooth(s: State, actions: seq<Action>)
    decreases |actions|
  {
    actions == [] || (!Crashes(s, actions[0]) && Smooth(Do(s, actions[0]), actions[1..]))
  }

  /** The removal of the given registration panics in the run. */
  predicate Crashed(s: State, actions: seq<Action>, id: AckId)
    decreases |actions|
  {
    actions != [] &&
    ((Crashes(s, actions[0]) && actions[0].id == id) || Crashed(Do(s, actions[0]), actions[1..], id))
  }

  /** The buffer is jammed exactly by a panic of the run. */
  lemma {:induction false} JammedExactly(s: State, actions: seq<Action>)
    ensures Exec(s, actions).jammed <==> s.jammed || !Smooth(s, actions)
    decreases |actions|
  {
    if actions != [] {
      JammedExactly(Do(s, actions[0]), actions[1..]);
    }
  }

  predicate HasPanicked(s: State, id: AckId) {
    id in s.timers && s.timers[id] == Panicked
  }

  lemma PanickedStep(s: State, a: Action, id: AckId)
    requires Inv(s)
    ensures HasPanicked(Do(s, a), id) <==> HasPanicked(s, id) || (Crashes(s, a) && a.id == id)
  {
    assert s.nextId in s.handlers ==> HandlerOk(s, s.nextId);
  }

  lemma {:induction false} PanickedExactly(s: State, actions: seq<Action>, id: AckId)
    requires Inv(s)
    ensures HasPanicked(Exec(s, actions), id) <==> HasPanicked(s, id) || Crashed(s, actions, id)
    decreases |actions|
  {
    if actions != [] {
      PanickedStep(s, actions[0], id);
      DoKeepsInv(s, actions[0]);
      PanickedExactly(Do(s, actions[0]), actions[1..], id);
    }
  }

  /** Nothing is left to do for a registration: its timer has ended and no thread holds its handler. */
  ghost predicate Settled(s: State, id: AckId) {
    && id in s.timers && (s.timers[id] == Finished || s.timers[id] == Panicked)
    && forall t | t in s.replies :: s.replies[t].id != id
  }

  /** Who wins a registration in a run: whichever comes first, the call with its decoded reply or its timer. */
  function Winner(s: State, actions: seq<Action>, id: AckId): Option<Outcome>
    decreases |actions|
  {
    if actions == [] then None
    else if actions[0].Call? && Enabled(s, actions[0]) && s.replies[actions[0].thread].id == id then Some(Replied)
    else if actions[0] == TimerFires(id) && Enabled(s, actions[0]) then Some(TimedOut)
    else Winner(Do(s, actions[0]), actions[1..], id)
  }

  predicate WonBy(s: State, id: AckId, o: Outcome) {
    id in s.handlers && (if o == Replied then s.handlers[id].called else s.handlers[id].timedOut)
  }

  lemma WonStep(s: State, a: Action, id: AckId, o: Outcome)
    requires Inv(s) && WonBy(s, id, o)
    ensures WonBy(Do(s, a), id, o)
  {
    assert HandlerOk(s, id);
  }

  lemma {:induction false} WonForGood(s: State, actions: seq<Action>, id: AckId, o: Outcome)
    requires Inv(s) && WonBy(s, id, o)
    ensures WonBy(Exec(s, actions), id, o)
    decreases |actions|
  {
    if actions != [] {
      WonStep(s, actions[0], id, o);
      DoKeepsInv(s, actions[0]);
      WonForGood(Do(s, actions[0]), actions[1..], id, o);
    }
  }

  /** A handler is won by the call of a thread that holds it, or by its timer. */
  lemma WinningStep(s: State, a: Action, id: AckId)
    requires !WonBy(s, id, Replied) && !WonBy(s, id, TimedOut)
    ensures WonBy(Do(s, a), id, Replied) <==> a.Call? && Enabled(s, a) && s.replies[a.thread].id == id
    ensures WonBy(Do(s, a), id, TimedOut) <==> a == TimerFires(id) && Enabled(s, a)
  {
  }

  /** The flags of a handler say who came first. */
  lemma {:induction false} WinnerExactly(s: State, actions: seq<Action>, id: AckId)
    requires Inv(s) && !WonBy(s, id, Replied) && !WonBy(s, id, TimedOut)
    ensures forall o :: WonBy(Exec(s, actions), id, o) <==> Winner(s, actions, id) == Some(o)
    decreases |actions|
  {
    if actions != [] {
      var next := Do(s, actions[0]);
      DoKeepsInv(s, actions[0]);
      WinningStep(s, actions[0], id);
      if WonBy(next, id, Replied) {
        WonForGood(next, actions[1..], id, Replied);
        OneWinner(next, actions[1..], id);
      } else if WonBy(next, id, TimedOut) {
        WonForGood(next, actions[1..], id, TimedOut);
        OneWinner(next, actions[1..], id);
      } else {
        WinnerExactly(next, actions[1..], id);
      }
    }
  }

  lemma OneWinner(s: State, actions: seq<Action>, id: AckId)
    requires Inv(s)
    ensures !(WonBy(Exec(s, actions), id, Replied) && WonBy(Exec(s, actions), id, TimedOut))
  {
    ExecKeepsInv(s, actions);
    if id in Exec(s, actions).handlers {
      assert HandlerOk(Exec(s, actions), id);
    }
  }

  /**
   * By the time the race is settled, whoever wins it and also when the reply could not be decoded, a callback with a
   * timeout has run exactly once, with what came first, if and only if the removal of its packet from the send buffer
   * did not panic; if it did, the callback has not run.
   */
  lemma ExactlyOnceWithTimeout(actions: seq<Action>, id: AckId)
    requires Settled(Exec(INIT, actions), id)
    ensures id in Exec(INIT, actions).handlers && Winner(INIT, actions, id).Some?
    ensures var h, winner := Exec(INIT, actions).handlers[id], Winner(INIT, actions, id).value;
            && (|h.runs| == 1 <==> !Crashed(INIT, actions, id))
            && (|h.runs| == 1 ==> h.runs == [winner])
            && (Crashed(INIT, actions, id) ==> winner == TimedOut && h.runs == [])
  {
    var s := Exec(INIT, actions);
    ExecKeepsInv(INIT, actions);
    PanickedExactly(INIT, actions, id);
    WinnerExactly(INIT, actions, id);
    assert HandlerOk(s, id);
    assert !HasReply(s, id, Running);
    assert WonBy(s, id, Replied) || WonBy(s, id, TimedOut);
  }

  /**
   * Without a timeout too, a callback that has run was run by the winner; and one whose reply won has run unless the
   * thread that delivers the reply is about to run it.
   */
  lemma RunByTheWinner(actions: seq<Action>, id: AckId)
    requires id in Exec(INIT, actions).handlers
    ensures var s, winner := Exec(INIT, actions), Winner(INIT, actions, id);
            var runs := s.handlers[id].runs;
            && (runs != [] ==> winner.Some? && runs == [winner.value])
            && (winner == Some(Replied) ==> runs == [Replied] || HasReply(s, id, Running))
  {
    var s := Exec(INIT, actions);
    ExecKeepsInv(INIT, actions);
    WinnerExactly(INIT, actions, id);
    assert HandlerOk(s, id);
    assert WonBy(s, id, Replied) <==> s.handlers[id].called;
    assert WonBy(s, id, TimedOut) <==> s.handlers[id].timedOut;
  }

  /** A step that leads to the callback is enabled: of the timer, or the callback with the reply. */
  ghost predicate Progresses(s: State, id: AckId) {
    || Enabled(s, TimerFires(id)) || Enabled(s, TimerDeletes(id))
    || Enabled(s, TimerRemoves(id)) || Enabled(s, TimerRuns(id))
    || exists t :: t in s.replies && s.replies[t].id == id && Enabled(s, RunReply(t))
  }

  /** The timer has panicked, or waits for the lock that another one left held. */
  predicate Stuck(s: State, id: AckId) {
    id in s.timers && (s.timers[id] == Panicked || (s.timers[id] == MustRemove && s.jammed))
  }

  lemma ProgressesExactly(s: State, id: AckId)
    requires Inv(s) && id in s.handlers && s.handlers[id].hasTimeout && s.handlers[id].runs == []
    ensures Progresses(s, id) <==> !Stuck(s, id)
  {
    assert HandlerOk(s, id);
    if s.timers[id] == Finished {
      var t :| t in s.replies && s.replies[t] == Reply(id, Running);
      assert Enabled(s, RunReply(t));
    }
    if Stuck(s, id) {
      forall t | t in s.replies && s.replies[t].id == id ensures !Enabled(s, RunReply(t)) {
        assert ReplyOk(s, t);
      }
    }
  }

  /**
   * Until a callback with a timeout has run, a step that leads to it is enabled if and only if its timer is not stuck;
   * in a run without a panic none ever is.
   */
  lemma NeverStuck(actions: seq<Action>, id: AckId)
    requires var s := Exec(INIT, actions);
             id in s.handlers && s.handlers[id].hasTimeout && s.handlers[id].runs == []
    ensures Progresses(Exec(INIT, actions), id) <==> !Stuck(Exec(INIT, actions), id)
    ensures Smooth(INIT, actions) ==> !Stuck(Exec(INIT, actions), id)
  {
    ExecKeepsInv(INIT, actions);
    JammedExactly(INIT, actions);
    PanickedExactly(INIT, actions, id);
    ProgressesExactly(Exec(INIT, actions), id);
    if Crashed(INIT, actions, id) {
      CrashedIsRough(INIT, actions, id);
    }
  }

  lemma {:induction false} CrashedIsRough(s: State, actions: seq<Action>, id: AckId)
    requires Crashed(s, actions, id)
    ensures !Smooth(s, actions)
    decreases |actions|
  {
    if !(Crashes(s, actions[0]) && actions[0].id == id) {
      CrashedIsRough(Do(s, actions[0]), actions[1..], id);
    }
  }

  const ONE_BINARY: seq<Action> :=
    [Register(true), Insert(0), Store(TWO_FRAMES), TimerFires(0), TimerDeletes(0), TimerRemoves(0)]

  /**
   * The failing case: an event with one attachment and a timeout, emitted while disconnected.  It is stored as two
   * items, the removal of the second panics, and whatever happens afterwards the callback never runs.
   */
  lemma TimeoutPanics(after: seq<Action>)
    ensures Crashed(INIT, ONE_BINARY, 0)
    ensures var s := Exec(Exec(INIT, ONE_BINARY), after);
            HasPanicked(s, 0) && 0 in s.handlers && s.handlers[0].runs == [] && s.jammed
  {
    ExecKeepsInv(INIT, ONE_BINARY);
    TwoItemsPanic();
    PanickedExactly(INIT, ONE_BINARY, 0);
    CrashedIsRough(INIT, ONE_BINARY, 0);
    JammedExactly(INIT, ONE_BINARY);
    var s := Exec(INIT, ONE_BINARY);
    ExecKeepsInv(s, after);
    PanickedExactly(s, after, 0);
    JammedExactly(s, after);
    assert HandlerOk(Exec(s, after), 0);
  }

  function Stage(buffer: seq<SendBuffer.Item>, inserted: bool, timedOut: bool, pc: TimerPc): State {
    State(1, map[0 := Handler(true, false, timedOut, [])], map[0 := pc], if inserted then {} else {0},
          if inserted && pc in {Sleeping, MustDelete} then {0} else {}, map[], buffer, false)
  }

  const TWO_FRAMES: seq<SendBuffer.Item> := [Some(0), Some(0)]

  lemma Registered()
    ensures Do(INIT, Register(true)) == Stage([], false, false, Sleeping)
    ensures Do(Stage([], false, false, Sleeping), Insert(0)) == Stage([], true, false, Sleeping)
    ensures Do(Stage([], true, false, Sleeping), Store(TWO_FRAMES)) == Stage(TWO_FRAMES, true, false, Sleeping)
  {
    assert [] + TWO_FRAMES == TWO_FRAMES;
  }

  lemma Expired()
    ensures Do(Stage(TWO_FRAMES, true, false, Sleeping), TimerFires(0)) == Stage(TWO_FRAMES, true, true, MustDelete)
    ensures Do(Stage(TWO_FRAMES, true, true, MustDelete), TimerDeletes(0)) == Stage(TWO_FRAMES, true, true, MustRemove)
    ensures Crashes(Stage(TWO_FRAMES, true, true, MustRemove), TimerRemoves(0))
  {
    assert SendBuffer.Matches(TWO_FRAMES[0], 0);
  }

  lemma TwoItemsPanic()
    ensures Crashed(INIT, ONE_BINARY, 0)
  {
    Registered();
    Expired();
    CrashedAfter(INIT, ONE_BINARY, [INIT, Stage([], false, false, Sleeping), Stage([], true, false, Sleeping),
                                    Stage(TWO_FRAMES, true, false, Sleeping), Stage(TWO_FRAMES, true, true, MustDelete),
                                    Stage(TWO_FRAMES, true, true, MustRemove)], 0);
  }

  lemma {:induction false} CrashedAfter(s: State, actions: seq<Action>, states: seq<State>, id: AckId)
    requires |states| == |actions| > 0 && states[0] == s
    requires forall i | 0 <= i < |actions| - 1 :: states[i + 1] == Do(states[i], actions[i])
    requires Crashes(states[|states| - 1], actions[|actions| - 1]) && actions[|actions| - 1].id == id
    ensures Crashed(s, actions, id)
    decreases |actions|
  {
    if |actions| > 1 {
      CrashedAfter(states[1], actions[1..], states[1..], id);
    }
  }
}
