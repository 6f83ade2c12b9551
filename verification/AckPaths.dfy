/** What each path through the race for an acknowledgement leads to, from every state of every run. */
module AckPaths {
  import opened Prelude
  import opened AckRace
  import SendBuffer

  /** A run through the given states. */
  lemma {:induction false} ExecSteps(s: State, actions: seq<Action>, states: seq<State>)
    requires |states| == |actions| + 1 && states[0] == s
    requires forall i | 0 <= i < |actions| :: states[i + 1] == Do(states[i], actions[i])
    ensures Exec(s, actions) == states[|actions|]
    decreases |actions|
  {
    if actions != [] {
      ExecSteps(states[1], actions[1..], states[1..]);
    }
  }

  lemma Registers(s: State, withTimeout: bool)
    ensures Do(s, Register(withTimeout)) ==
            s.(nextId := s.nextId + 1,
               handlers := s.handlers[s.nextId := Handler(withTimeout, false, false, [])],
               timers := if withTimeout then s.timers[s.nextId := Sleeping] else s.timers,
               inserting := s.inserting + {s.nextId})
  {
  }

  /** Every registration gets a new ID, under which a reply will find it. */
  lemma RegistrationIsFound(before: seq<Action>, withTimeout: bool)
    ensures var s := Exec(INIT, before);
            var id, t := s.nextId, Exec(s, [Register(withTimeout), Insert(s.nextId)]);
            && id !in s.handlers && id in t.table
            && t.handlers == s.handlers[id := Handler(withTimeout, false, false, [])]
            && t.timers == (if withTimeout then s.timers[id := Sleeping] else s.timers)
            && t.replies == s.replies && t.buffer == s.buffer && t.jammed == s.jammed
  {
    var s := Exec(INIT, before);
    var id := s.nextId;
    ExecKeepsInv(INIT, before);
    assert id in s.handlers ==> HandlerOk(s, id);
    Registers(s, withTimeout);
    var s1 := Do(s, Register(withTimeout));
    var s2 := s1.(inserting := s1.inserting - {id}, table := s1.table + {id});
    assert Do(s1, Insert(id)) == s2;
    ExecSteps(s, [Register(withTimeout), Insert(id)], [s, s1, s2]);
  }

  lemma Arrives(s: State, t: nat, id: AckId)
    requires t !in s.replies && id in s.table
    ensures Do(s, Arrive(t, id)) == s.(table := s.table - {id}, replies := s.replies[t := Reply(id, Decoding)])
  {
  }

  lemma Decodes(s: State, t: nat, id: AckId)
    requires t in s.replies && s.replies[t] == Reply(id, Decoding)
    ensures Do(s, DecodeSucceeds(t)) == s.(replies := s.replies[t := Reply(id, Calling)])
    ensures Do(s, DecodeFails(t)) == s.(replies := s.replies - {t})
  {
  }

  lemma Calls(s: State, t: nat, id: AckId)
    requires t in s.replies && s.replies[t] == Reply(id, Calling) && id in s.handlers
    ensures var h := s.handlers[id];
            Do(s, Call(t)) ==
            if h.timedOut then s.(replies := s.replies - {t})
            else s.(handlers := s.handlers[id := h.(called := true)], replies := s.replies[t := Reply(id, Running)])
  {
    assert s.handlers[id := s.handlers[id]] == s.handlers;
  }

  lemma RunsReply(s: State, t: nat, id: AckId)
    requires t in s.replies && s.replies[t] == Reply(id, Running) && id in s.handlers
    ensures var h := s.handlers[id];
            Do(s, RunReply(t)) ==
            s.(handlers := s.handlers[id := h.(runs := h.runs + [Replied])], replies := s.replies - {t})
  {
  }

  /** The four steps of a thread that delivers a reply in time. */
  lemma ReplySteps(s: State, t: nat, id: AckId)
    requires t !in s.replies && id in s.table && id in s.handlers && !s.handlers[id].timedOut
    ensures var h := s.handlers[id];
            Exec(s, [Arrive(t, id), DecodeSucceeds(t), Call(t), RunReply(t)]) ==
            s.(table := s.table - {id},
               handlers := s.handlers[id := h.(called := true, runs := h.runs + [Replied])])
  {
    var h, s1 := s.handlers[id], s.(table := s.table - {id});
    var called, done := h.(called := true), h.(called := true, runs := h.runs + [Replied]);
    var states := [s,
                   s1.(replies := s.replies[t := Reply(id, Decoding)]),
                   s1.(replies := s.replies[t := Reply(id, Calling)]),
                   s1.(replies := s.replies[t := Reply(id, Running)], handlers := s.handlers[id := called]),
                   s1.(handlers := s.handlers[id := done])];
    Arrives(s, t, id);
    Decodes(states[1], t, id);
    Calls(states[2], t, id);
    RunsReply(states[3], t, id);
    Overwritten(s.replies, t, Reply(id, Decoding), Reply(id, Calling));
    Overwritten(s.replies, t, Reply(id, Calling), Reply(id, Running));
    Overwritten(s.handlers, id, called, done);
    ExecSteps(s, [Arrive(t, id), DecodeSucceeds(t), Call(t), RunReply(t)], states);
  }

  lemma Overwritten<K, V>(m: map<K, V>, k: K, v: V, w: V)
    ensures m[k := v][k := w] == m[k := w]
    ensures k !in m ==> m[k := v] - {k} == m
  {
  }

  /** A handler that waits in the table, or whose timer sleeps, has not run its callback unless the reply has won. */
  lemma NotRunYet(s: State, id: AckId)
    requires Inv(s) && id in s.handlers
    ensures id in s.table && !s.handlers[id].timedOut ==> s.handlers[id].runs == []
    ensures id in s.timers && s.timers[id] == Sleeping && !s.handlers[id].called ==> s.handlers[id].runs == []
  {
    assert HandlerOk(s, id);
  }

  /** A packet whose handler is not in the table, because it was used up or timed out, does nothing. */
  lemma LateReply(s: State, t: nat, id: AckId)
    requires id !in s.table
    ensures Exec(s, [Arrive(t, id)]) == s
  {
    ExecSteps(s, [Arrive(t, id)], [s, s]);
  }

  /**
   * From every state of every run, an acknowledgement packet whose handler is there and has not timed out, and whose
   * payload can be decoded, runs the callback with the reply; the handler is used up.
   */
  lemma ReplyRunsCallback(before: seq<Action>, t: nat, id: AckId)
    requires var s := Exec(INIT, before);
             t !in s.replies && id in s.table && id in s.handlers && !s.handlers[id].timedOut
    ensures var s := Exec(INIT, before);
            var s' := Exec(s, [Arrive(t, id), DecodeSucceeds(t), Call(t), RunReply(t)]);
            && id in s'.handlers && s'.handlers[id].runs == [Replied]
            && s'.replies == s.replies && s'.buffer == s.buffer && s'.table == s.table - {id}
            && id !in s'.table
  {
    ExecKeepsInv(INIT, before);
    NotRunYet(Exec(INIT, before), id);
    ReplySteps(Exec(INIT, before), t, id);
  }

  /** A packet that cannot be decoded uses the handler up: its thread is free again and no reply can find it. */
  lemma UndecodedReply(s: State, t: nat, id: AckId)
    requires t !in s.replies && id in s.table
    ensures Exec(s, [Arrive(t, id), DecodeFails(t)]) == s.(table := s.table - {id})
  {
    var s1 := s.(table := s.table - {id}, replies := s.replies[t := Reply(id, Decoding)]);
    Arrives(s, t, id);
    Decodes(s1, t, id);
    Overwritten(s.replies, t, Reply(id, Decoding), Reply(id, Decoding));
    ExecSteps(s, [Arrive(t, id), DecodeFails(t)], [s, s1, s.(table := s.table - {id})]);
  }

  lemma Fires(s: State, id: AckId)
    requires id in s.timers && s.timers[id] == Sleeping && id in s.handlers
    ensures var h := s.handlers[id];
            Do(s, TimerFires(id)) ==
            if h.called then s.(timers := s.timers[id := Finished])
            else s.(handlers := s.handlers[id := h.(timedOut := true)], timers := s.timers[id := MustDelete])
  {
    assert s.handlers[id := s.handlers[id]] == s.handlers;
  }

  lemma Deletes(s: State, id: AckId)
    requires id in s.timers && s.timers[id] == MustDelete
    ensures Do(s, TimerDeletes(id)) == s.(table := s.table - {id}, timers := s.timers[id := MustRemove])
  {
  }

  lemma Removes(s: State, id: AckId)
    requires id in s.timers && s.timers[id] == MustRemove && !s.jammed && !SendBuffer.Panics(s.buffer, id)
    ensures Do(s, TimerRemoves(id)) ==
            s.(timers := s.timers[id := MustRun], buffer := SendBuffer.Skimmed(s.buffer, id))
  {
  }

  lemma RunsTimeout(s: State, id: AckId)
    requires id in s.timers && s.timers[id] == MustRun && id in s.handlers
    ensures var h := s.handlers[id];
            Do(s, TimerRuns(id)) ==
            s.(handlers := s.handlers[id := h.(runs := h.runs + [TimedOut])], timers := s.timers[id := Finished])
  {
  }

  /** The four steps of a timer that fires before the call. */
  lemma TimerSteps(s: State, id: AckId)
    requires id in s.timers && s.timers[id] == Sleeping && id in s.handlers && !s.handlers[id].called
    requires !s.jammed && !SendBuffer.Panics(s.buffer, id)
    ensures var h := s.handlers[id];
            Exec(s, [TimerFires(id), TimerDeletes(id), TimerRemoves(id), TimerRuns(id)]) ==
            s.(table := s.table - {id}, timers := s.timers[id := Finished],
               handlers := s.handlers[id := h.(timedOut := true, runs := h.runs + [TimedOut])],
               buffer := SendBuffer.Skimmed(s.buffer, id))
  {
    var h := s.handlers[id];
    var expired, done := h.(timedOut := true), h.(timedOut := true, runs := h.runs + [TimedOut]);
    var s1 := s.(handlers := s.handlers[id := expired], timers := s.timers[id := MustDelete]);
    var s2 := s1.(table := s.table - {id}, timers := s.timers[id := MustRemove]);
    var s3 := s2.(timers := s.timers[id := MustRun], buffer := SendBuffer.Skimmed(s.buffer, id));
    var s4 := s3.(handlers := s.handlers[id := done], timers := s.timers[id := Finished]);
    Fires(s, id);
    Deletes(s1, id);
    Removes(s2, id);
    RunsTimeout(s3, id);
    Overwritten(s.timers, id, MustDelete, MustRemove);
    Overwritten(s.timers, id, MustRemove, MustRun);
    Overwritten(s.timers, id, MustRun, Finished);
    Overwritten(s.handlers, id, expired, done);
    ExecSteps(s, [TimerFires(id), TimerDeletes(id), TimerRemoves(id), TimerRuns(id)], [s, s1, s2, s3, s4]);
  }

  /**
   * From every state of every run, a timer that fires before the call takes the handler out of the table and the
   * packet out of the send buffer and runs the callback with the timeout, unless the removal panics or an earlier
   * panic keeps the buffer locked.
   */
  lemma TimeoutRunsCallback(before: seq<Action>, id: AckId)
    requires var s := Exec(INIT, before);
             && id in s.timers && s.timers[id] == Sleeping && id in s.handlers && !s.handlers[id].called
             && !s.jammed && !SendBuffer.Panics(s.buffer, id)
    ensures var s := Exec(INIT, before);
            var s' := Exec(s, [TimerFires(id), TimerDeletes(id), TimerRemoves(id), TimerRuns(id)]);
            && id in s'.handlers && s'.handlers[id].runs == [TimedOut] && s'.timers == s.timers[id := Finished]
            && s'.table == s.table - {id} && s'.buffer == SendBuffer.Skimmed(s.buffer, id)
            && id !in s'.table
  {
    ExecKeepsInv(INIT, before);
    NotRunYet(Exec(INIT, before), id);
    TimerSteps(Exec(INIT, before), id);
  }

  /** Whoever comes second leaves the callback alone: a late call ends its thread, a late timer just ends. */
  lemma SecondGivesUp(before: seq<Action>, t: nat, id: AckId)
    requires var s := Exec(INIT, before);
             && t in s.replies && s.replies[t] == Reply(id, Calling) && id in s.handlers
             && id in s.timers && s.timers[id] == Sleeping
    ensures var s := Exec(INIT, before);
            Exec(s, [TimerFires(id), Call(t)]) ==
            s.(handlers := s.handlers[id := s.handlers[id].(timedOut := true)],
               timers := s.timers[id := MustDelete], replies := s.replies - {t})
    ensures var s := Exec(INIT, before);
            Exec(s, [Call(t), TimerFires(id)]) ==
            s.(handlers := s.handlers[id := s.handlers[id].(called := true)],
               timers := s.timers[id := Finished], replies := s.replies[t := Reply(id, Running)])
  {
    var s := Exec(INIT, before);
    ExecKeepsInv(INIT, before);
    NobodyWonYet(s, t, id);
    LateCall(s, t, id);
    LateTimer(s, t, id);
  }

  lemma NobodyWonYet(s: State, t: nat, id: AckId)
    requires Inv(s) && t in s.replies && s.replies[t] == Reply(id, Calling)
    requires id in s.handlers && id in s.timers && s.timers[id] == Sleeping
    ensures !s.handlers[id].called && !s.handlers[id].timedOut
  {
    assert HandlerOk(s, id) && ReplyOk(s, t);
  }

  lemma LateCall(s: State, t: nat, id: AckId)
    requires t in s.replies && s.replies[t] == Reply(id, Calling) && id in s.handlers && !s.handlers[id].called
    requires id in s.timers && s.timers[id] == Sleeping
    ensures Exec(s, [TimerFires(id), Call(t)]) ==
            s.(handlers := s.handlers[id := s.handlers[id].(timedOut := true)],
               timers := s.timers[id := MustDelete], replies := s.replies - {t})
  {
    var fired := s.(handlers := s.handlers[id := s.handlers[id].(timedOut := true)],
                    timers := s.timers[id := MustDelete]);
    Fires(s, id);
    Calls(fired, t, id);
    ExecSteps(s, [TimerFires(id), Call(t)], [s, fired, fired.(replies := s.replies - {t})]);
  }

  lemma LateTimer(s: State, t: nat, id: AckId)
    requires t in s.replies && s.replies[t] == Reply(id, Calling) && id in s.handlers && !s.handlers[id].timedOut
    requires id in s.timers && s.timers[id] == Sleeping
    ensures Exec(s, [Call(t), TimerFires(id)]) ==
            s.(handlers := s.handlers[id := s.handlers[id].(called := true)],
               timers := s.timers[id := Finished], replies := s.replies[t := Reply(id, Running)])
  {
    var called := s.(handlers := s.handlers[id := s.handlers[id].(called := true)],
                     replies := s.replies[t := Reply(id, Running)]);
    Calls(s, t, id);
    Fires(called, id);
    ExecSteps(s, [Call(t), TimerFires(id)], [s, called, called.(timers := s.timers[id := Finished])]);
  }

  /** While the buffer's lock is free, packets are stored behind one another and a flush leaves none. */
  lemma StoredThenFlushed(s: State, items: seq<SendBuffer.Item>)
    requires !s.jammed
    ensures Exec(s, [Store(items)]) == s.(buffer := s.buffer + items)
    ensures Exec(s, [Store(items), Flush]) == s.(buffer := [])
  {
    var stored := s.(buffer := s.buffer + items);
    assert Do(s, Store(items)) == stored && Do(stored, Flush) == s.(buffer := []);
    ExecSteps(s, [Store(items)], [s, stored]);
    ExecSteps(s, [Store(items), Flush], [s, stored, s.(buffer := [])]);
  }
}
