/**
 * Acknowledgement handlers (handler.go, client_socket.go): a registration, its timer and the
 * threads that deliver acknowledgement packets race for one callback.
 *
 * Every critical section and every unprotected callback is one action; a list of actions is an
 * interleaving, and an action that is not enabled does nothing, so "for all lists" is "for all
 * interleavings".
 */
module AckRace {
  import opened Prelude
  import SendBuffer

  type AckId = SendBuffer.AckId

  datatype Outcome = Replied | TimedOut

  /** The flags of an ackHandler, and the history of its callback. */
  datatype Handler = Handler(hasTimeout: bool, called: bool, timedOut: bool, runs: seq<Outcome>)

  /** Where the timer goroutine of a handler is (handler.go:108-130, client_socket.go:733-751). */
  datatype TimerPc = Sleeping | MustDelete | MustRemove | MustRun | Finished | Panicked

  /** Where a thread that took a handler out of the table is (client_socket.go:642-663, handler.go:134-160). */
  datatype ReplyPc = Decoding | Calling | Running

  datatype Reply = Reply(id: AckId, pc: ReplyPc)

  datatype State = State(
    nextId: AckId,
    handlers: map<AckId, Handler>,
    timers: map<AckId, TimerPc>,
    inserting: set<AckId>,          // registered, timer started, not yet in the table
    table: set<AckId>,              // s.acks
    replies: map<nat, Reply>,
    buffer: seq<SendBuffer.Item>,   // s.sendBuffer
    jammed: bool)                   // a panic has left sendBufferMu locked

  const INIT: State := State(0, map[], map[], {}, {}, map[], [], false)

  datatype Action =
    | Register(withTimeout: bool)   // nextAckID, newAckHandler or newAckHandlerWithTimeout
    | Insert(id: AckId)             // s.acks[id] = h
    | TimerFires(id: AckId)         // the timer's critical section
    | TimerDeletes(id: AckId)       // timeoutFunc: delete(s.acks, id)
    | TimerRemoves(id: AckId)       // timeoutFunc: take the packet out of the send buffer
    | TimerRuns(id: AckId)          // the callback, with ErrAckTimeout
    | Arrive(thread: nat, id: AckId) // onAck: take the handler out of the table, if it is there
    | DecodeFails(thread: nat)
    | DecodeSucceeds(thread: nat)
    | Call(thread: nat)             // the critical section of ackHandler.call
    | RunReply(thread: nat)         // the callback, with the reply
    | Store(items: seq<SendBuffer.Item>) // _sendBuffers while disconnected: a packet's frames, of any kind
    | Flush                         // emitBuffered

  /** The timer's critical section: nothing happens once the handler has been called. */
  function TimeoutSection(h: Handler): Handler {
    if h.called then h else h.(timedOut := true)
  }

  /** The critical section of call: nothing happens once the handler has timed out. */
  function CallSection(h: Handler): Handler {
    if h.timedOut then h else h.(called := true)
  }

  /** The handler object itself, with its two critical sections. */
  class AckHandler {
    var called: bool
    var timedOut: bool
    const hasTimeout: bool

    constructor (hasTimeout: bool)
      ensures !called && !timedOut && this.hasTimeout == hasTimeout
    {
      called, timedOut := false, false;
      this.hasTimeout := hasTimeout;
    }

    function Flags(runs: seq<Outcome>): Handler
      reads this
    {
      Handler(hasTimeout, called, timedOut, runs)
    }

    /** Whether the timer goes on to delete the entry and run the callback. */
    method Fire() returns (proceeds: bool)
      modifies this
      ensures forall runs :: Flags(runs) == TimeoutSection(old(Flags(runs)))
      ensures proceeds == !old(called)
    {
      if called {
        return false;
      }
      timedOut := true;
      return true;
    }

    /** Whether the reply goes on to run the callback. */
    method Begin() returns (proceeds: bool)
      modifies this
      ensures forall runs :: Flags(runs) == CallSection(old(Flags(runs)))
      ensures proceeds == !old(timedOut)
    {
      if timedOut {
        return false;
      }
      called := true;
      return true;
    }
  }

  predicate Enabled(s: State, a: Action) {
    match a
    case Register(_) => true
    case Insert(id) => id in s.inserting
    case TimerFires(id) => id in s.timers && s.timers[id] == Sleeping && id in s.handlers
    case TimerDeletes(id) => id in s.timers && s.timers[id] == MustDelete
    case TimerRemoves(id) => id in s.timers && s.timers[id] == MustRemove && !s.jammed
    case TimerRuns(id) => id in s.timers && s.timers[id] == MustRun && id in s.handlers
    case Arrive(t, id) => t !in s.replies
    case DecodeFails(t) => t in s.replies && s.replies[t].pc == Decoding
    case DecodeSucceeds(t) => t in s.replies && s.replies[t].pc == Decoding
    case Call(t) => t in s.replies && s.replies[t].pc == Calling && s.replies[t].id in s.handlers
    case RunReply(t) => t in s.replies && s.replies[t].pc == Running && s.replies[t].id in s.handlers
    case Store(_) => !s.jammed
    case Flush => !s.jammed
  }

  /** The removal panics; the timer goroutine recovers and ends, and the lock of the buffer stays held. */
  predicate Crashes(s: State, a: Action) {
    a.TimerRemoves? && Enabled(s, a) && SendBuffer.Panics(s.buffer, a.id)
  }

  function RunCallback(s: State, id: AckId, o: Outcome): map<AckId, Handler>
    requires id in s.handlers
  {
    var h := s.handlers[id];
    s.handlers[id := h.(runs := h.runs + [o])]
  }

  function Do(s: State, a: Action): State {
    if !Enabled(s, a) then s
    else match a
      case Register(withTimeout) =>
        s.(nextId := s.nextId + 1,
           handlers := s.handlers[s.nextId := Handler(withTimeout, false, false, [])],
           timers := if withTimeout then s.timers[s.nextId := Sleeping] else s.timers,
           inserting := s.inserting + {s.nextId})
      case Insert(id) => s.(inserting := s.inserting - {id}, table := s.table + {id})
      case TimerFires(id) =>
        var h := s.handlers[id];
        s.(handlers := s.handlers[id := TimeoutSection(h)],
           timers := s.timers[id := if h.called then Finished else MustDelete])
      case TimerDeletes(id) => s.(table := s.table - {id}, timers := s.timers[id := MustRemove])
      case TimerRemoves(id) =>
        if Crashes(s, a) then s.(timers := s.timers[id := Panicked], jammed := true)
        else s.(timers := s.timers[id := MustRun], buffer := SendBuffer.Skimmed(s.buffer, id))
      case TimerRuns(id) => s.(handlers := RunCallback(s, id, TimedOut), timers := s.timers[id := Finished])
      case Arrive(t, id) =>
        if id in s.table then s.(table := s.table - {id}, replies := s.replies[t := Reply(id, Decoding)]) else s
      case DecodeFails(t) => s.(replies := s.replies - {t})
      case DecodeSucceeds(t) => s.(replies := s.replies[t := Reply(s.replies[t].id, Calling)])
      case Call(t) =>
        var id := s.replies[t].id;
        var h := s.handlers[id];
        s.(handlers := s.handlers[id := CallSection(h)],
           replies := if h.timedOut then s.replies - {t} else s.replies[t := Reply(id, Running)])
      case RunReply(t) => s.(handlers := RunCallback(s, s.replies[t].id, Replied), replies := s.replies - {t})
      case Store(items) => s.(buffer := s.buffer + items)
      case Flush => s.(buffer := [])
  }

  function Exec(s: State, actions: seq<Action>): State
    decreases |actions|
  {
    if actions == [] then s else Exec(Do(s, actions[0]), actions[1..])
  }

  // ------------------------------------------------------------------------------------------
  // The invariant
  // ------------------------------------------------------------------------------------------

  ghost predicate HasReply(s: State, id: AckId, pc: ReplyPc) {
    exists t :: t in s.replies && s.replies[t] == Reply(id, pc)
  }

  /** The handler has been taken out of the table for good, or its entry was deleted. */
  ghost predicate Unclaimed(s: State, id: AckId) {
    id in s.inserting || id in s.table
  }

  /** One handler: who may still run the callback, and who has. */
  ghost predicate HandlerOk(s: State, id: AckId)
    requires id in s.handlers
  {
    var h := s.handlers[id];
    && id < s.nextId
    && (h.hasTimeout <==> id in s.timers)
    && !(h.called && h.timedOut)
    && (h.called ==> !Unclaimed(s, id))
    && (h.runs == [] || h.runs == [Replied] || h.runs == [TimedOut])
    && (h.runs == [Replied] ==> h.called)
    && (h.runs == [TimedOut] ==> h.timedOut && id in s.timers && s.timers[id] == Finished)
    && (h.called && h.runs == [] ==> HasReply(s, id, Running))
    && (h.timedOut ==> id in s.timers && s.timers[id] != Sleeping)
    && (id in s.timers && s.timers[id] in {MustDelete, MustRemove, MustRun, Panicked} ==> h.timedOut && h.runs == [])
    && (id in s.timers && s.timers[id] == Finished ==> h.called || h.runs == [TimedOut])
  }

  ghost predicate ReplyOk(s: State, t: nat)
    requires t in s.replies
  {
    var id := s.replies[t].id;
    && id in s.handlers
    && !Unclaimed(s, id)
    && (s.replies[t].pc == Running <==> s.handlers[id].called)
    && (s.replies[t].pc == Running ==> s.handlers[id].runs == [])
  }

  ghost predicate Inv(s: State) {
    && s.inserting <= s.handlers.Keys && s.table <= s.handlers.Keys && s.timers.Keys <= s.handlers.Keys
    && s.inserting !! s.table
    && (forall id | id in s.handlers :: HandlerOk(s, id))
    && (forall t | t in s.replies :: ReplyOk(s, t))
    && (forall t, u | t in s.replies && u in s.replies && t != u :: s.replies[t].id != s.replies[u].id)
  }

  /** A handler that an action does not touch stays as it was. */
  lemma Untouched(s: State, s': State, id: AckId)
    requires id in s.handlers && HandlerOk(s, id)
    requires id in s'.handlers && s'.handlers[id] == s.handlers[id] && s.nextId <= s'.nextId
    requires (id in s'.timers <==> id in s.timers) && (id in s.timers ==> s'.timers[id] == s.timers[id])
    requires Unclaimed(s', id) ==> Unclaimed(s, id)
    requires forall t | t in s.replies && s.replies[t] == Reply(id, Running) ::
               t in s'.replies && s'.replies[t] == s.replies[t]
    ensures HandlerOk(s', id)
  {
    if HasReply(s, id, Running) {
      var t :| t in s.replies && s.replies[t] == Reply(id, Running);
      assert t in s'.replies && s'.replies[t] == Reply(id, Running);
    }
  }

  lemma RegisterKeepsInv(s: State, withTimeout: bool)
    requires Inv(s)
    ensures Inv(Do(s, Register(withTimeout)))
  {
    var s' := Do(s, Register(withTimeout));
    forall id | id in s'.handlers ensures HandlerOk(s', id) {
      if id != s.nextId {
        Untouched(s, s', id);
      }
    }
    forall t | t in s'.replies ensures ReplyOk(s', t) {
      assert ReplyOk(s, t);
      assert HandlerOk(s, s.replies[t].id);
    }
  }

  lemma InsertKeepsInv(s: State, id: AckId)
    requires Inv(s) && id in s.inserting
    ensures Inv(Do(s, Insert(id)))
  {
    var s' := Do(s, Insert(id));
    forall j | j in s'.handlers ensures HandlerOk(s', j) {
      Untouched(s, s', j);
    }
    forall t | t in s'.replies ensures ReplyOk(s', t) {
      assert ReplyOk(s, t);
    }
  }

  /** The replies are as they were, and so is what they need to know of their handlers. */
  lemma RepliesUntouched(s: State, s': State)
    requires Inv(s) && s'.replies == s.replies && s.handlers.Keys <= s'.handlers.Keys
    requires forall id | id in s.handlers && Unclaimed(s', id) :: Unclaimed(s, id)
    requires forall t | t in s.replies && s.replies[t].id in s.handlers ::
               var h, h' := s.handlers[s.replies[t].id], s'.handlers[s.replies[t].id];
               h'.called == h.called && (h.runs == [] && h.called ==> h'.runs == [])
    ensures forall t | t in s'.replies :: ReplyOk(s', t)
  {
    forall t | t in s'.replies ensures ReplyOk(s', t) {
      assert ReplyOk(s, t);
    }
  }

  lemma FireKeepsInv(s: State, id: AckId)
    requires Inv(s) && Enabled(s, TimerFires(id))
    ensures Inv(Do(s, TimerFires(id)))
  {
    var s' := Do(s, TimerFires(id));
    assert HandlerOk(s, id);
    forall j | j in s'.handlers ensures HandlerOk(s', j) {
      if j != id {
        Untouched(s, s', j);
      } else if HasReply(s, id, Running) {
        var t :| t in s.replies && s.replies[t] == Reply(id, Running);
        assert s'.replies[t] == Reply(id, Running);
      }
    }
    RepliesUntouched(s, s');
  }

  lemma TimerDeleteKeepsInv(s: State, id: AckId)
    requires Inv(s) && Enabled(s, TimerDeletes(id))
    ensures Inv(Do(s, TimerDeletes(id)))
  {
    var s' := Do(s, TimerDeletes(id));
    assert HandlerOk(s, id);
    forall j | j in s'.handlers ensures HandlerOk(s', j) {
      if j != id {
        Untouched(s, s', j);
      }
    }
    RepliesUntouched(s, s');
  }

  lemma TimerRemoveKeepsInv(s: State, id: AckId)
    requires Inv(s) && Enabled(s, TimerRemoves(id))
    ensures Inv(Do(s, TimerRemoves(id)))
  {
    var s' := Do(s, TimerRemoves(id));
    assert HandlerOk(s, id);
    forall j | j in s'.handlers ensures HandlerOk(s', j) {
      if j != id {
        Untouched(s, s', j);
      }
    }
    RepliesUntouched(s, s');
  }

  /** The buffer is nobody's business but the timers'. */
  lemma BufferKeepsInv(s: State, a: Action)
    requires Inv(s) && (a.Store? || a.Flush?)
    ensures Inv(Do(s, a))
  {
    var s' := Do(s, a);
    forall j | j in s'.handlers ensures HandlerOk(s', j) {
      Untouched(s, s', j);
    }
    RepliesUntouched(s, s');
  }

  lemma TimerRunKeepsInv(s: State, id: AckId)
    requires Inv(s) && Enabled(s, TimerRuns(id))
    ensures Inv(Do(s, TimerRuns(id)))
  {
    var s' := Do(s, TimerRuns(id));
    assert HandlerOk(s, id);
    forall j | j in s'.handlers ensures HandlerOk(s', j) {
      if j != id {
        Untouched(s, s', j);
      } else {
        assert s'.handlers[id].runs == [TimedOut];
      }
    }
    RepliesUntouched(s, s');
  }

  lemma ArriveKeepsInv(s: State, t: nat, id: AckId)
    requires Inv(s) && t !in s.replies && id in s.table
    ensures Inv(Do(s, Arrive(t, id)))
  {
    var s' := Do(s, Arrive(t, id));
    assert HandlerOk(s, id);
    forall j | j in s'.handlers ensures HandlerOk(s', j) {
      Untouched(s, s', j);
    }
    forall u | u in s'.replies ensures ReplyOk(s', u) {
      if u != t {
        assert ReplyOk(s, u);
      }
    }
  }

  lemma DecodeKeepsInv(s: State, a: Action, t: nat)
    requires Inv(s) && Enabled(s, a) && a in {DecodeFails(t), DecodeSucceeds(t)}
    ensures Inv(Do(s, a))
  {
    var s' := Do(s, a);
    assert ReplyOk(s, t);
    forall j | j in s'.handlers ensures HandlerOk(s', j) {
      Untouched(s, s', j);
    }
    forall u | u in s'.replies ensures ReplyOk(s', u) {
      assert ReplyOk(s, u);
    }
  }

  lemma CallKeepsInv(s: State, t: nat)
    requires Inv(s) && Enabled(s, Call(t))
    ensures Inv(Do(s, Call(t)))
  {
    var s' := Do(s, Call(t));
    var id := s.replies[t].id;
    assert ReplyOk(s, t);
    forall j | j in s'.handlers ensures HandlerOk(s', j) {
      if j != id {
        Untouched(s, s', j);
      } else {
        assert HandlerOk(s, id);
        if !s.handlers[id].timedOut {
          assert s'.replies[t] == Reply(id, Running);
          assert HasReply(s', id, Running);
        }
      }
    }
    forall u | u in s'.replies ensures ReplyOk(s', u) {
      assert ReplyOk(s, u);
      assert HandlerOk(s, id);
    }
  }

  lemma RunReplyKeepsInv(s: State, t: nat)
    requires Inv(s) && Enabled(s, RunReply(t))
    ensures Inv(Do(s, RunReply(t)))
  {
    var s' := Do(s, RunReply(t));
    var id := s.replies[t].id;
    assert ReplyOk(s, t);
    forall j | j in s'.handlers ensures HandlerOk(s', j) {
      assert HandlerOk(s, j);
      if j != id {
        Untouched(s, s', j);
      } else {
        assert s'.handlers[id].runs == [Replied];
      }
    }
    forall u | u in s'.replies ensures ReplyOk(s', u) {
      assert ReplyOk(s, u);
    }
  }

  /** Every action keeps the invariant. */
  lemma DoKeepsInv(s: State, a: Action)
    requires Inv(s)
    ensures Inv(Do(s, a))
  {
    if Enabled(s, a) {
      match a
      case Register(withTimeout) => RegisterKeepsInv(s, withTimeout);
      case Insert(id) => InsertKeepsInv(s, id);
      case TimerFires(id) => FireKeepsInv(s, id);
      case TimerDeletes(id) => TimerDeleteKeepsInv(s, id);
      case TimerRemoves(id) => TimerRemoveKeepsInv(s, id);
      case TimerRuns(id) => TimerRunKeepsInv(s, id);
      case Arrive(t, id) => if id in s.table { ArriveKeepsInv(s, t, id); }
      case DecodeFails(t) => DecodeKeepsInv(s, a, t);
      case DecodeSucceeds(t) => DecodeKeepsInv(s, a, t);
      case Call(t) => CallKeepsInv(s, t);
      case RunReply(t) => RunReplyKeepsInv(s, t);
      case Store(_) => BufferKeepsInv(s, a);
      case Flush => BufferKeepsInv(s, a);
    }
  }

  lemma {:induction false} ExecKeepsInv(s: State, actions: seq<Action>)
    requires Inv(s)
    ensures Inv(Exec(s, actions))
    decreases |actions|
  {
    if actions != [] {
      DoKeepsInv(s, actions[0]);
      ExecKeepsInv(Do(s, actions[0]), actions[1..]);
    }
  }
}
