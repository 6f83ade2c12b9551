/** The race for an acknowledgement settles: how many steps a registration can still take. */
module AckProgress {
  import opened Prelude
  import opened AckRace
  import opened AckOutcome

  /** The action is a step of the given registration: of its insertion, its timer or its reply. */
  predicate StepOf(s: State, a: Action, id: AckId) {
    Enabled(s, a) &&
    match a
    case Register(_) => false
    case Insert(i) => i == id
    case TimerFires(i) => i == id
    case TimerDeletes(i) => i == id
    case TimerRemoves(i) => i == id
    case TimerRuns(i) => i == id
    case Arrive(t, i) => i == id && id in s.table
    case DecodeFails(t) => s.replies[t].id == id
    case DecodeSucceeds(t) => s.replies[t].id == id
    case Call(t) => s.replies[t].id == id
    case RunReply(t) => s.replies[t].id == id
    case Store(_) => false
    case Flush => false
  }

  function TimerWork(s: State, id: AckId): nat {
    if id !in s.timers then 0
    else match s.timers[id]
      case Sleeping => 4
      case MustDelete => 3
      case MustRemove => 2
      case MustRun => 1
      case Finished => 0
      case Panicked => 0
  }

  /** An entry still to be claimed is worth more than the reply that claims it. */
  function TableWork(s: State, id: AckId): nat {
    if id in s.inserting then 5 else if id in s.table then 4 else 0
  }

  function PcWork(pc: ReplyPc): nat {
    match pc
    case Decoding => 3
    case Calling => 2
    case Running => 1
  }

  ghost function ReplyWork(s: State, id: AckId): nat {
    if HasReply(s, id, Decoding) then 3
    else if HasReply(s, id, Calling) then 2
    else if HasReply(s, id, Running) then 1
    else 0
  }

  /** The most steps a registration can still take. */
  ghost function Work(s: State, id: AckId): nat {
    TableWork(s, id) + TimerWork(s, id) + ReplyWork(s, id)
  }

  /** A registration has at most one reply. */
  lemma TheReply(s: State, t: nat)
    requires Inv(s) && t in s.replies
    ensures ReplyWork(s, s.replies[t].id) == PcWork(s.replies[t].pc)
  {
    assert HasReply(s, s.replies[t].id, s.replies[t].pc);
  }

  lemma NoReply(s: State, id: AckId)
    requires forall t | t in s.replies :: s.replies[t].id != id
    ensures ReplyWork(s, id) == 0
  {
  }

  lemma SameReply(s: State, s': State, id: AckId)
    requires forall t | t in s.replies && s.replies[t].id == id :: t in s'.replies && s'.replies[t] == s.replies[t]
    requires forall t | t in s'.replies && s'.replies[t].id == id :: t in s.replies && s'.replies[t] == s.replies[t]
    ensures ReplyWork(s', id) == ReplyWork(s, id)
  {
    forall pc ensures HasReply(s', id, pc) <==> HasReply(s, id, pc) {
      if HasReply(s, id, pc) {
        var t :| t in s.replies && s.replies[t] == Reply(id, pc);
        assert t in s'.replies && s'.replies[t] == Reply(id, pc);
      }
      if HasReply(s', id, pc) {
        var t :| t in s'.replies && s'.replies[t] == Reply(id, pc);
        assert t in s.replies && s.replies[t] == Reply(id, pc);
      }
    }
  }

  /** The thread whose step an action is, if it is one of a reply. */
  predicate ReplyStep(a: Action) {
    a.DecodeFails? || a.DecodeSucceeds? || a.Call? || a.RunReply?
  }

  /** A step of a reply moves or ends that reply, and leaves the others alone. */
  lemma ReplyEffect(s: State, a: Action)
    requires Enabled(s, a) && ReplyStep(a)
    ensures var t, rs, rs' := a.thread, s.replies, Do(s, a).replies;
            && (t in rs' ==> rs'[t].id == rs[t].id && PcWork(rs'[t].pc) < PcWork(rs[t].pc))
            && (forall u | u != t :: (u in rs' <==> u in rs) && (u in rs ==> rs'[u] == rs[u]))
  {
  }

  /** The reply of a registration has less to do once it has moved. */
  lemma OwnReplyShrinks(s: State, s': State, t: nat)
    requires Inv(s) && Inv(s') && t in s.replies
    requires t in s'.replies ==>
               s'.replies[t].id == s.replies[t].id && PcWork(s'.replies[t].pc) < PcWork(s.replies[t].pc)
    requires forall u | u != t && u in s'.replies :: u in s.replies && s'.replies[u] == s.replies[u]
    ensures ReplyWork(s', s.replies[t].id) < ReplyWork(s, s.replies[t].id)
  {
    TheReply(s, t);
    if t in s'.replies {
      TheReply(s', t);
    } else {
      NoReply(s', s.replies[t].id);
    }
  }

  lemma ReplyWorkShrinks(s: State, a: Action, id: AckId)
    requires Inv(s) && Inv(Do(s, a)) && Enabled(s, a) && ReplyStep(a)
    ensures s.replies[a.thread].id == id ==> ReplyWork(Do(s, a), id) < ReplyWork(s, id)
    ensures s.replies[a.thread].id != id ==> ReplyWork(Do(s, a), id) == ReplyWork(s, id)
  {
    ReplyEffect(s, a);
    if s.replies[a.thread].id == id {
      OwnReplyShrinks(s, Do(s, a), a.thread);
    } else {
      SameReply(s, Do(s, a), id);
    }
  }

  lemma ArriveShrinks(s: State, t: nat, id: AckId, other: AckId)
    requires Inv(s) && t !in s.replies && other in s.table && id in s.handlers
    ensures id == other ==> Work(Do(s, Arrive(t, other)), id) < Work(s, id)
    ensures id != other ==> Work(Do(s, Arrive(t, other)), id) == Work(s, id)
  {
    var s' := Do(s, Arrive(t, other));
    DoKeepsInv(s, Arrive(t, other));
    if id == other {
      forall u | u in s.replies ensures s.replies[u].id != id {
        assert ReplyOk(s, u);
      }
      NoReply(s, id);
      TheReply(s', t);
    } else {
      SameReply(s, s', id);
    }
  }

  lemma TableWorkShrinks(s: State, a: Action, id: AckId)
    requires id < s.nextId && Enabled(s, a)
    ensures TableWork(Do(s, a), id) <= TableWork(s, id)
    ensures a == Insert(id) ==> TableWork(Do(s, a), id) < TableWork(s, id)
  {
  }

  lemma TimerWorkShrinks(s: State, a: Action, id: AckId)
    requires id < s.nextId && Enabled(s, a)
    ensures TimerWork(Do(s, a), id) <= TimerWork(s, id)
    ensures a in {TimerFires(id), TimerDeletes(id), TimerRemoves(id), TimerRuns(id)} ==>
              TimerWork(Do(s, a), id) < TimerWork(s, id)
  {
  }

  /** The other actions leave the replies alone. */
  lemma OwnWorkShrinks(s: State, a: Action, id: AckId)
    requires Inv(s) && Enabled(s, a) && !ReplyStep(a) && !a.Arrive? && id in s.handlers
    ensures TableWork(Do(s, a), id) + TimerWork(Do(s, a), id) <= TableWork(s, id) + TimerWork(s, id)
    ensures StepOf(s, a, id) ==> TableWork(Do(s, a), id) + TimerWork(Do(s, a), id) < TableWork(s, id) + TimerWork(s, id)
  {
    assert HandlerOk(s, id);
    TableWorkShrinks(s, a, id);
    TimerWorkShrinks(s, a, id);
  }

  lemma ReplyStepShrinks(s: State, a: Action, id: AckId)
    requires Inv(s) && Enabled(s, a) && ReplyStep(a) && id in s.handlers
    ensures Work(Do(s, a), id) <= Work(s, id)
    ensures StepOf(s, a, id) ==> Work(Do(s, a), id) < Work(s, id)
  {
    DoKeepsInv(s, a);
    ReplyWorkShrinks(s, a, id);
  }

  lemma OtherStepShrinks(s: State, a: Action, id: AckId)
    requires Inv(s) && Enabled(s, a) && !ReplyStep(a) && !a.Arrive? && id in s.handlers
    ensures Work(Do(s, a), id) <= Work(s, id)
    ensures StepOf(s, a, id) ==> Work(Do(s, a), id) < Work(s, id)
  {
    OwnWorkShrinks(s, a, id);
    SameReply(s, Do(s, a), id);
  }

  /** Each step of a registration leaves it less to do, and no other action gives it more. */
  lemma WorkShrinks(s: State, a: Action, id: AckId)
    requires Inv(s) && id in s.handlers
    ensures id in Do(s, a).handlers && Work(Do(s, a), id) <= Work(s, id)
    ensures StepOf(s, a, id) ==> Work(Do(s, a), id) < Work(s, id)
  {
    if Enabled(s, a) {
      if ReplyStep(a) {
        ReplyStepShrinks(s, a, id);
      } else if !a.Arrive? {
        OtherStepShrinks(s, a, id);
      } else if a.id in s.table {
        ArriveShrinks(s, a.thread, id, a.id);
      }
    }
  }

  /** How many actions of a run are steps of the registration. */
  function Steps(s: State, actions: seq<Action>, id: AckId): nat
    decreases |actions|
  {
    if actions == [] then 0
    else (if StepOf(s, actions[0], id) then 1 else 0) + Steps(Do(s, actions[0]), actions[1..], id)
  }

  lemma {:induction false} StepsBounded(s: State, actions: seq<Action>, id: AckId)
    requires Inv(s) && id in s.handlers
    ensures id in Exec(s, actions).handlers && Steps(s, actions, id) + Work(Exec(s, actions), id) <= Work(s, id)
    decreases |actions|
  {
    if actions != [] {
      WorkShrinks(s, actions[0], id);
      DoKeepsInv(s, actions[0]);
      StepsBounded(Do(s, actions[0]), actions[1..], id);
    }
  }

  /**
   * The race settles: from its registration on, a callback's own steps are at most nine, whatever else happens and in
   * whatever order; and in a run without a panic one that leads to it is enabled until it has run.
   */
  lemma SettlesInNineSteps(before: seq<Action>, after: seq<Action>, id: AckId)
    requires id in Exec(INIT, before).handlers
    ensures Steps(Exec(INIT, before), after, id) <= 9
    ensures var s := Exec(INIT, before);
            s.handlers[id].hasTimeout && s.handlers[id].runs == [] && Smooth(INIT, before) ==> Progresses(s, id)
  {
    var s := Exec(INIT, before);
    ExecKeepsInv(INIT, before);
    assert HandlerOk(s, id);
    StepsBounded(s, after, id);
    if Unclaimed(s, id) {
      forall t | t in s.replies ensures s.replies[t].id != id {
        assert ReplyOk(s, t);
      }
      NoReply(s, id);
    }
    if s.handlers[id].hasTimeout && s.handlers[id].runs == [] {
      NeverStuck(before, id);
    }
  }
}
