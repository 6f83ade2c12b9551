/**
 * Moving from polling to another transport (engine.io/server_socket.go) while the client still
 * polls the old one (engine.io/transport/polling).
 */
module Upgrade {
  import opened Prelude

  datatype Packet = Noop | Other(data: Bytes)

  /** The packets that carry something: NOOP only ends a poll. */
  function Real(ps: seq<Packet>): seq<Packet> {
    if ps == [] then [] else (if ps[0] == Noop then [] else [ps[0]]) + Real(ps[1..])
  }

  lemma {:induction false} RealAppend(a: seq<Packet>, b: seq<Packet>)
    ensures Real(a + b) == Real(a) + Real(b)
  {
    if a == [] {
      assert a + b == b;
    } else {
      assert (a + b)[1..] == a[1..] + b;
      RealAppend(a[1..], b);
    }
  }

  lemma RealOne(p: Packet)
    ensures Real([p]) == if p == Noop then [] else [p]
  {
    assert [p][1..] == [];
  }

  /** pollQueue's add and get, under its mutex. */
  class PollQueue {
    var packets: seq<Packet>

    constructor ()
      ensures packets == []
    {
      packets := [];
    }

    method Add(ps: seq<Packet>)
      modifies this
      ensures packets == old(packets) + ps
    {
      if |packets| == 0 {
        packets := ps;
      } else {
        packets := packets + ps;
      }
    }

    method Get() returns (ps: seq<Packet>)
      modifies this
      ensures ps == old(packets) && packets == []
    {
      ps := packets;
      packets := [];
    }
  }

  /** serverSocket, as far as its transport goes: the polling queue, or the log of the new transport. */
  class ServerSocket {
    const polling: PollQueue
    var upgraded: bool
    var onNew: seq<Packet>
    var once: bool             // the shared sync.Once of Discard and close has been used
    var noopPending: bool      // the goroutine that Discard starts has not run yet

    constructor ()
      ensures !upgraded && onNew == [] && !once && !noopPending && fresh(polling) && polling.packets == []
    {
      polling := new PollQueue();
      upgraded, onNew, once, noopPending := false, [], false, false;
    }

    method Send(ps: seq<Packet>)
      modifies this`onNew, polling
      ensures if upgraded then onNew == old(onNew) + ps && polling.packets == old(polling.packets)
              else polling.packets == old(polling.packets) + ps && onNew == old(onNew)
    {
      if upgraded {
        onNew := onNew + ps;
      } else {
        polling.Add(ps);
      }
    }

    method Discard()
      modifies this`once, this`noopPending
      ensures once && noopPending == (old(noopPending) || !old(once))
    {
      if !once {
        once, noopPending := true, true;
      }
    }

    /** upgradeTo, as it runs when nothing interferes: what was queued goes out on the new transport, in order. */
    method UpgradeTo()
      requires !upgraded
      modifies this, polling
      ensures upgraded && polling.packets == [] && onNew == old(onNew) + Real(old(polling.packets))
      ensures once && noopPending == (old(noopPending) || !old(once))
    {
      upgraded := true;
      Discard();
      var qp := polling.Get();
      for i := 0 to |qp|
        invariant upgraded && polling.packets == [] && onNew == old(onNew) + Real(qp[..i])
        invariant once && noopPending == (old(noopPending) || !old(once))
      {
        assert qp[..i + 1] == qp[..i] + [qp[i]];
        RealAppend(qp[..i], [qp[i]]);
        RealOne(qp[i]);
        if qp[i] != Noop {
          onNew := onNew + [qp[i]];
        }
      }
      assert qp[..|qp|] == qp;
    }
  }

  // ------------------------------------------------------------------------------------------
  // Every interleaving of Send, poll and one upgradeTo
  // ------------------------------------------------------------------------------------------

  /** upgradeTo holds transportMu from Swapped until Upgraded. */
  datatype Stage = Polling | Swapped | Moving | Upgraded

  datatype State = State(
    stage: Stage,
    polled: seq<Packet>,       // handed to poll requests
    queue: seq<Packet>,        // the old transport's queue
    moving: seq<Packet>,       // taken by upgradeTo, not yet sent
    onNew: seq<Packet>,        // sent on the new transport
    noopPending: bool,
    accepted: seq<Packet>)     // every packet given to Send, in the order the sends took effect

  const INIT: State := State(Polling, [], [], [], [], false, [])

  datatype Action =
    | Send(packets: seq<Packet>)  // under the read lock, to whichever transport is current
    | Poll                        // pq.get by a poll request
    | Swap                        // lock, s.transport = t, old.Discard()
    | Take                        // old.QueuedPackets()
    | MoveOne                     // one turn of the loop
    | Unlock
    | NoopRuns                    // the goroutine started by Discard

  predicate Enabled(s: State, a: Action) {
    match a
    case Send(_) => s.stage == Polling || s.stage == Upgraded
    case Poll => true
    case Swap => s.stage == Polling
    case Take => s.stage == Swapped
    case MoveOne => s.stage == Moving && s.moving != []
    case Unlock => s.stage == Moving && s.moving == []
    case NoopRuns => s.noopPending
  }

  function Do(s: State, a: Action): State {
    if !Enabled(s, a) then s
    else match a
      case Send(ps) =>
        if s.stage == Polling then s.(queue := s.queue + ps, accepted := s.accepted + ps)
        else s.(onNew := s.onNew + ps, accepted := s.accepted + ps)
      case Poll => s.(polled := s.polled + s.queue, queue := [])
      case Swap => s.(stage := Swapped, noopPending := true)
      case Take => s.(stage := Moving, moving := s.queue, queue := [])
      case MoveOne =>
        s.(onNew := if s.moving[0] == Noop then s.onNew else s.onNew + [s.moving[0]], moving := s.moving[1..])
      case Unlock => s.(stage := Upgraded)
      case NoopRuns => s.(queue := s.queue + [Noop], noopPending := false)
  }

  function Exec(s: State, actions: seq<Action>): State
    decreases |actions|
  {
    if actions == [] then s else Exec(Do(s, actions[0]), actions[1..])
  }

  /** Delivered by polls, then on the new transport, then still to move, then still queued. */
  function Everything(s: State): seq<Packet> {
    Real(s.polled) + Real(s.onNew) + Real(s.moving) + Real(s.queue)
  }

  ghost predicate Inv(s: State) {
    && Everything(s) == Real(s.accepted)
    && (s.stage == Polling || s.stage == Swapped ==> s.onNew == [] && s.moving == [])
    && (s.stage == Moving || s.stage == Upgraded ==> Real(s.queue) == [])
    && (s.stage == Upgraded ==> s.moving == [])
  }

  lemma Regroup<T>(a: seq<T>, b: seq<T>, x: seq<T>, c: seq<T>, d: seq<T>)
    ensures a + (b + x) + c + d == a + b + (x + c) + d
  {
  }

  lemma Last<T>(a: seq<T>, b: seq<T>, x: seq<T>)
    ensures a + [] + [] + (b + x) == a + [] + [] + b + x
    ensures a + (b + x) + [] + [] == a + b + [] + [] + x
  {
  }

  lemma SendKeepsInv(s: State, ps: seq<Packet>)
    requires Inv(s) && Enabled(s, Send(ps))
    ensures Inv(Do(s, Send(ps)))
  {
    RealAppend(s.accepted, ps);
    if s.stage == Polling {
      RealAppend(s.queue, ps);
      Last(Real(s.polled), Real(s.queue), Real(ps));
    } else {
      RealAppend(s.onNew, ps);
      Last(Real(s.polled), Real(s.onNew), Real(ps));
    }
  }

  lemma MoveKeepsInv(s: State)
    requires Inv(s) && Enabled(s, MoveOne)
    ensures Inv(Do(s, MoveOne))
  {
    var p, rest := s.moving[0], s.moving[1..];
    var x := Real([p]);
    RealOne(p);
    RealAppend(s.onNew, [p]);
    assert Real(s.moving) == x + Real(rest);
    assert Real(Do(s, MoveOne).onNew) == Real(s.onNew) + x;
    Regroup(Real(s.polled), Real(s.onNew), x, Real(rest), Real(s.queue));
  }

  lemma DoKeepsInv(s: State, a: Action)
    requires Inv(s)
    ensures Inv(Do(s, a))
  {
    if Enabled(s, a) {
      match a
      case Send(ps) => SendKeepsInv(s, ps);
      case Poll => RealAppend(s.polled, s.queue);
      case MoveOne => MoveKeepsInv(s);
      case NoopRuns => RealAppend(s.queue, [Noop]); RealOne(Noop);
      case _ =>
    }
  }

  lemma {:induction false} ExecKeepsInv(s: State, actions: seq<Action>)
    requires Inv(s)
    ensures Inv(Exec(s, actions))
    decreases |actions|
  {
    if actions != [] {
      DoKeepsInv(s, actions[0]);
      ExecKeepsInv(Do(s, actions[0]), actions[1..]);
    }
  }

  /** What the callers of Send gave it in a run: a Send waits only while upgradeTo holds transportMu. */
  function Sent(s: State, actions: seq<Action>): seq<Packet>
    decreases |actions|
  {
    if actions == [] then []
    else
      (if actions[0].Send? && s.stage in {Polling, Upgraded} then actions[0].packets else []) +
      Sent(Do(s, actions[0]), actions[1..])
  }

  /** Every Send that is not kept waiting is accepted, whole and in order. */
  lemma {:induction false} AcceptedIsSent(s: State, actions: seq<Action>)
    ensures Exec(s, actions).accepted == s.accepted + Sent(s, actions)
    decreases |actions|
  {
    if actions != [] {
      AcceptedIsSent(Do(s, actions[0]), actions[1..]);
    }
  }

  /**
   * In every interleaving, what polls took, then what went out on the new transport, then what is
   * still being moved or queued, is exactly what was sent, in the order it was sent; and once the
   * upgrade is over nothing but NOOP is left behind.
   */
  lemma UpgradeLosesNothing(actions: seq<Action>)
    ensures var s, sent := Exec(INIT, actions), Real(Sent(INIT, actions));
            && Real(s.polled) + Real(s.onNew) + Real(s.moving) + Real(s.queue) == sent
            && (s.stage == Upgraded ==> Real(s.polled) + Real(s.onNew) == sent)
  {
    ExecKeepsInv(INIT, actions);
    AcceptedIsSent(INIT, actions);
    assert [] + Sent(INIT, actions) == Sent(INIT, actions);
  }

  /** The steps of upgradeTo when nothing comes between them, for a queue of n packets. */
  function Steps(n: nat): seq<Action> {
    [Swap, Take] + Moves(n)
  }

  function Moves(n: nat): seq<Action> {
    if n == 0 then [Unlock] else [MoveOne] + Moves(n - 1)
  }

  lemma MovesOne(s: State)
    requires s.stage == Moving && s.moving != []
    ensures var t := Do(s, MoveOne);
            t == s.(onNew := t.onNew, moving := s.moving[1..]) &&
            t.onNew + Real(t.moving) == s.onNew + Real(s.moving)
  {
    RealOne(s.moving[0]);
    Assoc(s.onNew, Real([s.moving[0]]), Real(s.moving[1..]));
  }

  lemma {:induction false} MovesAll(s: State)
    requires s.stage == Moving
    ensures Exec(s, Moves(|s.moving|)) ==
            s.(stage := Upgraded, moving := [], onNew := s.onNew + Real(s.moving))
    decreases |s.moving|
  {
    var moves := Moves(|s.moving|);
    if s.moving == [] {
      assert moves[1..] == [];
    } else {
      var next := Do(s, MoveOne);
      assert moves[1..] == Moves(|next.moving|);
      MovesOne(s);
      MovesAll(next);
    }
  }

  /**
   * An upgrade that nothing interferes with, from any state of a run, does what UpgradeTo does: the
   * queued packets go out on the new transport in order, and a NOOP is due that ends the open poll.
   */
  lemma UpgradeAtOnce(s: State)
    requires s.stage == Polling && s.moving == []
    ensures Exec(s, Steps(|s.queue|)) ==
            s.(stage := Upgraded, queue := [], onNew := s.onNew + Real(s.queue), noopPending := true)
    ensures var t := Exec(s, Steps(|s.queue|) + [NoopRuns, Poll]);
            t.polled == s.polled + [Noop] && t.queue == []
  {
    var moves := Moves(|s.queue|);
    var taken := Do(Do(s, Swap), Take);
    MovesAll(taken);
    assert Steps(|s.queue|)[1..][1..] == moves;
    var done := Exec(taken, moves);
    ExecAppend(taken, moves, [NoopRuns, Poll]);
    assert (Steps(|s.queue|) + [NoopRuns, Poll])[1..][1..] == moves + [NoopRuns, Poll];
    assert [NoopRuns, Poll][1..] == [Poll];
  }

  lemma {:induction false} ExecAppend(s: State, a: seq<Action>, b: seq<Action>)
    ensures Exec(s, a + b) == Exec(Exec(s, a), b)
    decreases |a|
  {
    if a == [] {
      assert a + b == b;
    } else {
      assert (a + b)[1..] == a[1..] + b;
      ExecAppend(Do(s, a[0]), a[1..], b);
    }
  }
}
