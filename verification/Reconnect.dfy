/**
 * The reconnection chain of a Manager (client_manager_conn.go) that nobody interferes with: attempts, delays and
 * outcomes up to the first success or the last permitted failure.  CloseRace lets a Close run beside it.
 */
module Reconnect {
  import opened Prelude
  import opened Backoff

  datatype ConnectionState = Connecting | Connected | Reconnecting | Disconnected

  /** The handlers that ran. */
  datatype Event =
    | Attempt(number: nat)
    | Error
    | Open
    | ReconnectError
    | Reconnected(number: nat)
    | ReconnectFailed

  /** How the dial of one attempt is answered. */
  datatype Turn = Refused | Accepted

  const MAX_UINT32: int := 0xFFFF_FFFF

  /** The number of attempts a chain may make; zero in the configuration stands for as many as the counter holds. */
  function Limit(reconnectionAttempts: nat): nat {
    if reconnectionAttempts > 0 then reconnectionAttempts else MAX_UINT32
  }

  /** How many dials are refused in a row, the counter being at a. */
  function Refusals(turns: nat -> Turn, a: nat, limit: nat): (k: nat)
    ensures a <= limit ==> a + k <= limit
    ensures a + k < limit ==> turns(a + k) != Refused
    decreases limit - a
  {
    if a < limit && turns(a) == Refused then 1 + Refusals(turns, a + 1, limit) else 0
  }

  /** The events of k refused attempts, numbered from a + 1. */
  function RefusedEvents(a: nat, k: nat): seq<Event>
    decreases k
  {
    if k == 0 then [] else [Attempt(a + 1), Error, ReconnectError] + RefusedEvents(a + 1, k - 1)
  }

  /** The events after the refusals: the counter is at a. */
  function LastEvents(a: nat, limit: nat): seq<Event> {
    if a >= limit then [ReconnectFailed] else [Attempt(a + 1), Open, Reconnected(a + 1)]
  }

  /** Where the chain stops. */
  function LastState(a: nat, limit: nat): ConnectionState {
    if a >= limit then Disconnected else Connected
  }

  /** A whole chain: its events, then the state and the counter it leaves. */
  datatype Outcome = Outcome(events: seq<Event>, state: ConnectionState, counter: nat)

  /** The chain that starts with the counter at a, attempt by attempt. */
  function Run(turns: nat -> Turn, a: nat, limit: nat): Outcome
    decreases limit - a
  {
    if a >= limit then Outcome([ReconnectFailed], Disconnected, 0)
    else match turns(a)
      case Accepted => Outcome([Attempt(a + 1), Open, Reconnected(a + 1)], Connected, 0)
      case Refused =>
        var rest := Run(turns, a + 1, limit);
        Outcome([Attempt(a + 1), Error, ReconnectError] + rest.events, rest.state, rest.counter)
  }

  /** The same chain in one piece: the refusals, then what comes after them. */
  lemma {:induction false} RunIs(turns: nat -> Turn, a: nat, limit: nat)
    ensures var k := Refusals(turns, a, limit);
            Run(turns, a, limit) ==
            Outcome(RefusedEvents(a, k) + LastEvents(a + k, limit), LastState(a + k, limit), 0)
    decreases limit - a
  {
    if a < limit && turns(a) == Refused {
      RunIs(turns, a + 1, limit);
      var k := Refusals(turns, a + 1, limit);
      Assoc([Attempt(a + 1), Error, ReconnectError], RefusedEvents(a + 1, k), LastEvents(a + 1 + k, limit));
    } else {
      assert [] + LastEvents(a, limit) == LastEvents(a, limit);
    }
  }

  class Manager {
    const reconnectionAttempts: nat
    const backoff: Backoff
    var state: ConnectionState
    var events: seq<Event>

    constructor (reconnectionAttempts: nat, min: int, max: int)
      requires reconnectionAttempts <= MAX_UINT32
      ensures this.reconnectionAttempts == reconnectionAttempts && fresh(backoff)
      ensures state == Disconnected && events == [] && backoff.numAttempts == 0
    {
      this.reconnectionAttempts := reconnectionAttempts;
      backoff := new Backoff(min, max);
      state, events := Disconnected, [];
    }

    ghost predicate Valid()
      reads this, backoff
    {
      reconnectionAttempts <= MAX_UINT32 && backoff.numAttempts <= MAX_UINT32
    }

    /** connect, when it is reached from reconnect. */
    method Connect(accepted: bool) returns (ok: bool)
      modifies this
      ensures old(state) == Connected ==> ok && state == Connected && events == old(events)
      ensures old(state) != Connected ==> ok == accepted
      ensures old(state) != Connected && ok ==> state == Connected && events == old(events) + [Open]
      ensures !ok ==> state == Disconnected && events == old(events) + [Error]
    {
      if state == Connected {
        return true;
      }
      state := Connecting;
      if !accepted {
        state := Disconnected;
        events := events + [Error];
        return false;
      }
      state := Connected;
      events := events + [Open];
      return true;
    }

    /** The wait before an attempt counts it. */
    method Sleep(platform: int)
      requires backoff.numAttempts < MAX_UINT32
      modifies backoff
      ensures backoff.numAttempts == old(backoff.numAttempts) + 1
    {
      var delay := backoff.Duration(platform);
    }

    /** The body of one attempt, up to the answer of the dial. */
    method Try(turns: nat -> Turn, platform: int) returns (turn: Turn)
      requires state == Reconnecting && backoff.numAttempts < MAX_UINT32
      modifies this, backoff
      ensures turn == turns(old(backoff.numAttempts)) && backoff.numAttempts == old(backoff.numAttempts) + 1
      ensures state == if turn == Refused then Disconnected else Connected
      ensures events == old(events) + match turn
                                      case Refused => [Attempt(backoff.numAttempts), Error, ReconnectError]
                                      case Accepted => [Attempt(backoff.numAttempts), Open]
    {
      turn := turns(backoff.numAttempts);
      Sleep(platform);
      var attempts := backoff.Attempts();
      events := events + [Attempt(attempts)];
      var ok := Connect(turn == Accepted);
      if !ok {
        state := Disconnected;
        events := events + [ReconnectError];
      }
    }

    method OnReconnect()
      modifies this`events, backoff
      ensures events == old(events) + [Reconnected(old(backoff.numAttempts))] && backoff.numAttempts == 0
    {
      var attempts := backoff.Attempts();
      backoff.Reset();
      events := events + [Reconnected(attempts)];
    }

    /**
     * reconnect.  turns(a) is what happens to the attempt made when the counter is at a; skip is skipReconnect at the
     * first call.
     */
    method Reconnect(recursed: bool, skip: bool, turns: nat -> Turn, platform: int)
      requires Valid()
      modifies this, backoff
      ensures Valid()
      ensures (!recursed && skip) || old(state) != Disconnected ==>
                state == old(state) && events == old(events) && backoff.numAttempts == old(backoff.numAttempts)
      ensures (recursed || !skip) && old(state) == Disconnected ==>
                var run := Run(turns, old(backoff.numAttempts), Limit(reconnectionAttempts));
                events == old(events) + run.events && state == run.state && backoff.numAttempts == run.counter
      decreases Limit(reconnectionAttempts) - backoff.numAttempts
    {
      if !recursed && skip {
        return;
      }
      if state != Disconnected {
        return;
      }
      state := Reconnecting;
      var attempts := backoff.Attempts();
      if (reconnectionAttempts > 0 && attempts >= reconnectionAttempts) ||
         (reconnectionAttempts == 0 && attempts == MAX_UINT32) {
        backoff.Reset();
        state := Disconnected;
        events := events + [ReconnectFailed];
        return;
      }
      var turn := Try(turns, platform);
      if turn == Refused {
        ghost var rest := Run(turns, attempts + 1, Limit(reconnectionAttempts));
        Assoc(old(events), [Attempt(attempts + 1), Error, ReconnectError], rest.events);
        Reconnect(true, skip, turns, platform);
        return;
      }
      OnReconnect();
    }
  }

  // ------------------------------------------------------------------------------------------
  // What a listener sees
  // ------------------------------------------------------------------------------------------

  /** The numbers of the attempt events. */
  function Attempts(es: seq<Event>): seq<nat> {
    if es == [] then [] else (if es[0].Attempt? then [es[0].number] else []) + Attempts(es[1..])
  }

  /** The events that end a chain. */
  function Endings(es: seq<Event>): seq<Event> {
    if es == [] then []
    else (if es[0].Reconnected? || es[0].ReconnectFailed? then [es[0]] else []) + Endings(es[1..])
  }

  lemma {:induction false} AttemptsAppend(xs: seq<Event>, ys: seq<Event>)
    ensures Attempts(xs + ys) == Attempts(xs) + Attempts(ys)
  {
    if xs == [] {
      assert xs + ys == ys;
    } else {
      assert (xs + ys)[1..] == xs[1..] + ys;
      AttemptsAppend(xs[1..], ys);
      var head := if xs[0].Attempt? then [xs[0].number] else [];
      assert Attempts(xs + ys) == head + Attempts(xs[1..] + ys);
      Assoc(head, Attempts(xs[1..]), Attempts(ys));
    }
  }

  lemma {:induction false} EndingsAppend(xs: seq<Event>, ys: seq<Event>)
    ensures Endings(xs + ys) == Endings(xs) + Endings(ys)
  {
    if xs == [] {
      assert xs + ys == ys;
    } else {
      assert (xs + ys)[1..] == xs[1..] + ys;
      EndingsAppend(xs[1..], ys);
      var head := if xs[0].Reconnected? || xs[0].ReconnectFailed? then [xs[0]] else [];
      assert Endings(xs + ys) == head + Endings(xs[1..] + ys);
      Assoc(head, Endings(xs[1..]), Endings(ys));
    }
  }

  lemma SeenAppend(xs: seq<Event>, ys: seq<Event>)
    ensures Attempts(xs + ys) == Attempts(xs) + Attempts(ys)
    ensures Endings(xs + ys) == Endings(xs) + Endings(ys)
  {
    AttemptsAppend(xs, ys);
    EndingsAppend(xs, ys);
  }

  lemma SeenOne(e: Event)
    ensures Attempts([e]) == if e.Attempt? then [e.number] else []
    ensures Endings([e]) == if e.Reconnected? || e.ReconnectFailed? then [e] else []
  {
    assert [e][1..] == [];
  }

  /** An attempt makes three events. */
  lemma SeenThree(x: Event, y: Event, z: Event)
    ensures Attempts([x, y, z]) == Attempts([x]) + Attempts([y]) + Attempts([z])
    ensures Endings([x, y, z]) == Endings([x]) + Endings([y]) + Endings([z])
  {
    assert [x, y, z] == [x] + [y] + [z];
    SeenAppend([x] + [y], [z]);
    SeenAppend([x], [y]);
  }

  /** The three events of a refused attempt. */
  lemma RefusedOnce(n: nat)
    ensures Attempts([Attempt(n), Error, ReconnectError]) == [n]
    ensures Endings([Attempt(n), Error, ReconnectError]) == []
  {
    SeenThree(Attempt(n), Error, ReconnectError);
    SeenOne(Attempt(n));
    SeenOne(Error);
    SeenOne(ReconnectError);
  }

  lemma {:induction false} RefusedNumbers(a: nat, k: nat)
    ensures Attempts(RefusedEvents(a, k)) == Range(a + 1, a + k + 1)
    decreases k
  {
    if k > 0 {
      RefusedOnce(a + 1);
      RefusedNumbers(a + 1, k - 1);
      AttemptsAppend([Attempt(a + 1), Error, ReconnectError], RefusedEvents(a + 1, k - 1));
      RangeFrom(a + 1, a + k + 1);
    }
  }

  lemma RangeFrom(lo: nat, hi: nat)
    requires lo < hi
    ensures [lo] + Range(lo + 1, hi) == Range(lo, hi)
  {
  }

  lemma {:induction false} RefusedEndings(a: nat, k: nat)
    ensures Endings(RefusedEvents(a, k)) == []
    decreases k
  {
    if k > 0 {
      RefusedOnce(a + 1);
      RefusedEndings(a + 1, k - 1);
      EndingsAppend([Attempt(a + 1), Error, ReconnectError], RefusedEvents(a + 1, k - 1));
    }
  }

  lemma RefusedAttempts(a: nat, k: nat)
    ensures Attempts(RefusedEvents(a, k)) == Range(a + 1, a + k + 1)
    ensures Endings(RefusedEvents(a, k)) == []
  {
    RefusedNumbers(a, k);
    RefusedEndings(a, k);
  }

  lemma AcceptedAttempt(n: nat)
    ensures Attempts([Attempt(n), Open, Reconnected(n)]) == [n]
    ensures Endings([Attempt(n), Open, Reconnected(n)]) == [Reconnected(n)]
  {
    SeenThree(Attempt(n), Open, Reconnected(n));
    SeenOne(Attempt(n));
    SeenOne(Open);
    SeenOne(Reconnected(n));
  }

  lemma AcceptedAfter(k: nat)
    ensures var es := RefusedEvents(0, k) + [Attempt(k + 1), Open, Reconnected(k + 1)];
            Attempts(es) == Range(1, k + 2) && Endings(es) == [Reconnected(k + 1)]
  {
    RefusedAttempts(0, k);
    AcceptedAttempt(k + 1);
    SeenAppend(RefusedEvents(0, k), [Attempt(k + 1), Open, Reconnected(k + 1)]);
    RangeUpTo(1, k + 1);
  }

  lemma FailedAfter(k: nat)
    ensures var es := RefusedEvents(0, k) + [ReconnectFailed];
            Attempts(es) == Range(1, k + 1) && Endings(es) == [ReconnectFailed]
  {
    RefusedAttempts(0, k);
    SeenOne(ReconnectFailed);
    SeenAppend(RefusedEvents(0, k), [ReconnectFailed]);
  }

  lemma RangeUpTo(lo: nat, hi: nat)
    requires lo <= hi
    ensures Range(lo, hi) + [hi] == Range(lo, hi + 1)
  {
  }

  /** How many attempts the chain makes. */
  function Made(turns: nat -> Turn, limit: nat): (m: nat)
    ensures m <= limit
  {
    var k := Refusals(turns, 0, limit);
    if k < limit then k + 1 else k
  }

  /** Every turn before the last one is a refusal. */
  lemma {:induction false} AllRefused(turns: nat -> Turn, a: nat, limit: nat)
    requires a <= limit
    ensures var k := Refusals(turns, a, limit);
            forall i: nat | a <= i < a + k :: turns(i) == Refused
    decreases limit - a
  {
    if a < limit && turns(a) == Refused {
      AllRefused(turns, a + 1, limit);
    }
  }

  /** What a listener sees of the chain. */
  lemma SeenInChain(turns: nat -> Turn, limit: nat)
    ensures Attempts(Run(turns, 0, limit).events) == Range(1, Made(turns, limit) + 1)
    ensures Endings(Run(turns, 0, limit).events) ==
            if Refusals(turns, 0, limit) == limit then [ReconnectFailed] else [Reconnected(Made(turns, limit))]
  {
    var k := Refusals(turns, 0, limit);
    RunIs(turns, 0, limit);
    if k == limit {
      FailedAfter(k);
    } else {
      AcceptedAfter(k);
    }
  }

  /**
   * For every sequence of dial outcomes the attempts are numbered 1..m with m within the limit, and the chain ends
   * once: connected and reporting m if and only if some dial within the limit is accepted, disconnected and reporting
   * failure after exactly the permitted number of refusals otherwise.  The counter is always back at zero.
   */
  lemma ReconnectChain(turns: nat -> Turn, limit: nat)
    ensures var m, run := Made(turns, limit), Run(turns, 0, limit);
            && Attempts(run.events) == Range(1, m + 1)
            && run.counter == 0
            && (run.state == Connected <==> exists i: nat | i < limit :: turns(i) == Accepted)
            && (run.state == Disconnected <==> forall i: nat | i < limit :: turns(i) == Refused)
            && (run.state == Connected ==> Endings(run.events) == [Reconnected(m)])
            && (run.state == Disconnected ==> Endings(run.events) == [ReconnectFailed] && m == limit)
  {
    RunIs(turns, 0, limit);
    SeenInChain(turns, limit);
    AllRefused(turns, 0, limit);
  }

  /**
   * What ReconnectionAttempts means: a chain gives up after exactly that many refusals, and with zero only when the
   * 32-bit counter cannot count another one.
   */
  lemma GivesUpExactly(turns: nat -> Turn, reconnectionAttempts: nat)
    ensures var run := Run(turns, 0, Limit(reconnectionAttempts));
            && (reconnectionAttempts > 0 ==>
                  (Endings(run.events) == [ReconnectFailed]
                   <==> forall i: nat | i < reconnectionAttempts :: turns(i) == Refused)
                  && |Attempts(run.events)| <= reconnectionAttempts)
            && (reconnectionAttempts == 0 ==>
                  (Endings(run.events) == [ReconnectFailed]
                   <==> forall i: nat | i < 4294967295 :: turns(i) == Refused))
  {
    ReconnectChain(turns, Limit(reconnectionAttempts));
  }
}
