/**
 * The client's retry queue (client_packet_queue.go): packets are emitted one at a time, from the
 * head, and leave when they are acknowledged or when their retries are used up.
 *
 * The replacement acknowledgement releases its locks between reading the try counter, removing
 * the head, running the user's callback, clearing the pending mark and draining again, so each of
 * those is an action of its own.
 */
module RetryQueue {
  import opened Prelude

  type PacketId = nat

  /** tryCount and pending as in queuedPacket; `acks` counts the runs of the user's callback. */
  datatype Entry = Entry(tryCount: nat, pending: bool, acks: nat)

  /** Where a goroutine is: waiting for the outcome of an emission, in the replacement ack, or about to drain. */
  datatype Pc = Emitted | CheckTries | MustPop | MustAck | MustClear | MustDrain

  datatype Thread = Thread(packet: PacketId, pc: Pc)

  datatype State = State(
    connected: bool,
    queue: seq<PacketId>,
    entries: map<PacketId, Entry>,
    threads: map<nat, Thread>,
    nextThread: nat,
    appended: seq<PacketId>,   // every packet ever queued, in order
    gone: seq<PacketId>)       // every packet removed from the queue, in order

  const INIT: State := State(false, [], map[], map[], 0, [], [])

  datatype Action =
    | SetConnected(up: bool)
    | Enqueue                     // addToQueue up to its call of drainQueue
    | Outcome(t: nat, ok: bool)   // the replacement ack is entered, without or with an error
    | Check(t: nat)               // read tryCount, compare with Retries
    | Pop(t: nat)                 // queuedPackets = queuedPackets[1:]
    | RunAck(t: nat)
    | Clear(t: nat)               // pending = false
    | Drain(t: nat)               // drainQueue(false)
    | ForceDrain                  // onConnect: drainQueue(true)

  /** drainQueue sends the head unless it is pending and the drain is not forced. */
  predicate Sends(s: State, force: bool) {
    && s.connected && s.queue != [] && s.queue[0] in s.entries
    && (force || !s.entries[s.queue[0]].pending)
  }

  function DrainQueue(s: State, force: bool): State {
    if !Sends(s, force) then s
    else
      var head := s.queue[0];
      var e := s.entries[head];
      s.(entries := s.entries[head := e.(pending := true, tryCount := e.tryCount + 1)],
         threads := s.threads[s.nextThread := Thread(head, Emitted)],
         nextThread := s.nextThread + 1)
  }

  /** The entries of a queue after a packet is appended: it has not been tried. */
  function Appended(entries: map<PacketId, Entry>, p: PacketId): map<PacketId, Entry> {
    entries[p := Entry(0, false, 0)]
  }

  /** The entry of a packet after its replacement ack: its callback has run if it left, and it is not pending. */
  function Settled(e: Entry, leaves: bool): Entry {
    Entry(e.tryCount, false, if leaves then e.acks + 1 else e.acks)
  }

  /** The queue object. */
  class ClientPacketQueue {
    var connected: bool
    var seqNumber: nat
    var queuedPackets: seq<PacketId>
    var entries: map<PacketId, Entry>

    ghost predicate Valid()
      reads this
    {
      && (forall p | p in queuedPackets :: p in entries)
      && (forall p | p in entries :: p < seqNumber)
    }

    ghost function View(): State
      reads this
    {
      Shared(connected, queuedPackets, entries)
    }

    /** drainQueue; `emits` is the packet whose emission it starts. */
    method Drain(force: bool) returns (emits: Option<PacketId>)
      requires Valid()
      modifies this`entries
      ensures Valid() && entries == DrainQueue(old(View()), force).entries
      ensures emits == if Sends(old(View()), force) then Some(queuedPackets[0]) else None
    {
      if !connected || |queuedPackets| == 0 {
        return None;
      }
      var packet := queuedPackets[0];
      var e := entries[packet];
      if e.pending && !force {
        return None;
      }
      entries := entries[packet := e.(pending := true, tryCount := e.tryCount + 1)];
      return Some(packet);
    }

    /** addToQueue: the packet goes to the end under a new number, and the queue is drained. */
    method AddToQueue() returns (p: PacketId, emits: Option<PacketId>)
      requires Valid()
      modifies this
      ensures Valid() && connected == old(connected)
      ensures p !in old(entries) && queuedPackets == old(queuedPackets) + [p]
      ensures var s := Shared(connected, queuedPackets, Appended(old(entries), p));
              && entries == DrainQueue(s, false).entries
              && emits == if Sends(s, false) then Some(queuedPackets[0]) else None
    {
      p := seqNumber;
      seqNumber := seqNumber + 1;
      queuedPackets, entries := queuedPackets + [p], Appended(entries, p);
      emits := Drain(false);
    }

    /**
     * The replacement ack of packet p, when nothing interferes: the packet leaves on success or after its last try,
     * its callback runs exactly when it leaves, and the queue is drained.  With an empty queue, as after a collision,
     * taking the head out panics.
     */
    method ReplacementAck(p: PacketId, hasError: bool, retries: nat)
      returns (leaves: bool, panics: bool, emits: Option<PacketId>)
      requires Valid() && p in entries
      modifies this`queuedPackets, this`entries
      ensures Valid() && leaves == (!hasError || old(entries)[p].tryCount > retries)
      ensures panics == (leaves && old(queuedPackets) == [])
      ensures panics ==> queuedPackets == old(queuedPackets) && entries == old(entries) && emits == None
      ensures !panics ==> queuedPackets == if leaves then old(queuedPackets)[1..] else old(queuedPackets)
      ensures !panics ==>
                var s := Shared(connected, queuedPackets, old(entries)[p := Settled(old(entries)[p], leaves)]);
                && entries == DrainQueue(s, false).entries
                && emits == if Sends(s, false) then Some(queuedPackets[0]) else None
    {
      leaves, panics, emits := true, false, None;
      if hasError {
        var tryCount := entries[p].tryCount;
        leaves := tryCount > retries;
      }
      if leaves {
        if |queuedPackets| == 0 {
          panics := true;
          return;
        }
        queuedPackets := queuedPackets[1..];
        entries := entries[p := entries[p].(acks := entries[p].acks + 1)];
      }
      entries := entries[p := entries[p].(pending := false)];
      assert entries == old(entries)[p := Settled(old(entries)[p], leaves)];
      emits := Drain(false);
    }
  }

  /** The part of the state the object holds. */
  function Shared(connected: bool, queue: seq<PacketId>, entries: map<PacketId, Entry>): State {
    State(connected, queue, entries, map[], 0, [], [])
  }

  predicate At(s: State, t: nat, pc: Pc) {
    t in s.threads && s.threads[t].pc == pc && (pc != MustDrain ==> s.threads[t].packet in s.entries)
  }

  predicate Enabled(s: State, a: Action) {
    match a
    case SetConnected(_) => true
    case Enqueue => true
    case Outcome(t, _) => At(s, t, Emitted)
    case Check(t) => At(s, t, CheckTries)
    case Pop(t) => At(s, t, MustPop) && s.queue != []
    case RunAck(t) => At(s, t, MustAck)
    case Clear(t) => At(s, t, MustClear)
    case Drain(t) => At(s, t, MustDrain)
    case ForceDrain => true
  }

  function Goto(s: State, t: nat, pc: Pc): State
    requires t in s.threads
  {
    s.(threads := s.threads[t := s.threads[t].(pc := pc)])
  }

  function Do(s: State, a: Action, retries: nat): State {
    if !Enabled(s, a) then s
    else match a
      case SetConnected(up) => s.(connected := up)
      case Enqueue =>
        var p := |s.appended|;
        s.(queue := s.queue + [p], entries := s.entries[p := Entry(0, false, 0)], appended := s.appended + [p],
           threads := s.threads[s.nextThread := Thread(p, MustDrain)], nextThread := s.nextThread + 1)
      case Outcome(t, ok) => Goto(s, t, if ok then MustPop else CheckTries)
      case Check(t) => Goto(s, t, if s.entries[s.threads[t].packet].tryCount > retries then MustPop else MustClear)
      case Pop(t) => Goto(s, t, MustAck).(queue := s.queue[1..], gone := s.gone + [s.queue[0]])
      case RunAck(t) =>
        var p := s.threads[t].packet;
        Goto(s, t, MustClear).(entries := s.entries[p := s.entries[p].(acks := s.entries[p].acks + 1)])
      case Clear(t) =>
        var p := s.threads[t].packet;
        Goto(s, t, MustDrain).(entries := s.entries[p := s.entries[p].(pending := false)])
      case Drain(t) => DrainQueue(s.(threads := s.threads - {t}), false)
      case ForceDrain => DrainQueue(s, true)
  }

  function Exec(s: State, actions: seq<Action>, retries: nat): State
    decreases |actions|
  {
    if actions == [] then s else Exec(Do(s, actions[0], retries), actions[1..], retries)
  }

  /** The forced drain finds the head already waiting for an acknowledgement. */
  predicate Collides(s: State, a: Action) {
    a == ForceDrain && Sends(s, true) && s.entries[s.queue[0]].pending
  }

  /** No forced drain in the run meets a pending head. */
  predicate Gentle(s: State, actions: seq<Action>, retries: nat)
    decreases |actions|
  {
    actions == [] || (!Collides(s, actions[0]) && Gentle(Do(s, actions[0], retries), actions[1..], retries))
  }

  // ------------------------------------------------------------------------------------------
  // The invariant
  // ------------------------------------------------------------------------------------------

  /** The goroutine holds an emission of its packet, or has not yet finished with its outcome. */
  predicate Holds(s: State, t: nat, p: PacketId) {
    t in s.threads && s.threads[t].packet == p && s.threads[t].pc != MustDrain
  }

  predicate Queued(s: State, p: PacketId) {
    |s.gone| <= p < |s.appended|
  }

  /** Packets are numbered in the order they are queued, so gone, queue and appended are ranges. */
  ghost predicate Ordered(s: State) {
    && |s.gone| <= |s.appended|
    && s.appended == Range(0, |s.appended|)
    && s.gone == Range(0, |s.gone|)
    && s.queue == Range(|s.gone|, |s.appended|)
    && (forall p: nat :: p in s.entries <==> p < |s.appended|)
  }

  /** A packet still in the queue: untouched unless it is the head, and pending exactly while a goroutine holds it. */
  ghost predicate QueuedOk(s: State, p: PacketId, retries: nat)
    requires p in s.entries
  {
    var e := s.entries[p];
    && e.acks == 0
    && (p > |s.gone| ==> e.tryCount == 0 && !e.pending)
    && (!e.pending ==> e.tryCount <= retries && forall t :: !Holds(s, t, p))
    && (e.pending ==> 1 <= e.tryCount <= retries + 1 && exists t :: Holds(s, t, p))
  }

  /** A packet that has left: its callback has run, or is about to, once. */
  ghost predicate GoneOk(s: State, p: PacketId, retries: nat)
    requires p in s.entries
  {
    var e := s.entries[p];
    && 1 <= e.tryCount <= retries + 1
    && e.acks <= 1
    && (e.acks == 0 ==> exists t :: Holds(s, t, p) && s.threads[t].pc == MustAck)
  }

  ghost predicate ThreadOk(s: State, t: nat, retries: nat)
    requires t in s.threads
  {
    var th := s.threads[t];
    && t < s.nextThread
    && (th.pc != MustDrain ==>
          && th.packet in s.entries
          && (th.pc == MustAck ==> !Queued(s, th.packet) && s.entries[th.packet].acks == 0)
          && (th.pc == MustClear && Queued(s, th.packet) ==> s.entries[th.packet].tryCount <= retries)
          && (th.pc == MustClear && !Queued(s, th.packet) ==> s.entries[th.packet].acks == 1)
          && (th.pc in {Emitted, CheckTries, MustPop} ==> Queued(s, th.packet)))
  }

  /** No two goroutines hold the same packet. */
  ghost predicate Single(s: State) {
    forall t, u, p | Holds(s, t, p) && Holds(s, u, p) :: t == u
  }

  ghost predicate Inv(s: State, retries: nat) {
    && Ordered(s)
    && Single(s)
    && (forall p | p in s.entries && Queued(s, p) :: QueuedOk(s, p, retries))
    && (forall p | p in s.entries && !Queued(s, p) :: GoneOk(s, p, retries))
    && (forall t | t in s.threads :: ThreadOk(s, t, retries))
  }

  /** Only the head is ever held, and only while it is pending. */
  lemma HeldIsHead(s: State, t: nat, retries: nat)
    requires Inv(s, retries) && t in s.threads && s.threads[t].pc != MustDrain && Queued(s, s.threads[t].packet)
    ensures var p := s.threads[t].packet;
            p == |s.gone| && s.queue != [] && s.queue[0] == p && p in s.entries && s.entries[p].pending
  {
    var p := s.threads[t].packet;
    assert ThreadOk(s, t, retries);
    assert Holds(s, t, p);
    assert QueuedOk(s, p, retries);
  }

  /** The goroutines that hold packets, and the packets, are the same in both states except for packet p. */
  ghost predicate SameBut(s: State, s': State, p: PacketId) {
    && s'.gone == s.gone && s'.appended == s.appended && s'.queue == s.queue && s'.entries.Keys == s.entries.Keys
    && (forall q | q in s.entries && q != p :: s'.entries[q] == s.entries[q])
    && (forall t, q | q != p :: Holds(s', t, q) <==> Holds(s, t, q))
    && (forall t, q | q != p && Holds(s, t, q) :: s'.threads[t] == s.threads[t])
  }

  lemma OthersKeepInv(s: State, s': State, p: PacketId, q: PacketId, retries: nat)
    requires Inv(s, retries) && SameBut(s, s', p) && q != p && q in s.entries
    ensures Queued(s, q) ==> QueuedOk(s', q, retries)
    ensures !Queued(s, q) ==> GoneOk(s', q, retries)
  {
    if Queued(s, q) {
      assert QueuedOk(s, q, retries);
      if s.entries[q].pending {
        var t :| Holds(s, t, q);
        assert Holds(s', t, q);
      }
    } else {
      assert GoneOk(s, q, retries);
      if s.entries[q].acks == 0 {
        var t :| Holds(s, t, q) && s.threads[t].pc == MustAck;
        assert Holds(s', t, q) && s'.threads[t].pc == MustAck;
      }
    }
  }

  lemma EnqueueKeepsInv(s: State, retries: nat)
    requires Inv(s, retries)
    ensures Inv(Do(s, Enqueue, retries), retries)
  {
    var s' := Do(s, Enqueue, retries);
    var n := |s.appended|;
    assert s.nextThread !in s.threads;
    assert forall t, q :: Holds(s', t, q) <==> Holds(s, t, q);
    forall q | q in s'.entries && Queued(s', q) ensures QueuedOk(s', q, retries) {
      if q == n {
        forall t ensures !Holds(s', t, n) {
          assert Holds(s', t, n) <==> Holds(s, t, n);
        }
      } else {
        assert QueuedOk(s, q, retries);
        if s.entries[q].pending {
          var t :| Holds(s, t, q);
          assert Holds(s', t, q);
        }
      }
    }
    forall q | q in s'.entries && !Queued(s', q) ensures GoneOk(s', q, retries) {
      assert GoneOk(s, q, retries);
      if s.entries[q].acks == 0 {
        var t :| Holds(s, t, q) && s.threads[t].pc == MustAck;
        assert Holds(s', t, q);
      }
    }
    forall t | t in s'.threads ensures ThreadOk(s', t, retries) {
      if t != s.nextThread { assert ThreadOk(s, t, retries); }
    }
  }

  lemma DrainKeepsInv(s: State, force: bool, retries: nat)
    requires Inv(s, retries) && Sends(s, force) && !s.entries[s.queue[0]].pending
    ensures Inv(DrainQueue(s, force), retries)
  {
    var s' := DrainQueue(s, force);
    var h, n := s.queue[0], s.nextThread;
    assert h == |s.gone| && QueuedOk(s, h, retries);
    assert n !in s.threads;
    assert Holds(s', n, h);
    forall t, q ensures Holds(s', t, q) <==> Holds(s, t, q) || (t == n && q == h) {
    }
    assert SameBut(s, s', h);
    forall q | q in s'.entries && q != h
      ensures Queued(s', q) ==> QueuedOk(s', q, retries)
      ensures !Queued(s', q) ==> GoneOk(s', q, retries) {
      OthersKeepInv(s, s', h, q, retries);
    }
    assert QueuedOk(s', h, retries);
    forall t | t in s'.threads ensures ThreadOk(s', t, retries) {
      if t != n {
        assert ThreadOk(s, t, retries);
        assert s.threads[t].pc != MustDrain ==> Holds(s, t, s.threads[t].packet);
      }
    }
  }

  /** A goroutine that only has to drain holds nothing. */
  lemma RemoveDrainer(s: State, t: nat, retries: nat)
    requires Inv(s, retries) && At(s, t, MustDrain)
    ensures Inv(s.(threads := s.threads - {t}), retries)
  {
    var s' := s.(threads := s.threads - {t});
    assert forall u, q :: Holds(s', u, q) <==> Holds(s, u, q);
    var none := |s.appended|;
    assert SameBut(s, s', none);
    forall q | q in s'.entries
      ensures Queued(s', q) ==> QueuedOk(s', q, retries)
      ensures !Queued(s', q) ==> GoneOk(s', q, retries) {
      OthersKeepInv(s, s', none, q, retries);
    }
    forall u | u in s'.threads ensures ThreadOk(s', u, retries) {
      assert ThreadOk(s, u, retries);
    }
  }

  /** The steps of the replacement ack that keep the packet where it is. */
  lemma GotoKeepsInv(s: State, t: nat, pc: Pc, retries: nat)
    requires Inv(s, retries) && (At(s, t, Emitted) || At(s, t, CheckTries))
    requires pc in {CheckTries, MustPop, MustClear}
    requires pc == MustClear ==> s.entries[s.threads[t].packet].tryCount <= retries
    ensures Inv(Goto(s, t, pc), retries)
  {
    var s' := Goto(s, t, pc);
    var p := s.threads[t].packet;
    assert ThreadOk(s, t, retries);
    assert Holds(s', t, p);
    assert forall u, q :: Holds(s', u, q) <==> Holds(s, u, q);
    assert SameBut(s, s', p);
    assert QueuedOk(s, p, retries);
    forall q | q in s'.entries
      ensures Queued(s', q) ==> QueuedOk(s', q, retries)
      ensures !Queued(s', q) ==> GoneOk(s', q, retries) {
      if q != p { OthersKeepInv(s, s', p, q, retries); }
    }
    forall u | u in s'.threads ensures ThreadOk(s', u, retries) {
      assert ThreadOk(s, u, retries);
    }
  }

  lemma PopKeepsInv(s: State, t: nat, retries: nat)
    requires Inv(s, retries) && Enabled(s, Pop(t))
    ensures Inv(Do(s, Pop(t), retries), retries)
    ensures s.queue[0] == s.threads[t].packet
  {
    var s' := Do(s, Pop(t), retries);
    var p := s.threads[t].packet;
    assert ThreadOk(s, t, retries);
    HeldIsHead(s, t, retries);
    assert QueuedOk(s, p, retries);
    assert Holds(s, t, p) && Holds(s', t, p) && s'.threads[t].pc == MustAck;
    assert forall u, q :: Holds(s', u, q) <==> Holds(s, u, q);
    assert s'.queue == Range(|s'.gone|, |s'.appended|) && s'.gone == Range(0, |s'.gone|);
    forall q | q in s'.entries && Queued(s', q) ensures QueuedOk(s', q, retries) {
      assert QueuedOk(s, q, retries);
    }
    forall q | q in s'.entries && !Queued(s', q) ensures GoneOk(s', q, retries) {
      if q != p {
        assert GoneOk(s, q, retries);
        if s.entries[q].acks == 0 {
          var u :| Holds(s, u, q) && s.threads[u].pc == MustAck;
          assert Holds(s', u, q) && s'.threads[u].pc == MustAck;
        }
      }
    }
    forall u | u in s'.threads ensures ThreadOk(s', u, retries) {
      assert ThreadOk(s, u, retries);
      assert Holds(s, u, p) ==> u == t;
    }
  }

  lemma RunAckKeepsInv(s: State, t: nat, retries: nat)
    requires Inv(s, retries) && Enabled(s, RunAck(t))
    ensures Inv(Do(s, RunAck(t), retries), retries)
  {
    var s' := Do(s, RunAck(t), retries);
    var p := s.threads[t].packet;
    assert ThreadOk(s, t, retries) && GoneOk(s, p, retries) && Holds(s, t, p);
    assert forall u, q :: Holds(s', u, q) <==> Holds(s, u, q);
    assert forall u, q | q != p && Holds(s, u, q) :: u != t;
    assert SameBut(s, s', p);
    forall q | q in s'.entries
      ensures Queued(s', q) ==> QueuedOk(s', q, retries)
      ensures !Queued(s', q) ==> GoneOk(s', q, retries) {
      if q != p { OthersKeepInv(s, s', p, q, retries); }
    }
    forall u | u in s'.threads ensures ThreadOk(s', u, retries) {
      assert ThreadOk(s, u, retries);
      assert Holds(s, u, p) ==> u == t;
    }
  }

  lemma ClearKeepsInv(s: State, t: nat, retries: nat)
    requires Inv(s, retries) && Enabled(s, Clear(t))
    ensures Inv(Do(s, Clear(t), retries), retries)
  {
    var s' := Do(s, Clear(t), retries);
    var p := s.threads[t].packet;
    assert ThreadOk(s, t, retries) && Holds(s, t, p);
    forall u, q ensures Holds(s', u, q) <==> Holds(s, u, q) && u != t {
      if Holds(s, u, q) && u != t { assert s'.threads[u] == s.threads[u]; }
    }
    assert forall u, q | q != p && Holds(s, u, q) :: u != t;
    assert SameBut(s, s', p);
    assert forall u :: !Holds(s', u, p);
    forall q | q in s'.entries
      ensures Queued(s', q) ==> QueuedOk(s', q, retries)
      ensures !Queued(s', q) ==> GoneOk(s', q, retries) {
      if q != p {
        OthersKeepInv(s, s', p, q, retries);
      } else if Queued(s, p) {
        assert QueuedOk(s, p, retries);
      } else {
        assert GoneOk(s, p, retries);
      }
    }
    forall u | u in s'.threads ensures ThreadOk(s', u, retries) {
      assert ThreadOk(s, u, retries);
    }
  }

  /** Every action that is not a colliding forced drain keeps the invariant. */
  lemma DoKeepsInv(s: State, a: Action, retries: nat)
    requires Inv(s, retries) && !Collides(s, a)
    ensures Inv(Do(s, a, retries), retries)
  {
    if Enabled(s, a) {
      match a
      case SetConnected(up) => ReconnectKeepsInv(s, up, retries);
      case Enqueue => EnqueueKeepsInv(s, retries);
      case Outcome(t, ok) => GotoKeepsInv(s, t, if ok then MustPop else CheckTries, retries);
      case Check(t) =>
        GotoKeepsInv(s, t, if s.entries[s.threads[t].packet].tryCount > retries then MustPop else MustClear, retries);
      case Pop(t) => PopKeepsInv(s, t, retries);
      case RunAck(t) => RunAckKeepsInv(s, t, retries);
      case Clear(t) => ClearKeepsInv(s, t, retries);
      case Drain(t) =>
        var s1 := s.(threads := s.threads - {t});
        RemoveDrainer(s, t, retries);
        if Sends(s1, false) { DrainKeepsInv(s1, false, retries); }
      case ForceDrain =>
        if Sends(s, true) { DrainKeepsInv(s, true, retries); }
    }
  }

  lemma ReconnectKeepsInv(s: State, up: bool, retries: nat)
    requires Inv(s, retries)
    ensures Inv(s.(connected := up), retries)
  {
    var s' := s.(connected := up);
    assert forall u, q :: Holds(s', u, q) <==> Holds(s, u, q);
    var none := |s.appended|;
    assert SameBut(s, s', none);
    forall q | q in s'.entries
      ensures Queued(s', q) ==> QueuedOk(s', q, retries)
      ensures !Queued(s', q) ==> GoneOk(s', q, retries) {
      OthersKeepInv(s, s', none, q, retries);
    }
    forall u | u in s'.threads ensures ThreadOk(s', u, retries) {
      assert ThreadOk(s, u, retries);
    }
  }

  lemma {:induction false} ExecKeepsInv(s: State, actions: seq<Action>, retries: nat)
    requires Inv(s, retries) && Gentle(s, actions, retries)
    ensures Inv(Exec(s, actions, retries), retries)
    decreases |actions|
  {
    if actions != [] {
      DoKeepsInv(s, actions[0], retries);
      ExecKeepsInv(Do(s, actions[0], retries), actions[1..], retries);
    }
  }
}
