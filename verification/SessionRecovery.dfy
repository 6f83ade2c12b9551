/**
 * Connection state recovery (adapter/adapter_session_aware.go): the log of broadcast packets, the
 * sessions saved on disconnection, and the replay of what a returning client missed.
 */
module SessionRecovery {
  import opened Prelude
  import opened RoomIndex
  import opened SocketHeader
  import opened ValueTree

  type Pid = string

  /** A broadcast as it is logged: header and arguments are the ones that the live delivery encodes. */
  datatype Packet = Packet(id: string, opts: Options, header: Header, args: seq<Value>)

  datatype Session = Session(sid: Sid, pid: Pid, rooms: seq<Room>)

  datatype Restored = Restored(session: Session, missed: seq<Packet>)

  /** The packets a socket in the rooms `mine` is meant to get. */
  function For(mine: set<Room>): Packet -> bool {
    (p: Packet) => Includes(mine, p.opts)
  }

  /** The position of the first packet with the given ID, or the length of the log. */
  function Find(log: seq<Packet>, id: string): (i: nat)
    ensures i <= |log|
    ensures i < |log| ==> log[i].id == id
    ensures forall j | 0 <= j < i :: log[j].id != id
  {
    if log == [] || log[0].id == id then 0 else 1 + Find(log[1..], id)
  }

  function Missed(log: seq<Packet>, offset: string, mine: set<Room>): Option<seq<Packet>> {
    var i := Find(log, offset);
    if i == |log| then None else Some(Filter(For(mine), log[i + 1..]))
  }

  class SessionAdapter {
    var sessions: map<Pid, Session>
    var packets: seq<Packet>

    constructor ()
      ensures sessions == map[] && packets == []
    {
      sessions, packets := map[], [];
    }

    /** The part of Broadcast before the live delivery; `id` comes from the ID generator. */
    method Log(header: Header, v: seq<Value>, opts: Options, id: string) returns (args: seq<Value>)
      modifies this`packets
      ensures header.ptype == Event && header.id == None ==>
                args == v + [Box(Scalar(Text(id)))] && packets == old(packets) + [Packet(id, opts, header, args)]
      ensures !(header.ptype == Event && header.id == None) ==> args == v && packets == old(packets)
    {
      args := v;
      if header.ptype == Event && header.id == None {
        args := v + [Box(Scalar(Text(id)))];
        packets := packets + [Packet(id, opts, header, args)];
      }
    }

    method PersistSession(session: Session)
      modifies this`sessions
      ensures sessions == old(sessions)[session.pid := session]
    {
      sessions := sessions[session.pid := session];
    }

    /** RestoreSession; whether the saved session has expired is an input. */
    method RestoreSession(pid: Pid, offset: string, expired: bool) returns (r: Option<Restored>)
      modifies this`sessions
      ensures sessions == if pid in old(sessions) && expired then old(sessions) - {pid} else old(sessions)
      ensures r.Some? <==> pid in old(sessions) && !expired && exists i | 0 <= i < |packets| :: packets[i].id == offset
      ensures r.Some? ==> r.value.session == old(sessions)[pid]
                          && Missed(packets, offset, RoomSet(r.value.session.rooms)) == Some(r.value.missed)
    {
      if pid !in sessions {
        return None;
      }
      var session := sessions[pid];
      if expired {
        sessions := sessions - {pid};
        return None;
      }
      var index := FindPacket(packets, offset);
      if index == -1 {
        return None;
      }
      var missed := Replay(packets, index, session.rooms);
      return Some(Restored(session, missed));
    }
  }

  method FindPacket(packets: seq<Packet>, offset: string) returns (index: int)
    ensures index == -1 <==> forall i | 0 <= i < |packets| :: packets[i].id != offset
    ensures index != -1 ==> index == Find(packets, offset) < |packets|
  {
    for i := 0 to |packets|
      invariant forall j | 0 <= j < i :: packets[j].id != offset
    {
      if packets[i].id == offset {
        return i;
      }
    }
    return -1;
  }

  method Replay(packets: seq<Packet>, index: nat, rooms: seq<Room>) returns (missed: seq<Packet>)
    requires index < |packets|
    ensures missed == Filter(For(RoomSet(rooms)), packets[index + 1..])
  {
    missed := [];
    ghost var wanted := For(RoomSet(rooms));
    for i := index + 1 to |packets|
      invariant missed == Filter(wanted, packets[index + 1..i])
    {
      var packet := packets[i];
      var ok := ShouldIncludePacket(rooms, packet.opts);
      assert packets[index + 1..i + 1] == packets[index + 1..i] + [packet];
      FilterAppend(wanted, packets[index + 1..i], [packet]);
      if ok {
        missed := missed + [packet];
      }
    }
    assert packets[index + 1..|packets|] == packets[index + 1..];
  }

  // ------------------------------------------------------------------------------------------
  // A socket's life: joins, broadcasts, a lost connection, a recovery
  // ------------------------------------------------------------------------------------------

  datatype State = State(
    sids: SidMap,              // the live index
    store: set<Sid>,
    log: seq<Packet>,          // a.packets
    inFlight: seq<Packet>,     // broadcasts logged whose live delivery has not happened yet
    sent: seq<Packet>,         // what the server has sent to our socket
    received: nat,             // how many of those have reached the client
    saved: Option<seq<Room>>)  // the rooms of our persisted session

  datatype Action =
    | Others(sids: SidMap, store: set<Sid>)  // any change to the index that is not about our socket
    | Append(packet: Packet)                 // Broadcast: log the packet
    | Deliver(which: nat)                    // Broadcast: the live delivery of a logged packet
    | Arrive                                 // the network hands the client its next packet
    | Persist(rooms: seq<Room>)              // onClose: save the session
    | Leave                                  // onClose: leave every room, and the namespace

  ghost predicate Fresh(log: seq<Packet>, id: string) {
    forall i | 0 <= i < |log| :: log[i].id != id
  }

  /** A broadcast reaches our socket when it is a live target at that moment. */
  ghost function Send(s: State, me: Sid, p: Packet): seq<Packet> {
    if Targeted(s.sids, s.store, p.opts, me) then s.sent + [p] else s.sent
  }

  ghost predicate Enabled(s: State, me: Sid, a: Action) {
    match a
    case Others(sids, store) =>
      (me in sids <==> me in s.sids) && (me in sids ==> sids[me] == s.sids[me]) && (me in store <==> me in s.store)
    case Append(p) => Fresh(s.log, p.id)
    case Deliver(i) => i < |s.inFlight|
    case Arrive => s.received < |s.sent|
    case Persist(rooms) => me in s.sids && RoomSet(rooms) == s.sids[me]
    case Leave => true
  }

  ghost function Do(s: State, me: Sid, a: Action): State {
    if !Enabled(s, me, a) then s
    else match a
      case Others(sids, store) => s.(sids := sids, store := store)
      case Append(p) => s.(log := s.log + [p], inFlight := s.inFlight + [p])
      case Deliver(i) =>
        s.(sent := Send(s, me, s.inFlight[i]), inFlight := TakenOut(s.inFlight, i))
      case Arrive => s.(received := s.received + 1)
      case Persist(rooms) => s.(saved := Some(rooms))
      case Leave => s.(sids := s.sids - {me}, store := s.store - {me})
  }

  ghost function Exec(s: State, me: Sid, actions: seq<Action>): State
    decreases |actions|
  {
    if actions == [] then s else Exec(Do(s, me, actions[0]), me, actions[1..])
  }

  /**
   * The live delivery of a packet meant for our socket overtakes another one: the log's lock is released before the
   * delivery, so two broadcasts may be delivered in either order.
   */
  ghost predicate Overtakes(s: State, me: Sid, mine: set<Room>, a: Action) {
    && a.Deliver? && Enabled(s, me, a) && me in s.sids
    && For(mine)(s.inFlight[a.which])
    && exists j | 0 <= j < a.which :: For(mine)(s.inFlight[j])
  }

  /** No delivery of the run overtakes another. */
  ghost predicate InOrder(s: State, me: Sid, mine: set<Room>, actions: seq<Action>)
    decreases |actions|
  {
    actions == [] ||
    (!Overtakes(s, me, mine, actions[0]) && InOrder(Do(s, me, actions[0]), me, mine, actions[1..]))
  }

  /** Our socket has just joined its rooms; earlier broadcasts are in the log. */
  ghost predicate Joined(s: State, me: Sid, mine: set<Room>) {
    && me in s.sids && s.sids[me] == mine && me in s.store
    && s.inFlight == [] && s.sent == [] && s.received == 0 && s.saved == None
    && DistinctIds(s.log)
  }

  ghost predicate DistinctIds(log: seq<Packet>) {
    forall i, j | 0 <= i < j < |log| :: log[i].id != log[j].id
  }

  /** What every action keeps: our rooms, distinct packets, and no more received than sent. */
  ghost predicate Inv(s: State, me: Sid, mine: set<Room>, base: nat) {
    && base <= |s.log| && DistinctIds(s.log) && DistinctIds(s.inFlight)
    && (forall p | p in s.inFlight :: p in s.log)
    && (me in s.sids <==> me in s.store) && (me in s.sids ==> s.sids[me] == mine)
    && s.received <= |s.sent|
    && (s.saved.Some? ==> RoomSet(s.saved.value) == mine)
  }

  lemma DoKeepsInv(s: State, me: Sid, mine: set<Room>, base: nat, a: Action)
    requires Inv(s, me, mine, base)
    ensures Inv(Do(s, me, a), me, mine, base)
  {
    if Enabled(s, me, a) {
      if a.Deliver? {
        Removed(s.inFlight, a.which);
      } else if a.Append? {
        forall i | 0 <= i < |s.inFlight| ensures s.inFlight[i].id != a.packet.id {
          assert s.inFlight[i] in s.log;
        }
      }
    }
  }

  /** Taking one packet out leaves distinct packets of the same collection. */
  lemma Removed(ps: seq<Packet>, i: nat)
    requires DistinctIds(ps) && i < |ps|
    ensures DistinctIds(TakenOut(ps, i))
    ensures forall p | p in TakenOut(ps, i) :: p in ps
  {
  }

  lemma {:induction false} ExecKeepsInv(s: State, me: Sid, mine: set<Room>, base: nat, actions: seq<Action>)
    requires Inv(s, me, mine, base)
    ensures Inv(Exec(s, me, actions), me, mine, base)
    decreases |actions|
  {
    if actions != [] {
      DoKeepsInv(s, me, mine, base, actions[0]);
      ExecKeepsInv(Do(s, me, actions[0]), me, mine, base, actions[1..]);
    }
  }

  // ------------------------------------------------------------------------------------------
  // The order of live deliveries
  // ------------------------------------------------------------------------------------------

  /** The packets logged since our socket joined that are meant for it. */
  function Due(log: seq<Packet>, mine: set<Room>, base: nat): seq<Packet>
    requires base <= |log|
  {
    Filter(For(mine), log[base..])
  }

  /** The live deliveries so far follow the log, and what is in flight is the rest of it. */
  ghost predicate OnTrack(s: State, me: Sid, mine: set<Room>, base: nat)
    requires base <= |s.log|
  {
    && s.sent <= Due(s.log, mine, base)
    && (me in s.sids ==> s.sent + Filter(For(mine), s.inFlight) == Due(s.log, mine, base))
  }

  /** Something else was sent where the log has another packet. */
  ghost predicate Derailed(s: State, mine: set<Room>, base: nat)
    requires base <= |s.log|
  {
    exists m | 0 <= m < |s.sent| :: m < |Due(s.log, mine, base)| && s.sent[m] != Due(s.log, mine, base)[m]
  }

  lemma DueMore(log: seq<Packet>, p: Packet, mine: set<Room>, base: nat)
    requires base <= |log|
    ensures Due(log + [p], mine, base) == Due(log, mine, base) + Filter(For(mine), [p])
  {
    assert (log + [p])[base..] == log[base..] + [p];
    FilterAppend(For(mine), log[base..], [p]);
  }

  /** Nothing sent is taken back, and nothing logged. */
  lemma OnlyGrows(s: State, me: Sid, mine: set<Room>, base: nat, a: Action)
    requires base <= |s.log|
    ensures base <= |Do(s, me, a).log|
    ensures s.sent <= Do(s, me, a).sent && Due(s.log, mine, base) <= Due(Do(s, me, a).log, mine, base)
  {
    if a.Append? && Enabled(s, me, a) {
      DueMore(s.log, a.packet, mine, base);
    }
  }

  /** The first element that is kept is the first that satisfies the predicate. */
  lemma {:induction false} FilterHead<T>(p: T -> bool, xs: seq<T>, j: nat) returns (k: nat)
    requires j < |xs| && p(xs[j])
    ensures k <= j && Filter(p, xs) != [] && Filter(p, xs)[0] == xs[k]
  {
    if p(xs[0]) {
      k := 0;
    } else {
      var k' := FilterHead(p, xs[1..], j - 1);
      k := k' + 1;
    }
  }

  lemma SendsDue(s: State, me: Sid, mine: set<Room>, base: nat, i: nat)
    requires Inv(s, me, mine, base) && i < |s.inFlight|
    ensures var p := s.inFlight[i];
            Do(s, me, Deliver(i)).sent == if me in s.sids && For(mine)(p) then s.sent + [p] else s.sent
  {
    if me in s.sids {
      LiveIffReplayed(s.sids, s.store, s.inFlight[i].opts, me);
    }
  }

  function TakenOut<T>(xs: seq<T>, i: nat): seq<T>
    requires i < |xs|
  {
    xs[..i] + xs[i + 1..]
  }

  lemma TakenOutTail<T>(xs: seq<T>, i: nat)
    requires 0 < i < |xs|
    ensures TakenOut(xs, i)[0] == xs[0] && TakenOut(xs, i)[1..] == TakenOut(xs[1..], i - 1)
  {
  }

  /** Taking out an element that is not kept changes nothing. */
  lemma {:induction false} FilterTaken<T>(p: T -> bool, xs: seq<T>, i: nat)
    requires i < |xs| && !p(xs[i])
    ensures Filter(p, TakenOut(xs, i)) == Filter(p, xs)
  {
    if i == 0 {
      assert TakenOut(xs, 0) == xs[1..];
    } else {
      TakenOutTail(xs, i);
      FilterTaken(p, xs[1..], i - 1);
    }
  }

  /** Taking out the first element that is kept takes the head away. */
  lemma {:induction false} FilterTakenFirst<T>(p: T -> bool, xs: seq<T>, i: nat)
    requires i < |xs| && p(xs[i]) && forall j | 0 <= j < i :: !p(xs[j])
    ensures Filter(p, xs) == [xs[i]] + Filter(p, TakenOut(xs, i))
  {
    if i == 0 {
      assert TakenOut(xs, 0) == xs[1..];
    } else {
      TakenOutTail(xs, i);
      FilterTakenFirst(p, xs[1..], i - 1);
    }
  }

  /** A delivery that overtakes nothing keeps the socket on track. */
  lemma DeliverOnTrack(s: State, me: Sid, mine: set<Room>, base: nat, i: nat)
    requires Inv(s, me, mine, base) && OnTrack(s, me, mine, base)
    requires i < |s.inFlight| && !Overtakes(s, me, mine, Deliver(i))
    ensures OnTrack(Do(s, me, Deliver(i)), me, mine, base)
  {
    SendsDue(s, me, mine, base, i);
    if me in s.sids {
      var ps := s.inFlight;
      if For(mine)(ps[i]) {
        FilterTakenFirst(For(mine), ps, i);
        Assoc(s.sent, [ps[i]], Filter(For(mine), TakenOut(ps, i)));
      } else {
        FilterTaken(For(mine), ps, i);
      }
    }
  }

  lemma AppendOnTrack(s: State, me: Sid, mine: set<Room>, base: nat, p: Packet)
    requires Inv(s, me, mine, base) && OnTrack(s, me, mine, base) && Fresh(s.log, p.id)
    ensures OnTrack(Do(s, me, Append(p)), me, mine, base)
  {
    DueMore(s.log, p, mine, base);
    FilterAppend(For(mine), s.inFlight, [p]);
    Assoc(s.sent, Filter(For(mine), s.inFlight), Filter(For(mine), [p]));
  }

  lemma DoOnTrack(s: State, me: Sid, mine: set<Room>, base: nat, a: Action)
    requires Inv(s, me, mine, base) && OnTrack(s, me, mine, base) && !Overtakes(s, me, mine, a)
    ensures base <= |Do(s, me, a).log| && OnTrack(Do(s, me, a), me, mine, base)
  {
    if Enabled(s, me, a) {
      if a.Append? {
        AppendOnTrack(s, me, mine, base, a.packet);
      } else if a.Deliver? {
        DeliverOnTrack(s, me, mine, base, a.which);
      }
    }
  }

  /** An overtaking delivery derails it: the log has the overtaken packet in that place. */
  lemma OvertakingDerails(s: State, me: Sid, mine: set<Room>, base: nat, a: Action)
    requires Inv(s, me, mine, base) && OnTrack(s, me, mine, base) && Overtakes(s, me, mine, a)
    ensures Derailed(Do(s, me, a), mine, base)
  {
    var i, ps := a.which, s.inFlight;
    var j :| 0 <= j < i && For(mine)(ps[j]);
    var k := FilterHead(For(mine), ps, j);
    SendsDue(s, me, mine, base, i);
    var s', m := Do(s, me, a), |s.sent|;
    assert s'.sent[m] == ps[i] && Due(s'.log, mine, base)[m] == ps[k] && ps[k].id != ps[i].id;
  }

  lemma DerailedForGood(s: State, me: Sid, mine: set<Room>, base: nat, a: Action)
    requires base <= |s.log| && Derailed(s, mine, base)
    ensures base <= |Do(s, me, a).log| && Derailed(Do(s, me, a), mine, base)
  {
    OnlyGrows(s, me, mine, base, a);
    var m :| 0 <= m < |s.sent| && m < |Due(s.log, mine, base)| && s.sent[m] != Due(s.log, mine, base)[m];
    assert Do(s, me, a).sent[m] == s.sent[m];
  }

  lemma {:induction false} ExecDerailed(s: State, me: Sid, mine: set<Room>, base: nat, actions: seq<Action>)
    requires base <= |s.log| && Derailed(s, mine, base)
    ensures base <= |Exec(s, me, actions).log| && Derailed(Exec(s, me, actions), mine, base)
    decreases |actions|
  {
    if actions != [] {
      DerailedForGood(s, me, mine, base, actions[0]);
      ExecDerailed(Do(s, me, actions[0]), me, mine, base, actions[1..]);
    }
  }

  /** A run stays on track exactly when no delivery in it overtakes another. */
  lemma {:induction false} ExecOnTrack(s: State, me: Sid, mine: set<Room>, base: nat, actions: seq<Action>)
    requires Inv(s, me, mine, base) && OnTrack(s, me, mine, base)
    ensures base <= |Exec(s, me, actions).log|
    ensures InOrder(s, me, mine, actions) ==> OnTrack(Exec(s, me, actions), me, mine, base)
    ensures !InOrder(s, me, mine, actions) ==> Derailed(Exec(s, me, actions), mine, base)
    decreases |actions|
  {
    if actions != [] {
      DoKeepsInv(s, me, mine, base, actions[0]);
      if Overtakes(s, me, mine, actions[0]) {
        OvertakingDerails(s, me, mine, base, actions[0]);
        ExecDerailed(Do(s, me, actions[0]), me, mine, base, actions[1..]);
      } else {
        DoOnTrack(s, me, mine, base, actions[0]);
        ExecOnTrack(Do(s, me, actions[0]), me, mine, base, actions[1..]);
      }
    }
  }

  // ------------------------------------------------------------------------------------------
  // Recovery
  // ------------------------------------------------------------------------------------------

  /** A non-empty prefix of a filtered sequence is the filter of a prefix that ends in its last element. */
  lemma {:induction false} PrefixOfFilter<T>(p: T -> bool, xs: seq<T>, k: nat) returns (i: nat)
    requires 1 <= k <= |Filter(p, xs)|
    ensures i < |xs| && xs[i] == Filter(p, xs)[k - 1] && Filter(p, xs)[..k] == Filter(p, xs[..i + 1])
    decreases |xs|
  {
    var rest := Filter(p, xs[1..]);
    if p(xs[0]) && k == 1 {
      i := 0;
      assert xs[..1] == [xs[0]] && xs[..1][1..] == [];
      assert Filter(p, xs[..1]) == [xs[0]];
    } else {
      var d := if p(xs[0]) then 1 else 0;
      var j := PrefixOfFilter(p, xs[1..], k - d);
      i := j + 1;
      assert xs[..i + 1][0] == xs[0] && xs[..i + 1][1..] == xs[1..][..j + 1];
      assert Filter(p, xs)[..k] == (if p(xs[0]) then [xs[0]] else []) + rest[..k - d];
    }
  }

  lemma FindDistinct(log: seq<Packet>, i: nat)
    requires DistinctIds(log) && i < |log|
    ensures Find(log, log[i].id) == i
  {
  }

  /** Replay is exact precisely when the client holds everything meant for it up to its offset, in order. */
  lemma ReplayExactly(log: seq<Packet>, base: nat, i: nat, mine: set<Room>, held: seq<Packet>)
    requires DistinctIds(log) && base <= i < |log|
    ensures Missed(log, log[i].id, mine) == Some(Filter(For(mine), log[i + 1..]))
    ensures held + Filter(For(mine), log[i + 1..]) == Filter(For(mine), log[base..])
       <==> held == Filter(For(mine), log[base..i + 1])
  {
    FindDistinct(log, i);
    var before, after := Filter(For(mine), log[base..i + 1]), Filter(For(mine), log[i + 1..]);
    assert log[base..] == log[base..i + 1] + log[i + 1..];
    FilterAppend(For(mine), log[base..i + 1], log[i + 1..]);
    if held + after == before + after {
      assert |held| == |before|;
      assert held == (held + after)[..|held|] == (before + after)[..|held|] == before;
    }
  }

  /** A client that holds some of what was meant for it up to `cut`, but not nothing, misses exactly the rest. */
  lemma HeldAndReplayed(log: seq<Packet>, base: nat, cut: nat, mine: set<Room>, received: nat)
    requires DistinctIds(log) && base <= cut <= |log|
    requires 1 <= received <= |Filter(For(mine), log[base..cut])|
    ensures var held := Filter(For(mine), log[base..cut])[..received];
            var missed := Missed(log, held[received - 1].id, mine);
            missed.Some? && held + missed.value == Filter(For(mine), log[base..])
  {
    var k := PrefixOfFilter(For(mine), log[base..cut], received);
    var i := base + k;
    assert log[base..cut][..k + 1] == log[base..i + 1] && log[base..cut][k] == log[i];
    ReplayExactly(log, base, i, mine, Filter(For(mine), log[base..cut])[..received]);
  }

  /** The first k packets sent, followed by what is replayed after the last of them, are all those wanted. */
  ghost predicate ExactAt(log: seq<Packet>, mine: set<Room>, sent: seq<Packet>, k: nat, wanted: seq<Packet>)
    requires 1 <= k <= |sent|
  {
    var missed := Missed(log, sent[k - 1].id, mine);
    missed.Some? && sent[..k] + missed.value == wanted
  }

  /** Recovery is exact wherever the connection is lost, if and only if the deliveries followed the log. */
  lemma ExactEverywhere(log: seq<Packet>, base: nat, mine: set<Room>, sent: seq<Packet>, due: seq<Packet>)
    requires DistinctIds(log) && base <= |log| && due == Due(log, mine, base)
    ensures (forall k: nat | 1 <= k <= |sent| :: ExactAt(log, mine, sent, k, due)) <==> sent <= due
  {
    if sent <= due {
      forall k: nat | 1 <= k <= |sent| ensures ExactAt(log, mine, sent, k, due) {
        assert log[base..|log|] == log[base..] && sent[..k] == due[..k];
        HeldAndReplayed(log, base, |log|, mine, k);
      }
    }
    if sent != [] {
      assert sent[..|sent|] == sent;
      assert ExactAt(log, mine, sent, |sent|, due) ==> sent <= due;
    }
  }

  /** The broadcasts of a run, in order: the ID generator never gives an ID of the log again. */
  ghost function Broadcasts(log: seq<Packet>, actions: seq<Action>): seq<Packet>
    decreases |actions|
  {
    if actions == [] then []
    else if actions[0].Append? && Fresh(log, actions[0].packet.id) then
      [actions[0].packet] + Broadcasts(log + [actions[0].packet], actions[1..])
    else Broadcasts(log, actions[1..])
  }

  /** Every broadcast is logged, and nothing else is. */
  lemma {:induction false} LogIsBroadcasts(s: State, me: Sid, actions: seq<Action>)
    ensures Exec(s, me, actions).log == s.log + Broadcasts(s.log, actions)
    decreases |actions|
  {
    if actions != [] {
      var next := Do(s, me, actions[0]);
      LogIsBroadcasts(next, me, actions[1..]);
      if actions[0].Append? && Fresh(s.log, actions[0].packet.id) {
        Assoc(s.log, [actions[0].packet], Broadcasts(next.log, actions[1..]));
      }
    }
  }

  /** The broadcasts of a run that are meant for a socket in the rooms `mine`. */
  ghost function Meant(s: State, mine: set<Room>, actions: seq<Action>): seq<Packet> {
    Filter(For(mine), Broadcasts(s.log, actions))
  }

  lemma DueIsMeant(s: State, me: Sid, mine: set<Room>, actions: seq<Action>)
    ensures |s.log| <= |Exec(s, me, actions).log|
    ensures Due(Exec(s, me, actions).log, mine, |s.log|) == Meant(s, mine, actions)
  {
    LogIsBroadcasts(s, me, actions);
    assert Exec(s, me, actions).log[|s.log|..] == Broadcasts(s.log, actions);
  }

  /**
   * Exactly-once recovery, over every run: wherever the client was when the connection was lost, what it had received
   * followed by what RestoreSession replays is every broadcast of the run that is meant for the socket, once each and
   * in order, if and only if no live delivery in the run overtook another.  Without overtaking, a socket that is still
   * live has been sent each of them, except those whose delivery is still to come.
   */
  lemma RecoveryIsExact(s: State, me: Sid, mine: set<Room>, actions: seq<Action>)
    requires Joined(s, me, mine)
    ensures var t := Exec(s, me, actions);
            && t.received <= |t.sent|
            && (t.saved.Some? ==> RoomSet(t.saved.value) == mine)
            && ((forall k: nat | 1 <= k <= |t.sent| :: ExactAt(t.log, mine, t.sent, k, Meant(s, mine, actions)))
                <==> InOrder(s, me, mine, actions))
            && (InOrder(s, me, mine, actions) && me in t.sids ==>
                t.sent + Filter(For(mine), t.inFlight) == Meant(s, mine, actions))
  {
    var base, t := |s.log|, Exec(s, me, actions);
    assert s.log[base..] == [] && Inv(s, me, mine, base) && OnTrack(s, me, mine, base);
    ExecKeepsInv(s, me, mine, base, actions);
    ExecOnTrack(s, me, mine, base, actions);
    DueIsMeant(s, me, mine, actions);
    ExactEverywhere(t.log, base, mine, t.sent, Meant(s, mine, actions));
  }

  /** The session is saved in the run, by a socket that is still in its rooms. */
  ghost predicate Persisted(s: State, me: Sid, actions: seq<Action>)
    decreases |actions|
  {
    actions != [] &&
    ((actions[0].Persist? && me in s.sids && RoomSet(actions[0].rooms) == s.sids[me])
     || Persisted(Do(s, me, actions[0]), me, actions[1..]))
  }

  /** A session is there to recover exactly when it was saved before the socket left its rooms. */
  lemma {:induction false} SavedExactly(s: State, me: Sid, actions: seq<Action>)
    ensures Exec(s, me, actions).saved.Some? <==> s.saved.Some? || Persisted(s, me, actions)
    decreases |actions|
  {
    if actions != [] {
      SavedExactly(Do(s, me, actions[0]), me, actions[1..]);
    }
  }

  /** After the socket has left, nothing is sent to it any more and no session of it is saved. */
  lemma {:induction false} LeftForGood(s: State, me: Sid, actions: seq<Action>)
    requires me !in s.sids && me !in s.store
    ensures var t := Exec(s, me, actions);
            me !in t.sids && me !in t.store && t.sent == s.sent && t.saved == s.saved
    decreases |actions|
  {
    if actions != [] {
      LeftForGood(Do(s, me, actions[0]), me, actions[1..]);
    }
  }

  lemma Leaves(s: State, me: Sid, after: seq<Action>)
    ensures var t := Exec(s, me, [Action.Leave] + after);
            me !in t.sids && t.sent == s.sent && t.saved == s.saved
  {
    var leave := Action.Leave;
    assert ([leave] + after)[0] == leave && ([leave] + after)[1..] == after;
    LeftForGood(Do(s, me, leave), me, after);
  }

  lemma HeadDelivered(s: State, me: Sid, mine: set<Room>, base: nat)
    requires Inv(s, me, mine, base) && me in s.sids && s.inFlight != []
    ensures var head, rest := s.inFlight[0], s.inFlight[1..];
            Do(s, me, Deliver(0)) ==
            s.(inFlight := rest, sent := s.sent + if For(mine)(head) then [head] else [])
  {
    SendsDue(s, me, mine, base, 0);
    assert TakenOut(s.inFlight, 0) == s.inFlight[1..];
    assert s.sent + [] == s.sent;
  }

  /** A live socket is sent, in order, everything in flight that is meant for it. */
  lemma {:induction false} AllDelivered(s: State, me: Sid, mine: set<Room>, base: nat)
    requires Inv(s, me, mine, base) && me in s.sids
    ensures Exec(s, me, seq(|s.inFlight|, i => Deliver(0))) ==
            s.(inFlight := [], sent := s.sent + Filter(For(mine), s.inFlight))
    decreases |s.inFlight|
  {
    if s.inFlight != [] {
      var deliveries, next := seq(|s.inFlight|, i => Deliver(0)), Do(s, me, Deliver(0));
      var head, rest := s.inFlight[0], s.inFlight[1..];
      HeadDelivered(s, me, mine, base);
      DoKeepsInv(s, me, mine, base, Deliver(0));
      assert deliveries[0] == Deliver(0) && deliveries[1..] == seq(|next.inFlight|, i => Deliver(0));
      AllDelivered(next, me, mine, base);
      Assoc(s.sent, if For(mine)(head) then [head] else [], Filter(For(mine), rest));
    }
  }

  /** The network hands over every packet that was sent, one after the other. */
  lemma {:induction false} AllArrive(s: State, me: Sid)
    requires s.received <= |s.sent|
    ensures Exec(s, me, seq(|s.sent| - s.received, i => Arrive)) == s.(received := |s.sent|)
    decreases |s.sent| - s.received
  {
    if s.received < |s.sent| {
      var arrivals := seq(|s.sent| - s.received, i => Arrive);
      var next := s.(received := s.received + 1);
      assert arrivals[0] == Arrive && arrivals[1..] == seq(|s.sent| - next.received, i => Arrive);
      AllArrive(next, me);
    }
  }

  const ALL: Options := Options({}, {})
  const EVENT: Header := Header(Event, [], None, 0)
  const P1: Packet := Packet("1", ALL, EVENT, [])
  const P2: Packet := Packet("2", ALL, EVENT, [])

  /**
   * The failing case: two broadcasts that overlap are delivered in the order opposite to the log's, and the last
   * packet is delivered twice.
   */
  lemma OverlappingBroadcastsRepeat(me: Sid)
    ensures var s := State(map[me := {}], {me}, [], [], [], 0, None);
            var t := Exec(s, me, [Append(P1), Append(P2), Deliver(1), Deliver(0), Arrive, Arrive, Persist([])]);
            && Joined(s, me, {})
            && t.log == [P1, P2] && t.received == 2 && t.sent == [P2, P1]
            && Missed(t.log, t.sent[1].id, {}) == Some([P2])
            && !ExactAt(t.log, {}, t.sent, 2, [P1, P2])
  {
    var s := At(me, [], [], [], 0, None);
    var logged := [P1, P2];
    var states := [s,
                   At(me, [P1], [P1], [], 0, None),
                   At(me, logged, logged, [], 0, None),
                   At(me, logged, [P1], [P2], 0, None),
                   At(me, logged, [], [P2, P1], 0, None),
                   At(me, logged, [], [P2, P1], 1, None),
                   At(me, logged, [], [P2, P1], 2, None),
                   At(me, logged, [], [P2, P1], 2, Some([]))];
    var actions := [Append(P1), Append(P2), Deliver(1), Deliver(0), Arrive, Arrive, Persist([])];
    BothLogged(me);
    BothDelivered(me);
    BothReceived(me);
    ExecSteps(s, me, actions, states);
    SecondIsMissed();
  }

  /** A server with one socket, in no room. */
  function At(me: Sid, log: seq<Packet>, inFlight: seq<Packet>, sent: seq<Packet>, received: nat,
              saved: Option<seq<Room>>): State
  {
    State(map[me := {}], {me}, log, inFlight, sent, received, saved)
  }

  lemma BothLogged(me: Sid)
    ensures Do(At(me, [], [], [], 0, None), me, Append(P1)) == At(me, [P1], [P1], [], 0, None)
    ensures Do(At(me, [P1], [P1], [], 0, None), me, Append(P2)) == At(me, [P1, P2], [P1, P2], [], 0, None)
  {
    assert [] + [P1] == [P1] && [P1] + [P2] == [P1, P2];
  }

  lemma BothDelivered(me: Sid)
    ensures Do(At(me, [P1, P2], [P1, P2], [], 0, None), me, Deliver(1)) == At(me, [P1, P2], [P1], [P2], 0, None)
    ensures Do(At(me, [P1, P2], [P1], [P2], 0, None), me, Deliver(0)) == At(me, [P1, P2], [], [P2, P1], 0, None)
  {
    LiveIffReplayed(map[me := {}], {me}, ALL, me);
    assert [P1, P2][..1] + [P1, P2][2..] == [P1] && [P1][..0] + [P1][1..] == [];
    assert [] + [P2] == [P2] && [P2] + [P1] == [P2, P1];
  }

  lemma BothReceived(me: Sid)
    ensures forall k: nat | k < 2 ::
              Do(At(me, [P1, P2], [], [P2, P1], k, None), me, Arrive) == At(me, [P1, P2], [], [P2, P1], k + 1, None)
    ensures Do(At(me, [P1, P2], [], [P2, P1], 2, None), me, Persist([])) ==
            At(me, [P1, P2], [], [P2, P1], 2, Some([]))
  {
    assert RoomSet([]) == {};
  }

  lemma SecondIsMissed()
    ensures Missed([P1, P2], "1", {}) == Some([P2])
  {
    FindDistinct([P1, P2], 0);
    assert [P1, P2][1..] == [P2] && [P2][1..] == [];
    assert Filter(For({}), [P2]) == [P2];
  }

  /** A run given state by state. */
  lemma {:induction false} ExecSteps(s: State, me: Sid, actions: seq<Action>, states: seq<State>)
    requires |states| == |actions| + 1 && states[0] == s
    requires forall i | 0 <= i < |actions| :: states[i + 1] == Do(states[i], me, actions[i])
    ensures Exec(s, me, actions) == states[|actions|]
    decreases |actions|
  {
    if actions != [] {
      ExecSteps(states[1], me, actions[1..], states[1..]);
    }
  }
}
