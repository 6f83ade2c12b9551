/**
 * The in-memory adapter (adapter/adapter_memory.go): two mutually inverse maps between sockets
 * and rooms, and the loop that calls back into code which changes those maps while it runs.
 */
module RoomIndex {
  import opened Prelude

  type Room = string
  type Sid = string
  type RoomMap = map<Room, set<Sid>>
  type SidMap = map<Sid, set<Room>>

  /** BroadcastOptions: an empty `rooms` means every socket. */
  datatype Options = Options(rooms: set<Room>, except: set<Room>)

  /** Membership, read from the socket side. */
  predicate Has(sids: SidMap, s: Sid, r: Room) {
    s in sids && r in sids[s]
  }

  /** Membership, read from the room side. */
  predicate Lists(rooms: RoomMap, r: Room, s: Sid) {
    r in rooms && s in rooms[r]
  }

  function Occupants(rooms: RoomMap, r: Room): set<Sid> {
    if r in rooms then rooms[r] else {}
  }

  /** The two maps say the same, and no room is empty. */
  ghost predicate Consistent(rooms: RoomMap, sids: SidMap) {
    && (forall s, r :: Lists(rooms, r, s) <==> Has(sids, s, r))
    && (forall r | r in rooms :: rooms[r] != {})
  }

  /** a.delete: take a socket out of a room, and the room away with its last socket. */
  function Without(rooms: RoomMap, sid: Sid, room: Room): RoomMap {
    if room !in rooms then rooms
    else if rooms[room] - {sid} == {} then rooms - {room}
    else rooms[room := rooms[room] - {sid}]
  }

  lemma WithoutLists(rooms: RoomMap, sid: Sid, room: Room)
    requires forall r | r in rooms :: rooms[r] != {}
    ensures forall r, s :: Lists(Without(rooms, sid, room), r, s) <==> Lists(rooms, r, s) && !(s == sid && r == room)
    ensures forall r | r in Without(rooms, sid, room) :: Without(rooms, sid, room)[r] != {}
  {
    var rooms' := Without(rooms, sid, room);
    forall r, s ensures Lists(rooms', r, s) <==> Lists(rooms, r, s) && !(s == sid && r == room) {
      if room in rooms && r == room && s != sid && s in rooms[room] {
        assert s in rooms[room] - {sid};
      }
    }
  }

  lemma JoinOne(rooms: RoomMap, sids: SidMap, sid: Sid, room: Room)
    requires Consistent(rooms, sids) && sid in sids
    ensures var rooms' := rooms[room := Occupants(rooms, room) + {sid}];
            var sids' := sids[sid := sids[sid] + {room}];
            && Consistent(rooms', sids')
            && forall s, r :: Has(sids', s, r) <==> Has(sids, s, r) || (s == sid && r == room)
  {
    var rooms' := rooms[room := Occupants(rooms, room) + {sid}];
    var sids' := sids[sid := sids[sid] + {room}];
    forall s, r ensures Lists(rooms', r, s) <==> Has(sids', s, r) {
      assert Lists(rooms, r, s) <==> Has(sids, s, r);
    }
  }

  lemma LeaveOne(rooms: RoomMap, sids: SidMap, sid: Sid, room: Room)
    requires Consistent(rooms, sids)
    ensures var sids' := if sid in sids then sids[sid := sids[sid] - {room}] else sids;
            && Consistent(Without(rooms, sid, room), sids')
            && sids'.Keys == sids.Keys
            && forall s, r :: Has(sids', s, r) <==> Has(sids, s, r) && !(s == sid && r == room)
  {
    var sids' := if sid in sids then sids[sid := sids[sid] - {room}] else sids;
    WithoutLists(rooms, sid, room);
    forall s, r ensures Lists(Without(rooms, sid, room), r, s) <==> Has(sids', s, r) {
      assert Lists(rooms, r, s) <==> Has(sids, s, r);
    }
  }

  /** What apply does to each target: nothing visible, Join(rooms...), or Leave(room) for each room. */
  datatype Callback = Visit | Join(joined: seq<Room>) | Leave(left: seq<Room>)

  /** Membership once the callback has run for the sockets in `done`. */
  predicate Effect(before: SidMap, cb: Callback, done: set<Sid>, s: Sid, r: Room) {
    match cb
    case Visit => Has(before, s, r)
    case Join(joined) => Has(before, s, r) || (s in done && r in joined)
    case Leave(left) => Has(before, s, r) && !(s in done && r in left)
  }

  ghost predicate Applied(before: SidMap, now: SidMap, cb: Callback, done: set<Sid>) {
    now.Keys == before.Keys && forall s, r :: Has(now, s, r) <==> Effect(before, cb, done, s, r)
  }

  lemma AppliedOnceMore(before: SidMap, mid: SidMap, now: SidMap, cb: Callback, done: set<Sid>, sid: Sid)
    requires Applied(before, mid, cb, done) && Applied(mid, now, cb, {sid})
    ensures Applied(before, now, cb, done + {sid})
  {
    forall s, r ensures Has(now, s, r) <==> Effect(before, cb, done + {sid}, s, r) {
      assert Has(now, s, r) <==> Effect(mid, cb, {sid}, s, r);
      assert Has(mid, s, r) <==> Effect(before, cb, done, s, r);
    }
  }

  /** A socket the callback has not run for is still where it was. */
  lemma StillListed(before: SidMap, rooms: RoomMap, sids: SidMap, cb: Callback, done: set<Sid>, room: Room)
    requires Consistent(rooms, sids) && Applied(before, sids, cb, done)
    ensures forall s | s !in done :: Has(before, s, room) <==> s in Occupants(rooms, room)
  {
    forall s | s !in done ensures Has(before, s, room) <==> s in Occupants(rooms, room) {
      assert Has(sids, s, room) <==> Effect(before, cb, done, s, room);
      assert Lists(rooms, room, s) <==> Has(sids, s, room);
    }
  }

  /** `called` lists the sockets of `ids`, each exactly once. */
  ghost predicate Enumerates(called: seq<Sid>, ids: set<Sid>) {
    && (forall i | 0 <= i < |called| :: called[i] in ids)
    && (forall i, j | 0 <= i < j < |called| :: called[i] != called[j])
    && (forall s | s in ids :: s in called)
  }

  ghost predicate Excepted(sids: SidMap, except: set<Room>, s: Sid) {
    exists r | r in except :: Has(sids, s, r)
  }

  ghost predicate Invited(sids: SidMap, rooms: set<Room>, s: Sid) {
    rooms == {} || exists r | r in rooms :: Has(sids, s, r)
  }

  /** A live target of a broadcast: stored, indexed, in one of the rooms if any is given, and in no excepted room. */
  ghost predicate Targeted(sids: SidMap, store: set<Sid>, opts: Options, s: Sid) {
    s in sids && s in store && Invited(sids, opts.rooms, s) && !Excepted(sids, opts.except, s)
  }

  class Adapter {
    var rooms: RoomMap
    var sids: SidMap
    var store: set<Sid>  // the sockets that SocketStore.Get finds

    ghost predicate Valid()
      reads this
    {
      Consistent(rooms, sids)
    }

    constructor (store: set<Sid>)
      ensures Valid() && this.store == store && sids == map[]
    {
      rooms, sids := map[], map[];
      this.store := store;
    }

    method AddAll(sid: Sid, joined: seq<Room>)
      requires Valid()
      modifies this`rooms, this`sids
      ensures Valid()
      ensures sids.Keys == old(sids.Keys) + {sid}
      ensures forall s, r :: Has(sids, s, r) <==> Has(old(sids), s, r) || (s == sid && r in joined)
    {
      if sid !in sids {
        sids := sids[sid := {}];
        assert forall s, r :: Has(sids, s, r) <==> Has(old(sids), s, r);
      }
      for i := 0 to |joined|
        invariant Valid()
        invariant sids.Keys == old(sids.Keys) + {sid}
        invariant forall s, r :: Has(sids, s, r) <==> Has(old(sids), s, r) || (s == sid && r in joined[..i])
      {
        var room := joined[i];
        assert joined[..i + 1] == joined[..i] + [room];
        JoinOne(rooms, sids, sid, room);
        sids := sids[sid := sids[sid] + {room}];
        rooms := rooms[room := Occupants(rooms, room) + {sid}];
      }
      assert joined[..|joined|] == joined;
    }

    method DeleteFromRoom(sid: Sid, room: Room)
      modifies this`rooms
      ensures rooms == Without(old(rooms), sid, room)
    {
      if room in rooms {
        var r := rooms[room] - {sid};
        if |r| == 0 {
          rooms := rooms - {room};
        } else {
          rooms := rooms[room := r];
        }
      }
    }

    method Delete(sid: Sid, room: Room)
      requires Valid()
      modifies this`rooms, this`sids
      ensures Valid()
      ensures sids.Keys == old(sids.Keys)
      ensures forall s, r :: Has(sids, s, r) <==> Has(old(sids), s, r) && !(s == sid && r == room)
    {
      LeaveOne(rooms, sids, sid, room);
      if sid in sids {
        sids := sids[sid := sids[sid] - {room}];
      }
      DeleteFromRoom(sid, room);
    }

    method DeleteAll(sid: Sid)
      requires Valid()
      modifies this`rooms, this`sids
      ensures Valid()
      ensures sids.Keys == old(sids.Keys) - {sid}
      ensures forall s, r :: Has(sids, s, r) <==> Has(old(sids), s, r) && s != sid
    {
      if sid !in sids {
        return;
      }
      var todo := sids[sid];
      while todo != {}
        invariant sids == old(sids) && todo <= sids[sid]
        invariant forall r, s :: Lists(rooms, r, s) <==> Has(old(sids), s, r) && (s == sid ==> r in todo)
        invariant forall r | r in rooms :: rooms[r] != {}
        decreases todo
      {
        var room :| room in todo;
        WithoutLists(rooms, sid, room);
        DeleteFromRoom(sid, room);
        todo := todo - {room};
      }
      sids := sids - {sid};
      assert forall s, r :: Has(sids, s, r) <==> Has(old(sids), s, r) && s != sid;
    }

    /** The callback on one socket. */
    method Invoke(cb: Callback, sid: Sid)
      requires Valid() && sid in sids
      modifies this`rooms, this`sids
      ensures Valid() && Applied(old(sids), sids, cb, {sid})
    {
      match cb
      case Visit =>
      case Join(joined) => AddAll(sid, joined);
      case Leave(left) =>
        for i := 0 to |left|
          invariant Valid() && sids.Keys == old(sids.Keys)
          invariant forall s, r :: Has(sids, s, r) <==> Has(old(sids), s, r) && !(s == sid && r in left[..i])
        {
          assert left[..i + 1] == left[..i] + [left[i]];
          Delete(sid, left[i]);
        }
        assert left[..|left|] == left;
    }

    method ComputeExceptSids(except: set<Room>) returns (exceptSids: set<Sid>)
      requires Valid()
      ensures forall s :: s in exceptSids <==> Excepted(sids, except, s)
    {
      exceptSids := {};
      var todo := except;
      while todo != {}
        invariant todo <= except
        invariant forall s :: s in exceptSids <==> exists r | r in except - todo :: Has(sids, s, r)
        decreases todo
      {
        var room :| room in todo;
        exceptSids := exceptSids + Occupants(rooms, room);
        forall s ensures s in Occupants(rooms, room) <==> Has(sids, s, room) {
          assert Lists(rooms, room, s) <==> Has(sids, s, room);
        }
        assert except - (todo - {room}) == (except - todo) + {room};
        todo := todo - {room};
      }
      assert except - {} == except;
    }

    /**
     * r.Each over a room that the callback may grow or shrink, as Go ranges over a map: an entry
     * that is there from the start and stays is produced once, one that is removed before its turn
     * is not produced, and one that is added meanwhile may or may not be.
     */
    method VisitRoom(room: Room, exceptSids: set<Sid>, cb: Callback, ids0: set<Sid>, called0: seq<Sid>,
                     ghost before: SidMap)
      returns (ids: set<Sid>, called: seq<Sid>)
      requires Valid() && Applied(before, sids, cb, ids0) && Enumerates(called0, ids0)
      modifies this`rooms, this`sids
      ensures Valid() && Applied(before, sids, cb, ids) && Enumerates(called, ids)
      ensures ids0 <= ids
      ensures forall s | s in ids - ids0 :: Has(before, s, room) && s in store && s !in exceptSids
      ensures forall s | Has(before, s, room) && s in store && s !in exceptSids :: s in ids
    {
      ids, called := ids0, called0;
      StillListed(before, rooms, sids, cb, ids0, room);
      var start := Occupants(rooms, room);
      var produced: set<Sid> := {};
      while true
        invariant Valid() && Applied(before, sids, cb, ids) && Enumerates(called, ids)
        invariant ids0 <= ids && produced <= before.Keys
        invariant forall s | s in ids - ids0 :: Has(before, s, room) && s in store && s !in exceptSids
        invariant forall s | s in produced :: s in ids || s !in store || s in exceptSids
        decreases before.Keys - produced
      {
        StillListed(before, rooms, sids, cb, ids, room);
        var current := Occupants(rooms, room);
        var due := (start * current) - produced;
        var extra := current - start - produced;
        var skipExtra: bool := *;
        if due == {} && (extra == {} || skipExtra) {
          break;
        }
        var sid :| sid in due + extra;
        assert Lists(rooms, room, sid) && Has(sids, sid, room);
        produced := produced + {sid};
        if sid !in ids && sid !in exceptSids && sid in store {
          ids, called := InvokeNew(cb, sid, ids, called, before);
        }
      }
    }

    method InvokeNew(cb: Callback, sid: Sid, ids0: set<Sid>, called0: seq<Sid>, ghost before: SidMap)
      returns (ids: set<Sid>, called: seq<Sid>)
      requires Valid() && Applied(before, sids, cb, ids0) && Enumerates(called0, ids0) && sid in before && sid !in ids0
      modifies this`rooms, this`sids
      ensures Valid() && Applied(before, sids, cb, ids) && Enumerates(called, ids) && ids == ids0 + {sid}
    {
      ghost var mid := sids;
      Invoke(cb, sid);
      AppliedOnceMore(before, mid, sids, cb, ids0, sid);
      ids, called := ids0 + {sid}, called0 + [sid];
    }

    /** apply: `called` are the sockets the callback is given, in order. */
    method Apply(opts: Options, cb: Callback) returns (called: seq<Sid>)
      requires Valid()
      modifies this`rooms, this`sids
      ensures Valid()
      ensures exists ids: set<Sid> ::
                && (forall s :: s in ids <==> Targeted(old(sids), store, opts, s))
                && Enumerates(called, ids)
                && Applied(old(sids), sids, cb, ids)
    {
      var exceptSids := ComputeExceptSids(opts.except);
      ghost var before := sids;
      var ids: set<Sid> := {};
      called := [];
      if |opts.rooms| > 0 {
        var todo := opts.rooms;
        while todo != {}
          invariant todo <= opts.rooms
          invariant Valid() && Applied(before, sids, cb, ids) && Enumerates(called, ids)
          invariant forall s | s in ids ::
                      s in store && s !in exceptSids && exists r | r in opts.rooms :: Has(before, s, r)
          invariant forall s, r | r in opts.rooms - todo && Has(before, s, r) && s in store && s !in exceptSids ::
                      s in ids
          decreases todo
        {
          var room :| room in todo;
          ids, called := VisitRoom(room, exceptSids, cb, ids, called, before);
          todo := todo - {room};
        }
        assert opts.rooms - {} == opts.rooms;
      } else {
        var todo := sids.Keys;
        while todo != {}
          invariant todo <= sids.Keys
          invariant Valid() && Applied(before, sids, cb, ids) && Enumerates(called, ids)
          invariant forall s :: s in ids <==> s in before && s !in todo && s in store && s !in exceptSids
          decreases todo
        {
          var sid :| sid in todo;
          todo := todo - {sid};
          if sid !in exceptSids && sid in store {
            ids, called := InvokeNew(cb, sid, ids, called, before);
          }
        }
      }
      assert forall s :: s in ids <==> Targeted(before, store, opts, s);
    }

    /** AddSockets: every target joins every room, whatever the visiting order and however the rooms overlap. */
    method AddSockets(opts: Options, joined: seq<Room>)
      requires Valid()
      modifies this`rooms, this`sids
      ensures Valid() && sids.Keys == old(sids.Keys)
      ensures forall s, r :: Has(sids, s, r) <==>
                Has(old(sids), s, r) || (Targeted(old(sids), store, opts, s) && r in joined)
    {
      var called := Apply(opts, Join(joined));
    }

    /** DelSockets: every target leaves every room. */
    method DelSockets(opts: Options, left: seq<Room>)
      requires Valid()
      modifies this`rooms, this`sids
      ensures Valid() && sids.Keys == old(sids.Keys)
      ensures forall s, r :: Has(sids, s, r) <==>
                Has(old(sids), s, r) && !(Targeted(old(sids), store, opts, s) && r in left)
    {
      var called := Apply(opts, Leave(left));
    }
  }

  function RoomSet(rooms: seq<Room>): set<Room> {
    set r | r in rooms
  }

  /** shouldIncludePacket on a set of rooms (adapter/adapter_session_aware.go:140-159). */
  predicate Includes(mine: set<Room>, opts: Options) {
    (opts.rooms == {} || mine * opts.rooms != {}) && mine * opts.except == {}
  }

  /** shouldIncludePacket, with its loops, on the list of rooms a session was saved with. */
  method ShouldIncludePacket(sessionRooms: seq<Room>, opts: Options) returns (ok: bool)
    ensures ok == Includes(RoomSet(sessionRooms), opts)
  {
    ghost var mine := RoomSet(sessionRooms);
    var included := false;
    for i := 0 to |sessionRooms|
      invariant !included && forall j | 0 <= j < i :: sessionRooms[j] !in opts.rooms
    {
      if sessionRooms[i] in opts.rooms {
        assert sessionRooms[i] in mine * opts.rooms;
        included := true;
        break;
      }
    }
    assert included <==> mine * opts.rooms != {};
    included := |opts.rooms| == 0 || included;
    var notExcluded := true;
    for i := 0 to |sessionRooms|
      invariant notExcluded && forall j | 0 <= j < i :: sessionRooms[j] !in opts.except
    {
      if sessionRooms[i] in opts.except {
        assert sessionRooms[i] in mine * opts.except;
        notExcluded := false;
        break;
      }
    }
    assert notExcluded <==> mine * opts.except == {};
    return included && notExcluded;
  }

  /**
   * Live delivery and replay use the same rule: a stored, indexed socket is a target exactly when its rooms include the
   * packet.
   */
  lemma LiveIffReplayed(sids: SidMap, store: set<Sid>, opts: Options, s: Sid)
    requires s in sids && s in store
    ensures Targeted(sids, store, opts, s) <==> Includes(sids[s], opts)
  {
    if Invited(sids, opts.rooms, s) && opts.rooms != {} {
      var r :| r in opts.rooms && Has(sids, s, r);
      assert r in sids[s] * opts.rooms;
    }
    if sids[s] * opts.rooms != {} {
      var r :| r in sids[s] * opts.rooms;
      assert Has(sids, s, r);
    }
    if Excepted(sids, opts.except, s) {
      var r :| r in opts.except && Has(sids, s, r);
      assert r in sids[s] * opts.except;
    }
    if sids[s] * opts.except != {} {
      var r :| r in sids[s] * opts.except;
      assert Has(sids, s, r);
    }
  }
}
