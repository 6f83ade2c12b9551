/**
 * What a returning client is sent: the replay encodes the logged header and arguments again (server_socket.go), after
 * the live delivery has overwritten them.
 */
module ReplayedFrames {
  import opened Prelude
  import opened RoomIndex
  import opened ValueTree
  import opened Deconstruct
  import opened Codec
  import Recovery = SessionRecovery
  import SocketHeader

  /** A logged broadcast as the encoder gets it: a pointer to its argument list. */
  function MessageOf(p: Recovery.Packet): Message {
    Message(p.header, Ptr(Slice(p.args)), [], [])
  }

  /** The live delivery could encode the broadcast; otherwise it panics. */
  predicate Encodes(p: Recovery.Packet, max: int, marshal: Marshaller) {
    p.header.ptype == SocketHeader.Event && EncodeSpec(p.header, Some(MessageOf(p).v), max, marshal).Ok?
  }

  /** The frames of the live delivery, and of a replay after it. */
  function Live(p: Recovery.Packet, max: int, marshal: Marshaller): seq<Bytes>
    requires Encodes(p, max, marshal)
  {
    WireOf(MessageOf(p), max, marshal).frames
  }

  function Replayed(p: Recovery.Packet, max: int, marshal: Marshaller): seq<Bytes>
    requires Encodes(p, max, marshal)
  {
    var e := WireOf(MessageOf(p), max, marshal);
    match AgainOf(e, max, marshal)
    case Ok(again) => again.frames
    case Err(_) => []
  }

  predicate CarriesBinary(p: Recovery.Packet) {
    HasBinary(MessageOf(p).v)
  }

  /** A replay repeats the live frames if and only if the broadcast carries no binary data. */
  lemma ReplayedExactly(p: Recovery.Packet, max: int, marshal: Marshaller)
    requires Encodes(p, max, marshal)
    ensures Replayed(p, max, marshal) == Live(p, max, marshal) <==> !CarriesBinary(p)
    ensures CarriesBinary(p) ==> Replayed(p, max, marshal) == [Live(p, max, marshal)[0]]
  {
    EncodedAgain(MessageOf(p), max, marshal);
  }

  predicate AllEncode(ps: seq<Recovery.Packet>, max: int, marshal: Marshaller) {
    forall i | 0 <= i < |ps| :: Encodes(ps[i], max, marshal)
  }

  function Map<A, B>(f: A -> B, xs: seq<A>): (ys: seq<B>)
    ensures |ys| == |xs| && forall i | 0 <= i < |xs| :: ys[i] == f(xs[i])
  {
    if xs == [] then [] else [f(xs[0])] + Map(f, xs[1..])
  }

  lemma MapAppend<A, B>(f: A -> B, xs: seq<A>, ys: seq<A>)
    ensures Map(f, xs + ys) == Map(f, xs) + Map(f, ys)
  {
    assert forall i | 0 <= i < |xs| :: (xs + ys)[i] == xs[i];
    assert forall i | 0 <= i < |ys| :: (xs + ys)[|xs| + i] == ys[i];
  }

  lemma MapSame<A, B>(f: A -> B, g: A -> B, xs: seq<A>)
    ensures Map(f, xs) == Map(g, xs) <==> forall i | 0 <= i < |xs| :: f(xs[i]) == g(xs[i])
  {
    if Map(f, xs) == Map(g, xs) {
      forall i | 0 <= i < |xs| ensures f(xs[i]) == g(xs[i]) {
        assert Map(f, xs)[i] == Map(g, xs)[i];
      }
    }
  }

  function LiveBy(max: int, marshal: Marshaller): Recovery.Packet -> seq<Bytes> {
    (p: Recovery.Packet) => if Encodes(p, max, marshal) then Live(p, max, marshal) else []
  }

  function ReplayedBy(max: int, marshal: Marshaller): Recovery.Packet -> seq<Bytes> {
    (p: Recovery.Packet) => if Encodes(p, max, marshal) then Replayed(p, max, marshal) else []
  }

  lemma AllReplayedExactly(ps: seq<Recovery.Packet>, max: int, marshal: Marshaller)
    requires AllEncode(ps, max, marshal)
    ensures Map(ReplayedBy(max, marshal), ps) == Map(LiveBy(max, marshal), ps)
       <==> forall p | p in ps :: !CarriesBinary(p)
  {
    var live, again := LiveBy(max, marshal), ReplayedBy(max, marshal);
    forall i | 0 <= i < |ps| ensures again(ps[i]) == live(ps[i]) <==> !CarriesBinary(ps[i]) {
      ReplayedExactly(ps[i], max, marshal);
    }
    MapSame(again, live, ps);
  }

  lemma SameTail<T>(a: seq<T>, b: seq<T>, c: seq<T>)
    ensures a + b == a + c <==> b == c
  {
    assert (a + b)[|a|..] == b && (a + c)[|a|..] == c;
  }

  /**
   * Recovery as the client sees it, over every run in which no live delivery overtakes another and wherever the
   * connection is lost: the frames of what it had received followed by the frames of the replay are the frames of
   * everything meant for it, if and only if none of the replayed broadcasts carries binary data.
   */
  lemma RecoveredFrames(s: Recovery.State, me: Sid, mine: set<Room>, actions: seq<Recovery.Action>, k: nat,
                        max: int, marshal: Marshaller)
    requires Recovery.Joined(s, me, mine) && Recovery.InOrder(s, me, mine, actions)
    requires 1 <= k <= |Recovery.Exec(s, me, actions).sent|
    requires AllEncode(Recovery.Meant(s, mine, actions), max, marshal)
    ensures var t := Recovery.Exec(s, me, actions);
            var missed := Recovery.Missed(t.log, t.sent[k - 1].id, mine);
            && missed.Some?
            && (Map(LiveBy(max, marshal), t.sent[..k]) + Map(ReplayedBy(max, marshal), missed.value)
                  == Map(LiveBy(max, marshal), Recovery.Meant(s, mine, actions))
                <==> forall p | p in missed.value :: !CarriesBinary(p))
  {
    var t := Recovery.Exec(s, me, actions);
    Recovery.RecoveryIsExact(s, me, mine, actions);
    assert Recovery.ExactAt(t.log, mine, t.sent, k, Recovery.Meant(s, mine, actions));
    FramesAt(t.sent[..k], Recovery.Missed(t.log, t.sent[k - 1].id, mine).value, max, marshal);
  }

  lemma FramesAt(held: seq<Recovery.Packet>, missed: seq<Recovery.Packet>, max: int, marshal: Marshaller)
    requires AllEncode(held + missed, max, marshal)
    ensures Map(LiveBy(max, marshal), held) + Map(ReplayedBy(max, marshal), missed)
              == Map(LiveBy(max, marshal), held + missed)
       <==> forall p | p in missed :: !CarriesBinary(p)
  {
    var live, again := LiveBy(max, marshal), ReplayedBy(max, marshal);
    assert AllEncode(missed, max, marshal) by {
      assert forall i | 0 <= i < |missed| :: (held + missed)[|held| + i] == missed[i];
    }
    MapAppend(live, held, missed);
    AllReplayedExactly(missed, max, marshal);
    SameTail(Map(live, held), Map(again, missed), Map(live, missed));
  }
}
