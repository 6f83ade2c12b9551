/**
 * How a client on the polling transport cuts what it has to send into payloads
 * (engine.io/client_socket.go, writeWritablePackets).
 */
module PayloadBatching {
  import opened Prelude
  import opened EnginePacket
  import Base64

  /** What the loop adds for one packet: nothing at all when it has no data. */
  function Weight(p: Packet): nat {
    if |p.data| > 0 then EncodedLen(p, false) else 0
  }

  /** payloadSize after some packets: their weights, and one separator after each. */
  function Charge(ps: seq<Packet>): nat {
    if ps == [] then 0 else Weight(ps[0]) + 1 + Charge(ps[1..])
  }

  /** payloadSize when it is compared with maxPayload: the last packet has no separator yet. */
  function Counted(ps: seq<Packet>): nat {
    if ps == [] then 0 else Charge(ps) - 1
  }

  /** The packets without data. */
  function Empties(ps: seq<Packet>): nat {
    if ps == [] then 0 else (if |ps[0].data| > 0 then 0 else 1) + Empties(ps[1..])
  }

  lemma {:induction false} ChargeAppend(a: seq<Packet>, b: seq<Packet>)
    ensures Charge(a + b) == Charge(a) + Charge(b)
  {
    if a == [] {
      assert a + b == b;
    } else {
      assert (a + b)[1..] == a[1..] + b;
      ChargeAppend(a[1..], b);
    }
  }

  lemma CountedSnoc(a: seq<Packet>, p: Packet)
    ensures Counted(a + [p]) == Charge(a) + Weight(p)
    ensures Charge(a + [p]) == Charge(a) + Weight(p) + 1
  {
    ChargeAppend(a, [p]);
    assert Charge([p]) == Weight(p) + 1 + Charge([p][1..]);
  }

  lemma CountedPrefix(a: seq<Packet>, b: seq<Packet>)
    requires a <= b
    ensures Counted(a) <= Counted(b)
  {
    ChargeAppend(a, b[|a|..]);
    assert b == a + b[|a|..];
  }

  /** The part of a send that the size check has seen: all of the first one, all but the head of the others. */
  function Measured(send: seq<Packet>, first: bool): seq<Packet>
    requires send != []
  {
    if first then send else send[1..]
  }

  predicate Within(send: seq<Packet>, first: bool, max: int)
    requires send != []
  {
    Counted(Measured(send, first)) <= max || (first && |send| == 1)
  }

  /**
   * Each send is as long as the check lets it be: it stays within the limit, and the packet that starts the next
   * send would have broken it.
   */
  predicate Greedy(sends: seq<seq<Packet>>, first: bool, max: int) {
    sends == [] ||
    (&& sends[0] != []
     && Within(sends[0], first, max)
     && Greedy(sends[1..], false, max)
     && (|sends| > 1 ==> Counted(Measured(sends[0], first) + [sends[1][0]]) > max))
  }

  /** The packet p cannot join the last send. */
  predicate Overflows(sends: seq<seq<Packet>>, first: bool, max: int, p: Packet)
    requires sends != [] && Last(sends) != []
  {
    Counted(Measured(Last(sends), first && |sends| == 1) + [p]) > max
  }

  function Last(sends: seq<seq<Packet>>): seq<Packet>
    requires sends != []
  {
    sends[|sends| - 1]
  }

  lemma {:induction false} GreedyLast(sends: seq<seq<Packet>>, first: bool, max: int)
    requires Greedy(sends, first, max) && sends != []
    ensures Last(sends) != []
  {
    if |sends| > 1 {
      GreedyLast(sends[1..], false, max);
    }
  }

  lemma {:induction false} GreedySnoc(sends: seq<seq<Packet>>, first: bool, max: int, send: seq<Packet>)
    requires Greedy(sends, first, max) && send != []
    requires Within(send, first && sends == [], max)
    requires sends != [] ==> Last(sends) != [] && Overflows(sends, first, max, send[0])
    ensures Greedy(sends + [send], first, max)
  {
    var all := sends + [send];
    if sends == [] {
      assert all == [send] && all[1..] == [];
    } else {
      assert all[1..] == sends[1..] + [send];
      GreedySnoc(sends[1..], false, max, send);
    }
  }

  /** The packets of the send in progress that payloadSize covers. */
  function Seen(left: seq<Packet>, i: nat, first: bool): seq<Packet>
    requires i <= |left| && (!first ==> i > 0)
  {
    if first then left[..i] else left[1..i]
  }

  /** What the loop keeps: sends are done, left[..i] is in progress. */
  predicate Cutting(packets: seq<Packet>, sends: seq<seq<Packet>>, left: seq<Packet>, i: nat, max: int) {
    && left != [] && i <= |left|
    && Flatten(sends) + left == packets
    && Greedy(sends, true, max)
    && (sends != [] ==> i > 0 && Last(sends) != [] && Overflows(sends, true, max, left[0]))
    && (i > 0 ==> Within(left[..i], sends == [], max))
  }

  lemma Cut(packets: seq<Packet>, sends: seq<seq<Packet>>, left: seq<Packet>, i: nat, max: int)
    requires Cutting(packets, sends, left, i, max) && 0 < i < |left| && max > 0
    requires Counted(Seen(left, i, sends == []) + [left[i]]) > max
    ensures Cutting(packets, sends + [left[..i]], left[i..], 1, max)
  {
    assert Measured(left[..i], sends == []) == Seen(left, i, sends == []);
    GreedySnoc(sends, true, max, left[..i]);
    FlattenSnoc(sends, left[..i]);
    assert Flatten(sends) + left[..i] + left[i..] == Flatten(sends) + left;
    assert Measured(left[i..][..1], false) == [];
  }

  lemma Extend(packets: seq<Packet>, sends: seq<seq<Packet>>, left: seq<Packet>, i: nat, max: int)
    requires Cutting(packets, sends, left, i, max) && i < |left|
    requires i == 0 || Counted(Seen(left, i, sends == []) + [left[i]]) <= max
    ensures Cutting(packets, sends, left, i + 1, max)
    ensures Seen(left, i + 1, sends == []) == Seen(left, i, sends == []) + [left[i]]
  {
    assert Measured(left[..i + 1], sends == []) == Seen(left, i, sends == []) + [left[i]];
  }

  /**
   * The loop.  After a cut the index restarts at one with an empty payloadSize, so the packet that opened the new
   * send is never counted.
   */
  method CutIntoSends(packets: seq<Packet>, maxPayload: int) returns (sends: seq<seq<Packet>>)
    requires maxPayload > 0 && |packets| > 1
    ensures Flatten(sends) == packets
    ensures sends != [] && Greedy(sends, true, maxPayload)
  {
    sends := [];
    var left, i, payloadSize := packets, 0, 0;
    while i < |left|
      invariant 0 <= i && Cutting(packets, sends, left, i, maxPayload)
      invariant payloadSize == Charge(Seen(left, i, sends == []))
      decreases |left|, |left| - i
    {
      var packet := left[i];
      CountedSnoc(Seen(left, i, sends == []), packet);
      if |packet.data| > 0 {
        payloadSize := payloadSize + EncodedLen(packet, false);
      }
      if i > 0 && payloadSize > maxPayload {
        Cut(packets, sends, left, i, maxPayload);
        sends := sends + [left[..i]];
        left := left[i..];
        i, payloadSize := 1, 0;
      } else {
        Extend(packets, sends, left, i, maxPayload);
        payloadSize := payloadSize + 1;
        i := i + 1;
      }
    }
    assert left[..i] == left;
    GreedySnoc(sends, true, maxPayload, left);
    FlattenSnoc(sends, left);
    sends := sends + [left];
  }

  /** writeWritablePackets: the calls to transport.Send, in order. */
  method WriteWritablePackets(packets: seq<Packet>, maxPayload: int, polling: bool) returns (sends: seq<seq<Packet>>)
    ensures Flatten(sends) == packets
    ensures maxPayload > 0 && polling && |packets| > 1 ==> Greedy(sends, true, maxPayload)
    ensures !(maxPayload > 0 && polling && |packets| > 1) ==> sends == if packets == [] then [] else [packets]
  {
    if maxPayload > 0 && polling && |packets| > 1 {
      sends := CutIntoSends(packets, maxPayload);
    } else if |packets| > 0 {
      sends := [packets];
      assert sends[1..] == [];
    } else {
      sends := [];
    }
  }

  /** A greedy first send is not longer than another one. */
  lemma LongestFirst(a: seq<seq<Packet>>, b: seq<seq<Packet>>, first: bool, max: int)
    requires Greedy(a, first, max) && Greedy(b, first, max) && a != [] && b != []
    requires Flatten(a) == Flatten(b)
    ensures |b[0]| <= |a[0]|
  {
    if |a[0]| < |b[0]| {
      var all := Flatten(a);
      assert all == b[0] + Flatten(b[1..]) == a[0] + Flatten(a[1..]);
      assert |a| > 1;
      assert Flatten(a[1..]) == a[1] + Flatten(a[2..]) by { assert a[1..][1..] == a[2..]; }
      assert all[|a[0]|] == Flatten(a[1..])[0] == a[1][0];
      assert a[0] == all[..|a[0]|] && b[0] == all[..|b[0]|];
      assert Measured(a[0], first) + [a[1][0]] <= Measured(b[0], first);
      CountedPrefix(Measured(a[0], first) + [a[1][0]], Measured(b[0], first));
      assert false;
    }
  }

  /** The packets and the limit leave only one way to cut: the contract of the loop says exactly what it sends. */
  lemma {:induction false} OnlyOneGreedyCut(a: seq<seq<Packet>>, b: seq<seq<Packet>>, first: bool, max: int)
    requires Greedy(a, first, max) && Greedy(b, first, max)
    requires Flatten(a) == Flatten(b)
    ensures a == b
  {
    if a != [] && b != [] {
      LongestFirst(a, b, first, max);
      LongestFirst(b, a, first, max);
      assert Flatten(a) == a[0] + Flatten(a[1..]) && Flatten(b) == b[0] + Flatten(b[1..]);
      assert a[0] == Flatten(a)[..|a[0]|] && b[0] == Flatten(b)[..|b[0]|];
      assert Flatten(a[1..]) == Flatten(a)[|a[0]|..] && Flatten(b[1..]) == Flatten(b)[|b[0]|..];
      OnlyOneGreedyCut(a[1..], b[1..], false, max);
      assert a == [a[0]] + a[1..] && b == [b[0]] + b[1..];
    }
  }

  /** Everything leaves in one send if and only if the counted size is within the limit. */
  lemma OneSendExactly(packets: seq<Packet>, sends: seq<seq<Packet>>, max: int)
    requires |packets| > 1 && Flatten(sends) == packets && Greedy(sends, true, max)
    ensures sends == [packets] <==> Counted(packets) <= max
  {
    if Counted(packets) <= max {
      var one := [packets];
      assert one[1..] == [] && Flatten(one) == packets;
      OnlyOneGreedyCut(sends, one, true, max);
    }
  }

  /** The bytes of a payload: what was counted, and the packets without data. */
  lemma {:induction false} PayloadSize(ps: seq<Packet>)
    ensures |Joined(ps)| == Counted(ps) + Empties(ps)
  {
    if |ps| > 1 {
      PayloadSize(ps[1..]);
    } else if |ps| == 1 {
      assert Charge(ps[1..]) == 0 && Empties(ps[1..]) == 0 && Base64.EncodedLen(0) == 0;
    }
  }

  lemma PayloadOfTail(ps: seq<Packet>)
    requires ps != []
    ensures |Joined(ps)| <= EncodedLen(ps[0], false) + 1 + |Joined(ps[1..])|
    ensures |ps| > 1 ==> |Joined(ps)| == EncodedLen(ps[0], false) + 1 + |Joined(ps[1..])|
  {
  }

  lemma {:induction false} GreedyAt(sends: seq<seq<Packet>>, first: bool, max: int, k: nat)
    requires Greedy(sends, first, max) && k < |sends|
    ensures sends[k] != [] && Within(sends[k], first && k == 0, max)
  {
    if k > 0 {
      GreedyAt(sends[1..], false, max, k - 1);
    }
  }

  /**
   * How far a payload can go over the limit.  The first send of several packets only by its packets without data; a
   * later one also by the packet that opens it and a separator.
   */
  lemma SendsStayNear(sends: seq<seq<Packet>>, max: int, k: nat)
    requires max > 0 && Greedy(sends, true, max) && k < |sends|
    ensures sends[k] != []
    ensures k == 0 && |sends[0]| > 1 ==> |Joined(sends[0])| <= max + Empties(sends[0])
    ensures k > 0 ==> |Joined(sends[k])| <= max + Empties(sends[k][1..]) + EncodedLen(sends[k][0], false) + 1
  {
    GreedyAt(sends, true, max, k);
    PayloadSize(sends[k]);
    PayloadOfTail(sends[k]);
    PayloadSize(sends[k][1..]);
  }

  // ------------------------------------------------------------------------------------------
  // When the limit is kept
  // ------------------------------------------------------------------------------------------

  /** The cut of a loop that counts every packet: all sends are measured whole. */
  predicate GreedyFull(sends: seq<seq<Packet>>, max: int) {
    sends == [] ||
    (&& sends[0] != []
     && Within(sends[0], true, max)
     && GreedyFull(sends[1..], max)
     && (|sends| > 1 ==> Counted(sends[0] + [sends[1][0]]) > max))
  }

  /** Every send of several packets is within the limit, as the packets are counted. */
  predicate Kept(sends: seq<seq<Packet>>, max: int) {
    forall k | 0 <= k < |sends| :: Counted(sends[k]) <= max || |sends[k]| == 1
  }

  /** The same in bytes. */
  predicate KeptInBytes(sends: seq<seq<Packet>>, max: int) {
    forall k | 0 <= k < |sends| :: |Joined(sends[k])| <= max || |sends[k]| == 1
  }

  lemma CountedTail(ps: seq<Packet>)
    requires ps != []
    ensures Counted(ps[1..]) <= Counted(ps)
  {
  }

  lemma KeptTail(sends: seq<seq<Packet>>, max: int)
    requires sends != []
    ensures Kept(sends, max) <==> (Counted(sends[0]) <= max || |sends[0]| == 1) && Kept(sends[1..], max)
  {
    assert sends == [sends[0]] + sends[1..];
  }

  /** The code keeps the limit exactly when its cut is also the cut of a loop that counts every packet. */
  lemma {:induction false} KeptMeansFull(sends: seq<seq<Packet>>, first: bool, max: int)
    requires Greedy(sends, first, max)
    ensures Kept(sends, max) <==> GreedyFull(sends, max)
  {
    if sends != [] {
      KeptMeansFull(sends[1..], false, max);
      KeptTail(sends, max);
      if |sends| > 1 {
        var whole := sends[0] + [sends[1][0]];
        assert whole[1..] == sends[0][1..] + [sends[1][0]];
        CountedTail(whole);
      }
    }
  }

  /** A first send of a full cut is not longer than another one. */
  lemma LongestFull(a: seq<seq<Packet>>, b: seq<seq<Packet>>, max: int)
    requires GreedyFull(a, max) && GreedyFull(b, max) && a != [] && b != [] && Flatten(a) == Flatten(b)
    ensures |b[0]| <= |a[0]|
  {
    if |a[0]| < |b[0]| {
      var all := Flatten(a);
      assert all == b[0] + Flatten(b[1..]) == a[0] + Flatten(a[1..]);
      assert |a| > 1;
      assert Flatten(a[1..]) == a[1] + Flatten(a[2..]) by { assert a[1..][1..] == a[2..]; }
      assert all[|a[0]|] == Flatten(a[1..])[0] == a[1][0];
      assert a[0] == all[..|a[0]|] && b[0] == all[..|b[0]|];
      assert a[0] + [a[1][0]] <= b[0];
      CountedPrefix(a[0] + [a[1][0]], b[0]);
      assert false;
    }
  }

  lemma {:induction false} OnlyOneFullCut(a: seq<seq<Packet>>, b: seq<seq<Packet>>, max: int)
    requires GreedyFull(a, max) && GreedyFull(b, max) && Flatten(a) == Flatten(b)
    ensures a == b
  {
    if a != [] && b != [] {
      LongestFull(a, b, max);
      LongestFull(b, a, max);
      assert Flatten(a) == a[0] + Flatten(a[1..]) && Flatten(b) == b[0] + Flatten(b[1..]);
      assert a[0] == Flatten(a)[..|a[0]|] && b[0] == Flatten(b)[..|b[0]|];
      assert Flatten(a[1..]) == Flatten(a)[|a[0]|..] && Flatten(b[1..]) == Flatten(b)[|b[0]|..];
      OnlyOneFullCut(a[1..], b[1..], max);
      assert a == [a[0]] + a[1..] && b == [b[0]] + b[1..];
    }
  }

  /** How many packets fit in one payload, the first of them always. */
  function Fitting(ps: seq<Packet>, n: nat, max: int): (r: nat)
    requires 1 <= n <= |ps| && (n == 1 || Counted(ps[..n]) <= max)
    ensures n <= r <= |ps| && (r == 1 || Counted(ps[..r]) <= max)
    ensures r < |ps| ==> Counted(ps[..r + 1]) > max
    decreases |ps| - n
  {
    if n < |ps| && Counted(ps[..n + 1]) <= max then Fitting(ps, n + 1, max) else n
  }

  /** The cut of the packets that counts every one of them. */
  function FullCut(ps: seq<Packet>, max: int): (sends: seq<seq<Packet>>)
    ensures ps == [] <==> sends == []
    ensures sends != [] ==> sends[0] != [] && sends[0][0] == ps[0]
  {
    if ps == [] then []
    else
      var n := Fitting(ps, 1, max);
      [ps[..n]] + FullCut(ps[n..], max)
  }

  lemma {:induction false} FullCutIsFull(ps: seq<Packet>, max: int)
    ensures GreedyFull(FullCut(ps, max), max) && Flatten(FullCut(ps, max)) == ps
    decreases |ps|
  {
    if ps != [] {
      var n := Fitting(ps, 1, max);
      var rest := FullCut(ps[n..], max);
      FullCutIsFull(ps[n..], max);
      assert ([ps[..n]] + rest)[1..] == rest;
      if rest != [] {
        assert ps[..n] + [ps[n]] == ps[..n + 1];
      }
    }
  }

  /**
   * The limit is kept, as the packets are counted, if and only if in the full cut of the packets every payload but the
   * first and the last would be too long even without its opening packet, once the next packet joined.  In bytes the
   * packets without data must also have room.
   */
  lemma LimitKeptExactly(packets: seq<Packet>, sends: seq<seq<Packet>>, max: int)
    requires Flatten(sends) == packets && Greedy(sends, true, max)
    ensures Kept(sends, max) <==> Greedy(FullCut(packets, max), true, max)
    ensures KeptInBytes(sends, max)
       <==> Greedy(FullCut(packets, max), true, max) && KeptInBytes(FullCut(packets, max), max)
  {
    var full := FullCut(packets, max);
    FullCutIsFull(packets, max);
    KeptMeansFull(sends, true, max);
    if GreedyFull(sends, max) {
      OnlyOneFullCut(sends, full, max);
    }
    if Greedy(full, true, max) {
      OnlyOneGreedyCut(sends, full, true, max);
    }
    if KeptInBytes(sends, max) {
      BytesCoverCount(sends, max);
    }
  }

  lemma BytesCoverCount(sends: seq<seq<Packet>>, max: int)
    requires KeptInBytes(sends, max)
    ensures Kept(sends, max)
  {
    forall k | 0 <= k < |sends| ensures Counted(sends[k]) <= max || |sends[k]| == 1 {
      PayloadSize(sends[k]);
      assert |Joined(sends[k])| <= max || |sends[k]| == 1;
    }
  }

  /** A text message with n bytes of data. */
  function Text(n: nat): (p: Packet)
    ensures |p.data| == n && EncodedLen(p, false) == n + 1
  {
    Packet(false, Message, seq(n, i => 65))
  }

  /**
   * The limit is not kept, and the bound on later sends is reached for every limit: of three packets that fill the
   * limit alone, the last two leave as one payload.
   */
  lemma LaterSendOvershoots(max: int)
    requires max >= 2
    ensures var p := Text(max - 1);
            var packets, sends := [p, p, p], [[p], [p, p]];
            && Flatten(sends) == packets && Greedy(sends, true, max)
            && |Joined([p])| == max
            && |Joined(sends[1])| == max + EncodedLen(sends[1][0], false) + 1 == 2 * max + 1
  {
    var p := Text(max - 1);
    TwoCuts(p, max);
    assert Joined([p, p]) == Encode(p, false) + [DELIMITER] + Joined([p]) by { assert [p, p][1..] == [p]; }
  }

  lemma TwoCuts(p: Packet, max: int)
    requires Weight(p) == max > 0
    ensures Flatten([[p], [p, p]]) == [p, p, p] && Greedy([[p], [p, p]], true, max)
  {
    CountedSnoc([], p);
    CountedSnoc([p], p);
    assert [] + [p] == [p] && [p] + [p] == [p, p];
    var one: seq<seq<Packet>> := [[p]];
    assert one[1..] == [] && one + [[p, p]] == [[p], [p, p]];
    assert Greedy(one, true, max);
    assert Measured([p, p], false) == [p];
    GreedySnoc(one, true, max, [p, p]);
    FlattenSnoc([], [p]);
    FlattenSnoc(one, [p, p]);
    assert Flatten(one) == [p] && [p] + [p, p] == [p, p, p];
  }
}
