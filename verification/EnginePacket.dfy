/**
 * Engine.IO packets ("Packet encoding" of the Engine.IO protocol, revision 4): one packet
 * (engine.io/parser/packet.go) and the payload that joins several (engine.io/parser/payload.go).
 */
module EnginePacket {
  import opened Prelude
  import Base64

  datatype PacketType = Open | Close | Ping | Pong | Message | Upgrade | Noop

  datatype Packet = Packet(isBinary: bool, ptype: PacketType, data: Bytes)

  datatype PacketError = InvalidSize | InvalidType | CorruptBase64

  const BASE64_PREFIX: Byte := 98
  const DELIMITER: Byte := 30

  function ToChar(t: PacketType): Byte {
    match t
    case Open => 48
    case Close => 49
    case Ping => 50
    case Pong => 51
    case Message => 52
    case Upgrade => 53
    case Noop => 54
  }

  function FromChar(b: Byte): (t: Option<PacketType>)
    ensures t.Some? ==> ToChar(t.value) == b
    ensures t.None? ==> forall u :: ToChar(u) != b
  {
    if b == 48 then Some(Open)
    else if b == 49 then Some(Close)
    else if b == 50 then Some(Ping)
    else if b == 51 then Some(Pong)
    else if b == 52 then Some(Message)
    else if b == 53 then Some(Upgrade)
    else if b == 54 then Some(Noop)
    else None
  }

  /** NewPacket refuses binary packets of any other type. */
  predicate Valid(p: Packet) {
    p.isBinary ==> p.ptype == Message
  }

  function EncodedLen(p: Packet, supportsBinary: bool): nat {
    if p.isBinary then (if supportsBinary then |p.data| else 1 + Base64.EncodedLen(|p.data|)) else 1 + |p.data|
  }

  function Encode(p: Packet, supportsBinary: bool): (s: Bytes)
    ensures |s| == EncodedLen(p, supportsBinary)
  {
    if p.isBinary then (if supportsBinary then p.data else [BASE64_PREFIX] + Base64.Encode(p.data))
    else [ToChar(p.ptype)] + p.data
  }

  function Decode(data: Bytes, binaryFrame: bool): Result<Packet, PacketError> {
    if binaryFrame then Ok(Packet(true, Message, data))
    else if |data| < 1 then Err(InvalidSize)
    else if data[0] == BASE64_PREFIX then
      match Base64.Decode(data[1..])
      case None => Err(CorruptBase64)
      case Some(d) => Ok(Packet(true, Message, d))
    else match FromChar(data[0])
      case None => Err(InvalidType)
      case Some(t) => Ok(Packet(false, t, data[1..]))
  }

  /** One packet comes back exactly when it is valid: a frame says whether it is binary, text says so with a prefix. */
  lemma DecodeEncode(p: Packet, supportsBinary: bool)
    ensures Decode(Encode(p, supportsBinary), supportsBinary && p.isBinary) == Ok(p) <==> Valid(p)
  {
    if p.isBinary {
      Base64.DecodeEncode(p.data);
      assert ([BASE64_PREFIX] + Base64.Encode(p.data))[1..] == Base64.Encode(p.data);
    } else {
      assert ([ToChar(p.ptype)] + p.data)[1..] == p.data;
    }
  }

  // ------------------------------------------------------------------------------------------
  // Payloads
  // ------------------------------------------------------------------------------------------

  /** Packets joined by the delimiter. */
  function Joined(ps: seq<Packet>): Bytes {
    if ps == [] then []
    else if |ps| == 1 then Encode(ps[0], false)
    else Encode(ps[0], false) + [DELIMITER] + Joined(ps[1..])
  }

  /** The pieces between delimiters: there is always at least one. */
  function Split(buf: Bytes): (parts: seq<Bytes>)
    ensures |parts| == 1 + Count(buf)
  {
    if buf == [] then [[]]
    else
      var rest := Split(buf[1..]);
      if buf[0] == DELIMITER then [[]] + rest else [[buf[0]] + rest[0]] + rest[1..]
  }

  /** How many delimiters there are. */
  function Count(buf: Bytes): nat {
    if buf == [] then 0 else (if buf[0] == DELIMITER then 1 else 0) + Count(buf[1..])
  }

  function DecodeAll(parts: seq<Bytes>): (r: Result<seq<Packet>, PacketError>)
    ensures r.Ok? ==> |r.value| == |parts|
  {
    if parts == [] then Ok([])
    else match Decode(parts[0], false)
      case Err(e) => Err(e)
      case Ok(p) =>
        match DecodeAll(parts[1..])
        case Err(e) => Err(e)
        case Ok(rest) => Ok([p] + rest)
  }

  method EncodedPayloadsLen(packets: seq<Packet>) returns (l: nat)
    ensures l == |Joined(packets)|
  {
    l := 0;
    for i := 0 to |packets|
      invariant l + |Joined(packets[i..])| == |Joined(packets)|
    {
      l := l + EncodedLen(packets[i], false);
      if i != |packets| - 1 {
        l := l + 1;
      }
      assert packets[i..][1..] == packets[i + 1..];
    }
  }

  lemma JoinedStep(w: Bytes, packets: seq<Packet>, i: nat)
    requires i < |packets|
    ensures var separator := if i != |packets| - 1 then [DELIMITER] else [];
            w + Encode(packets[i], false) + separator + Joined(packets[i + 1..]) == w + Joined(packets[i..])
  {
    assert packets[i..][1..] == packets[i + 1..];
    var e, rest := Encode(packets[i], false), Joined(packets[i + 1..]);
    assert w + e + [DELIMITER] + rest == w + (e + [DELIMITER] + rest);
    if i == |packets| - 1 {
      assert packets[i + 1..] == [];
    }
  }

  method EncodePayloads(packets: seq<Packet>) returns (w: Bytes)
    ensures w == Joined(packets)
  {
    w := [];
    for i := 0 to |packets|
      invariant w + Joined(packets[i..]) == Joined(packets)
    {
      JoinedStep(w, packets, i);
      w := w + Encode(packets[i], false);
      if i != |packets| - 1 {
        w := w + [DELIMITER];
      }
    }
  }

  lemma {:induction false} SplitAppend(part: Bytes, rest: Bytes)
    requires DELIMITER !in part
    ensures Split(part) == [part]
    ensures Split(part + [DELIMITER] + rest) == [part] + Split(rest)
  {
    if part == [] {
      assert part + [DELIMITER] + rest == [DELIMITER] + rest;
      assert ([DELIMITER] + rest)[1..] == rest;
    } else {
      SplitAppend(part[1..], rest);
      assert (part + [DELIMITER] + rest)[1..] == part[1..] + [DELIMITER] + rest;
      assert [part[0]] + part[1..] == part;
    }
  }

  /** What the loop of splitByte keeps. */
  predicate Splitting(buf: Bytes, buffers: seq<Bytes>, last: nat, i: nat) {
    && last <= i <= |buf| && DELIMITER !in buf[last..i]
    && buffers + Split(buf[last..]) == Split(buf)
    && (buffers == [] <==> last == 0)
  }

  lemma SplitHere(buf: Bytes, buffers: seq<Bytes>, last: nat, i: nat)
    requires Splitting(buf, buffers, last, i) && i < |buf| && buf[i] == DELIMITER
    ensures Splitting(buf, buffers + [buf[last..i]], i + 1, i + 1)
  {
    var part, rest := buf[last..i], buf[i + 1..];
    assert buf[last..] == part + [DELIMITER] + rest;
    SplitAppend(part, rest);
    Assoc(buffers, [part], Split(rest));
  }

  lemma SplitOn(buf: Bytes, buffers: seq<Bytes>, last: nat, i: nat)
    requires Splitting(buf, buffers, last, i) && i < |buf| && buf[i] != DELIMITER
    ensures Splitting(buf, buffers, last, i + 1)
  {
    assert buf[last..i + 1] == buf[last..i] + [buf[i]];
  }

  lemma SplitEnds(buf: Bytes, buffers: seq<Bytes>, last: nat)
    requires Splitting(buf, buffers, last, |buf|)
    ensures buffers + [buf[last..]] == Split(buf)
  {
    assert buf[last..|buf|] == buf[last..];
    SplitAppend(buf[last..], []);
  }

  /** splitByte: buffers and last as in the source; the branch for i == len(buf) never runs. */
  method SplitByte(buf: Bytes) returns (buffers: seq<Bytes>)
    ensures buffers == Split(buf)
  {
    buffers := [];
    var last := 0;
    assert buf[0..] == buf;
    for i := 0 to |buf|
      invariant 0 <= last && Splitting(buf, buffers, last, i)
    {
      if buf[i] == DELIMITER {
        SplitHere(buf, buffers, last, i);
        buffers := buffers + [buf[last..i]];
        last := i + 1;
      } else {
        SplitOn(buf, buffers, last, i);
      }
    }
    SplitEnds(buf, buffers, last);
    if |buffers| == 0 {
      buffers := buffers + [buf];
    } else if last <= |buf| {
      buffers := buffers + [buf[last..]];
    }
  }

  function Payload(buf: Bytes): Result<seq<Packet>, PacketError> {
    DecodeAll(Split(buf))
  }

  /** The packets decoded so far, followed by the outcome of the rest. */
  function After(packets: seq<Packet>, r: Result<seq<Packet>, PacketError>): Result<seq<Packet>, PacketError> {
    match r
    case Err(e) => Err(e)
    case Ok(rest) => Ok(packets + rest)
  }

  lemma AfterStep(packets: seq<Packet>, parts: seq<Bytes>)
    requires parts != []
    ensures After(packets, DecodeAll(parts)) ==
            match Decode(parts[0], false)
            case Err(e) => Err(e)
            case Ok(p) => After(packets + [p], DecodeAll(parts[1..]))
  {
    if Decode(parts[0], false).Ok? && DecodeAll(parts[1..]).Ok? {
      var p, rest := Decode(parts[0], false).value, DecodeAll(parts[1..]).value;
      assert packets + ([p] + rest) == packets + [p] + rest;
    }
  }

  lemma AfterNothing(packets: seq<Packet>, r: Result<seq<Packet>, PacketError>)
    ensures After([], r) == r && After(packets, Ok([])) == Ok(packets)
  {
    assert packets + [] == packets && (r.Ok? ==> [] + r.value == r.value);
  }

  method DecodePayloads(buf: Bytes) returns (r: Result<seq<Packet>, PacketError>)
    ensures r == Payload(buf)
  {
    var packets: seq<Packet> := [];
    var splitted := SplitByte(buf);
    assert splitted[0..] == splitted;
    AfterNothing([], DecodeAll(splitted));
    for i := 0 to |splitted|
      invariant After(packets, DecodeAll(splitted[i..])) == DecodeAll(splitted)
    {
      assert splitted[i..][1..] == splitted[i + 1..];
      AfterStep(packets, splitted[i..]);
      var packet := Decode(splitted[i], false);
      if packet.Err? {
        return Err(packet.error);
      }
      packets := packets + [packet.value];
    }
    AfterNothing(packets, Ok([]));
    assert splitted[|splitted|..] == [];
    return Ok(packets);
  }

  lemma {:induction false} CountAppend(a: Bytes, b: Bytes)
    ensures Count(a + b) == Count(a) + Count(b)
  {
    if a == [] {
      assert a + b == b;
    } else {
      assert (a + b)[1..] == a[1..] + b;
      CountAppend(a[1..], b);
    }
  }

  lemma {:induction false} CountZero(a: Bytes)
    ensures Count(a) == 0 <==> DELIMITER !in a
  {
    if a != [] {
      CountZero(a[1..]);
      assert a == [a[0]] + a[1..];
    }
  }

  /** Text data free of the delimiter; base64 and the type characters are free of it anyway. */
  predicate Separable(p: Packet) {
    p.isBinary || DELIMITER !in p.data
  }

  lemma CountOfPacket(p: Packet)
    ensures Count(Encode(p, false)) == 0 <==> Separable(p)
  {
    var s := Encode(p, false);
    CountZero(s);
    if p.isBinary {
      forall i | 0 <= i < |s| ensures s[i] != DELIMITER {
        if i > 0 {
          Base64.EncodeAlphabet(p.data, i - 1);
        }
      }
    } else {
      assert s[1..] == p.data;
      assert forall i | 0 <= i < |p.data| :: s[i + 1] == p.data[i];
    }
  }

  lemma {:induction false} CountOfJoined(ps: seq<Packet>)
    requires ps != []
    ensures Count(Joined(ps)) >= |ps| - 1
    ensures Count(Joined(ps)) == |ps| - 1 <==> forall i | 0 <= i < |ps| :: Separable(ps[i])
  {
    CountOfPacket(ps[0]);
    if |ps| > 1 {
      CountOfJoined(ps[1..]);
      CountAppend(Encode(ps[0], false) + [DELIMITER], Joined(ps[1..]));
      CountAppend(Encode(ps[0], false), [DELIMITER]);
      assert ps == [ps[0]] + ps[1..];
    }
  }

  lemma DecodeOne(part: Bytes)
    ensures DecodeAll([part]) ==
            match Decode(part, false)
            case Err(e) => Err(e)
            case Ok(p) => Ok([p])
  {
    assert DecodeAll([part][1..]) == Ok([]);
    if Decode(part, false).Ok? {
      var p := Decode(part, false).value;
      assert [p] + [] == [p];
    }
  }

  lemma {:induction false} SplitJoined(ps: seq<Packet>)
    requires ps != [] && forall i | 0 <= i < |ps| :: Separable(ps[i])
    ensures |ps| == 1 ==> Split(Joined(ps)) == [Encode(ps[0], false)]
    ensures |ps| > 1 ==> Split(Joined(ps)) == [Encode(ps[0], false)] + Split(Joined(ps[1..]))
  {
    var head := Encode(ps[0], false);
    CountOfPacket(ps[0]);
    CountZero(head);
    SplitAppend(head, Joined(ps[1..]));
  }

  lemma DecodeMore(part: Bytes, parts: seq<Bytes>)
    ensures var first := Decode(part, false);
            DecodeAll([part] + parts) ==
            if first.Err? then Err(first.error) else After([first.value], DecodeAll(parts))
  {
    assert ([part] + parts)[1..] == parts;
  }

  lemma {:induction false} JoinedDecodes(ps: seq<Packet>)
    requires ps != [] && forall i | 0 <= i < |ps| :: Separable(ps[i])
    ensures Payload(Joined(ps)) == Ok(ps) <==> forall i | 0 <= i < |ps| :: Valid(ps[i])
  {
    SplitJoined(ps);
    DecodeEncode(ps[0], false);
    if |ps| == 1 {
      assert ps == [ps[0]];
      DecodeOne(Encode(ps[0], false));
    } else {
      JoinedDecodes(ps[1..]);
      DecodeMore(Encode(ps[0], false), Split(Joined(ps[1..])));
      assert ps == [ps[0]] + ps[1..];
    }
  }

  /** A payload comes back if and only if it is not empty, every packet is valid, and no text holds the delimiter. */
  lemma PayloadRoundTrip(ps: seq<Packet>)
    ensures Payload(Joined(ps)) == Ok(ps)
       <==> ps != [] && forall i | 0 <= i < |ps| :: Valid(ps[i]) && Separable(ps[i])
  {
    if ps == [] {
      assert Split([]) == [[]];
    } else if forall i | 0 <= i < |ps| :: Separable(ps[i]) {
      JoinedDecodes(ps);
    } else {
      CountOfJoined(ps);
    }
  }
}
