/**
 * Packets on a WebTransport stream (engine.io/transport/webtransport/packet.go): a length field
 * shaped like the one in section 5.2 of RFC 6455, then the packet.
 */
module WebTransport {
  import opened Prelude
  import opened EnginePacket

  datatype ReadError = EndOfStream | BadPacket(why: PacketError)

  /** binary.BigEndian on k bytes. */
  function BigEndian(n: nat, k: nat): (s: Bytes)
    ensures |s| == k
  {
    if k == 0 then [] else BigEndian(n / 256, k - 1) + [n % 256]
  }

  function Number(s: Bytes): nat {
    if s == [] then 0 else Number(s[..|s| - 1]) * 256 + s[|s| - 1]
  }

  function LengthField(n: nat): Bytes {
    if n < 126 then [n]
    else if n < 65536 then [126] + BigEndian(n, 2)
    else [127] + BigEndian(n, 8)
  }

  /** n bytes of payload behind their length; the first header byte also says whether they are binary. */
  function Framed(payload: Bytes, n: nat, isBinary: bool): Bytes {
    var field := LengthField(n);
    [if isBinary then field[0] + 128 else field[0]] + field[1..] + payload
  }

  /** send. */
  function Frame(p: Packet): Bytes {
    Framed(Encode(p, true), EncodedLen(p, true), p.isBinary)
  }

  type PacketResult = Result<(Packet, Bytes), ReadError>

  /** parser.DecodeWithLen: the next n bytes are one packet. */
  function ReadPayload(stream: Bytes, n: nat, isBinary: bool): PacketResult {
    if |stream| < n then Err(EndOfStream)
    else match Decode(stream[..n], isBinary)
      case Err(e) => Err(BadPacket(e))
      case Ok(p) => Ok((p, stream[n..]))
  }

  /** nextPacket: the packet, and what is left of the stream. */
  function Next(stream: Bytes): PacketResult {
    ReadFrame(stream, ReadPayload)
  }

  /** Of the 8-byte length only 4 bytes are read (line 88). */
  function ReadFrame(stream: Bytes, read: (Bytes, nat, bool) -> PacketResult): PacketResult {
    if |stream| < 1 then Err(EndOfStream)
    else
      var isBinary, short, rest := stream[0] >= 128, stream[0] % 128, stream[1..];
      if short < 126 then read(rest, short, isBinary)
      else if short == 126 then
        if |rest| < 2 then Err(EndOfStream) else read(rest[2..], Number(rest[..2]), isBinary)
      else
        if |rest| < 8 then Err(EndOfStream) else read(rest[8..], Number(rest[..4]), isBinary)
  }

  datatype ReadState = ReadHeader | ReadExtendedLen16 | ReadExtendedLen64 | AtPayload

  function Rank(s: ReadState): nat {
    match s
    case ReadHeader => 2
    case ReadExtendedLen16 => 1
    case ReadExtendedLen64 => 1
    case AtPayload => 0
  }

  /** nextPacket, as the state loop it is; each ReadFull consumes what it reads. */
  method NextPacket(stream: Bytes) returns (r: PacketResult)
    ensures r == Next(stream)
  {
    if |stream| < 1 {
      return Err(EndOfStream);
    }
    var firstByte, rest := stream[0], stream[1..];
    var state, expectedLen, isBinary := ReadHeader, 0, false;
    while state != AtPayload
      invariant state != ReadHeader ==> isBinary == (firstByte >= 128)
      invariant state == ReadHeader ==> rest == stream[1..]
      invariant state == ReadExtendedLen16 ==> firstByte % 128 == 126 && rest == stream[1..]
      invariant state == ReadExtendedLen64 ==> firstByte % 128 == 127 && rest == stream[1..]
      invariant expectedLen >= 0
      invariant state == AtPayload ==> Next(stream) == ReadPayload(rest, expectedLen, isBinary)
      decreases Rank(state)
    {
      match state
      case ReadHeader =>
        expectedLen := firstByte % 128;
        isBinary := firstByte >= 128;
        state := if expectedLen < 126 then AtPayload
                 else if expectedLen == 126 then ReadExtendedLen16 else ReadExtendedLen64;
      case ReadExtendedLen16 =>
        if |rest| < 2 {
          return Err(EndOfStream);
        }
        expectedLen, rest, state := Number(rest[..2]), rest[2..], AtPayload;
      case ReadExtendedLen64 =>
        if |rest| < 8 {
          return Err(EndOfStream);
        }
        expectedLen, rest, state := Number(rest[..4]), rest[8..], AtPayload;
    }
    return ReadPayload(rest, expectedLen, isBinary);
  }

  function Pow256(k: nat): (p: nat)
    ensures p > 0
  {
    if k == 0 then 1 else 256 * Pow256(k - 1)
  }

  lemma {:induction false} NumberOfBigEndian(n: nat, k: nat)
    requires n < Pow256(k)
    ensures Number(BigEndian(n, k)) == n
  {
    if k > 0 {
      NumberOfBigEndian(n / 256, k - 1);
      var s := BigEndian(n, k);
      assert s[..|s| - 1] == BigEndian(n / 256, k - 1);
    }
  }

  /** Dropping the last byte of a number divides it by 256. */
  lemma BigEndianPrefix(n: nat, k: nat)
    requires k > 0
    ensures BigEndian(n, k)[..k - 1] == BigEndian(n / 256, k - 1)
  {
  }

  /** The high half of the 8-byte length is the length divided by 2^32. */
  lemma HighHalf(n: nat)
    requires n < TWO63
    ensures Number(BigEndian(n, 8)[..4]) == n / 0x1_0000_0000
  {
    var n1, n2, n3 := n / 256, n / 256 / 256, n / 256 / 256 / 256;
    var n4 := n3 / 256;
    BigEndianPrefix(n, 8);
    BigEndianPrefix(n1, 7);
    BigEndianPrefix(n2, 6);
    BigEndianPrefix(n3, 5);
    var s := BigEndian(n, 8);
    assert s[..4] == s[..7][..6][..5][..4] == BigEndian(n4, 4);
    assert n4 == n / 0x1_0000_0000;
    assert Pow256(1) == 256 && Pow256(2) == 65536 && Pow256(3) == 16777216 && Pow256(4) == 0x1_0000_0000;
    NumberOfBigEndian(n4, 4);
  }

  /** The stream after its first byte: the rest of the length field, then the payload. */
  lemma FrameTail(payload: Bytes, n: nat, isBinary: bool, rest: Bytes)
    ensures var field := LengthField(n);
            var stream := Framed(payload, n, isBinary) + rest;
            && |stream| >= 1 && stream[0] == (if isBinary then field[0] + 128 else field[0])
            && stream[1..] == field[1..] + (payload + rest)
  {
    var field := LengthField(n);
    Assoc([if isBinary then field[0] + 128 else field[0]] + field[1..], payload, rest);
    Assoc([if isBinary then field[0] + 128 else field[0]], field[1..], payload + rest);
  }

  lemma TinyFrame(payload: Bytes, n: nat, isBinary: bool, rest: Bytes, read: (Bytes, nat, bool) -> PacketResult)
    requires n < 126
    ensures ReadFrame(Framed(payload, n, isBinary) + rest, read) == read(payload + rest, n, isBinary)
  {
    FrameTail(payload, n, isBinary, rest);
    assert (Framed(payload, n, isBinary) + rest)[1..] == payload + rest;
  }

  /** The reader finds the length the writer put there, if it fits in two bytes. */
  lemma ShortFrame(payload: Bytes, n: nat, isBinary: bool, rest: Bytes, read: (Bytes, nat, bool) -> PacketResult)
    requires n < 65536
    ensures ReadFrame(Framed(payload, n, isBinary) + rest, read) == read(payload + rest, n, isBinary)
  {
    if n < 126 {
      TinyFrame(payload, n, isBinary, rest, read);
    } else {
      FrameTail(payload, n, isBinary, rest);
      var tail := (Framed(payload, n, isBinary) + rest)[1..];
      assert LengthField(n)[1..] == BigEndian(n, 2);
      assert tail[2..] == payload + rest && tail[..2] == BigEndian(n, 2);
      assert Pow256(1) == 256 && Pow256(2) == 65536;
      NumberOfBigEndian(n, 2);
    }
  }

  /** Otherwise it finds the length divided by 2^32. */
  lemma LongFrame(payload: Bytes, n: nat, isBinary: bool, rest: Bytes, read: (Bytes, nat, bool) -> PacketResult)
    requires 65536 <= n < TWO63
    ensures ReadFrame(Framed(payload, n, isBinary) + rest, read) == read(payload + rest, n / 0x1_0000_0000, isBinary)
  {
    FrameTail(payload, n, isBinary, rest);
    var tail := (Framed(payload, n, isBinary) + rest)[1..];
    assert LengthField(n)[1..] == BigEndian(n, 8);
    assert tail[8..] == payload + rest && tail[..4] == BigEndian(n, 8)[..4];
    HighHalf(n);
  }

  /** The packets a stream can carry. */
  predicate Framable(p: Packet) {
    Valid(p) && EncodedLen(p, true) < 65536
  }

  lemma FrameComesBack(p: Packet, rest: Bytes)
    requires Framable(p)
    ensures Next(Frame(p) + rest) == Ok((p, rest))
  {
    ShortFrame(Encode(p, true), EncodedLen(p, true), p.isBinary, rest, ReadPayload);
    var s := Encode(p, true) + rest;
    assert s[..EncodedLen(p, true)] == Encode(p, true) && s[EncodedLen(p, true)..] == rest;
    DecodeEncode(p, true);
  }

  lemma FrameIsLost(p: Packet, rest: Bytes)
    requires !Framable(p) && EncodedLen(p, true) < TWO63
    ensures var r := Next(Frame(p) + rest); r.Err? || r.value.0 != p
  {
    var n := EncodedLen(p, true);
    var s := Encode(p, true) + rest;
    if n < 65536 {
      ShortFrame(Encode(p, true), EncodedLen(p, true), p.isBinary, rest, ReadPayload);
    } else {
      LongFrame(Encode(p, true), EncodedLen(p, true), p.isBinary, rest, ReadPayload);
      var k := n / 0x1_0000_0000;
      assert k < n;
      if k >= 1 && !p.isBinary {
        assert s[..k][1..] == s[1..k];
      }
    }
  }

  // ------------------------------------------------------------------------------------------
  // Streams
  // ------------------------------------------------------------------------------------------

  function Stream(ps: seq<Packet>): Bytes {
    if ps == [] then [] else Frame(ps[0]) + Stream(ps[1..])
  }

  type PacketReader = Bytes -> PacketResult

  /** n reads, and what is left of the stream. */
  function ReadMany(stream: Bytes, n: nat, next: PacketReader): Result<(seq<Packet>, Bytes), ReadError>
    decreases n
  {
    if n == 0 then Ok(([], stream))
    else match next(stream)
      case Err(e) => Err(e)
      case Ok((p, rest)) =>
        match ReadMany(rest, n - 1, next)
        case Err(e) => Err(e)
        case Ok((ps, end)) => Ok(([p] + ps, end))
  }

  lemma ReadOneMore(stream: Bytes, rest: Bytes, ps: seq<Packet>, next: PacketReader)
    requires ps != [] && next(stream) == Ok((ps[0], rest))
    ensures ReadMany(stream, |ps|, next) == Ok((ps, [])) <==> ReadMany(rest, |ps| - 1, next) == Ok((ps[1..], []))
  {
    assert ps == [ps[0]] + ps[1..];
    var r := ReadMany(rest, |ps| - 1, next);
    if r.Ok? {
      assert ([ps[0]] + r.value.0)[1..] == r.value.0;
    }
  }

  lemma ReadWrongPacket(stream: Bytes, ps: seq<Packet>, next: PacketReader)
    requires ps != [] && (next(stream).Err? || next(stream).value.0 != ps[0])
    ensures ReadMany(stream, |ps|, next) != Ok((ps, []))
  {
    var r := ReadMany(stream, |ps|, next);
    assert r.Ok? ==> r.value.0[0] == next(stream).value.0;
  }

  /** The reader gets packet i at its place exactly when it can, and then comes to the place of the next one. */
  predicate ReadsAt(ps: seq<Packet>, i: nat, at: nat -> Bytes, can: Packet -> bool, next: PacketReader)
    requires i < |ps|
  {
    var r := next(at(i));
    if can(ps[i]) then r == Ok((ps[i], at(i + 1))) else r.Err? || r.value.0 != ps[i]
  }

  lemma {:induction false} ReadsFrom(ps: seq<Packet>, i: nat, at: nat -> Bytes, can: Packet -> bool, next: PacketReader)
    requires i <= |ps| && at(|ps|) == [] && forall j: nat | i <= j < |ps| :: ReadsAt(ps, j, at, can, next)
    ensures ReadMany(at(i), |ps| - i, next) == Ok((ps[i..], [])) <==> forall j | i <= j < |ps| :: can(ps[j])
    decreases |ps| - i
  {
    if i < |ps| {
      ReadsFrom(ps, i + 1, at, can, next);
      assert ReadsAt(ps, i, at, can, next) && ps[i..][1..] == ps[i + 1..];
      if can(ps[i]) {
        ReadOneMore(at(i), at(i + 1), ps[i..], next);
      } else {
        ReadWrongPacket(at(i), ps[i..], next);
      }
    } else {
      assert ps[i..] == [];
    }
  }

  /** What is left of the stream before packet i is read. */
  function Places(ps: seq<Packet>): nat -> Bytes {
    (i: nat) => if i <= |ps| then Stream(ps[i..]) else []
  }

  /**
   * A stream of frames is read back packet by packet, each read using up one frame, if and only if every packet is
   * valid and every length is below 65536.
   */
  lemma StreamRoundTrip(ps: seq<Packet>)
    requires forall i | 0 <= i < |ps| :: EncodedLen(ps[i], true) < TWO63
    ensures ReadMany(Stream(ps), |ps|, Next) == Ok((ps, [])) <==> forall i | 0 <= i < |ps| :: Framable(ps[i])
  {
    forall i: nat | i < |ps| ensures ReadsAt(ps, i, Places(ps), Framable, Next) {
      PlaceIsRead(ps, i);
    }
    ReadsFrom(ps, 0, Places(ps), Framable, Next);
    assert ps[0..] == ps;
  }

  lemma PlaceIsRead(ps: seq<Packet>, i: nat)
    requires i < |ps| && EncodedLen(ps[i], true) < TWO63
    ensures ReadsAt(ps, i, Places(ps), Framable, Next)
  {
    var rest := Stream(ps[i + 1..]);
    assert Stream(ps[i..]) == Frame(ps[i]) + rest by { assert ps[i..][1..] == ps[i + 1..]; }
    if Framable(ps[i]) {
      FrameComesBack(ps[i], rest);
    } else {
      FrameIsLost(ps[i], rest);
    }
  }
}
