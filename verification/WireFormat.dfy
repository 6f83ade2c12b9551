/**
 * The bytes on the wire, written out: the characters and constants that the protocols fix, stated without the
 * functions that the encoders and the decoders share.
 */
module WireFormat {
  import opened Prelude
  import opened Decimal
  import opened SocketHeader
  import opened HeaderRoundTrip
  import Base64
  import Engine = EnginePacket
  import JsonName
  import WebTransport

  // ------------------------------------------------------------------------------------------
  // Numerals
  // ------------------------------------------------------------------------------------------

  function Shifted(n: nat, k: nat): nat {
    if k == 0 then n else Shifted(n / 10, k - 1)
  }

  /** Digits writes the most significant digit first, and no leading zero. */
  lemma {:induction false} DigitAt(n: nat, k: nat)
    requires k < |Digits(n)|
    ensures Digits(n)[|Digits(n)| - 1 - k] == '0' as int + Shifted(n, k) % 10
    ensures n > 0 ==> Digits(n)[0] != '0' as int
  {
    if n >= 10 {
      DigitAt(n / 10, if k == 0 then 0 else k - 1);
    }
  }

  // ------------------------------------------------------------------------------------------
  // Socket.IO frames
  // ------------------------------------------------------------------------------------------

  /** The packet types, in the order in which the protocol numbers them from zero. */
  const TYPES: seq<PacketType> := [Connect, Disconnect, Event, Ack, ConnectError, BinaryEvent, BinaryAck]

  lemma TypeCharacters(t: PacketType, b: Byte)
    ensures t in TYPES
    ensures forall i | 0 <= i < 7 :: ToChar(TYPES[i]) == "0123456"[i] as int
    ensures FromChar(b) == if '0' as int <= b <= '6' as int then Some(TYPES[b - '0' as int]) else None
  {
    assert TYPES[0] == Connect && TYPES[1] == Disconnect && TYPES[2] == Event && TYPES[3] == Ack;
    assert TYPES[4] == ConnectError && TYPES[5] == BinaryEvent && TYPES[6] == BinaryAck;
  }

  /** The type of a frame is its first character. */
  lemma FirstCharacter(h: Header, payload: Bytes)
    ensures Encoded(h, payload)[0] - '0' as int in {0, 1, 2, 3, 4, 5, 6}
    ensures TYPES[Encoded(h, payload)[0] - '0' as int] == h.ptype
  {
    TypeCharacters(h.ptype, ToChar(h.ptype));
    CharRoundTrip(h.ptype);
  }

  /** "5" or "6", the count and "-"; the namespace and ","; the ID; the payload: whatever the header. */
  lemma FrameLayout(h: Header, payload: Bytes)
    ensures Encoded(h, payload)[1..] ==
            (if h.ptype in {BinaryEvent, BinaryAck} then
               (if h.attachments < 0 then Ascii("-") + Digits(-h.attachments) else Digits(h.attachments)) + Ascii("-")
             else []) +
            (if h.namespace == [] || h.namespace == Ascii("/") then [] else h.namespace + Ascii(",")) +
            (if h.id.Some? then Digits(h.id.value) else []) +
            payload
  {
    assert Ascii("/") == ROOT && Ascii("-") == [DASH] && Ascii(",") == [COMMA];
    EncodedParts(h, payload);
    var count, namespace, id := CountText(h), NamespaceText(h), IdText(h);
    assert count + (namespace + (id + payload)) == count + namespace + id + payload;
  }

  const PLAIN: Header := Header(Event, [], None, 0)
  const REPLY: Header := Header(Ack, Ascii("/"), Some(12), 0)
  const GOODBYE: Header := Header(Disconnect, Ascii("/admin"), None, 0)
  const UPLOAD: Header := Header(BinaryEvent, Ascii("/admin"), Some(456), 1)

  lemma Admin()
    ensures Ascii("/admin") == [47, 97, 100, 109, 105, 110]
    ensures !IsRoot(Ascii("/admin")) && Ascii("/admin")[0] == SLASH && COMMA !in Ascii("/admin")
  {
  }

  lemma SmallNumerals()
    ensures Digits(1) == [49] && Digits(12) == [49, 50] && Digits(456) == [52, 53, 54]
  {
    assert Digits(45) == Digits(4) + [53];
  }

  /** Four whole frames as text: an event, an acknowledgement, a disconnection, a binary event. */
  lemma EventText()
    ensures Encoded(PLAIN, Ascii("[\"hi\"]")) == Ascii("2[\"hi\"]")
  {
  }

  lemma AckText()
    ensures Encoded(REPLY, Ascii("[]")) == Ascii("312[]")
  {
    SmallNumerals();
    assert Ascii("/") == ROOT;
  }

  lemma DisconnectText()
    ensures Encoded(GOODBYE, []) == Ascii("1/admin,")
  {
    Admin();
    assert Ascii("1/admin,") == [49] + Ascii("/admin") + [44];
  }

  lemma BinaryEventText()
    ensures Encoded(UPLOAD, Ascii("[\"a\"]")) == Ascii("51-/admin,456[\"a\"]")
  {
    UploadParts();
    AsciiParts("51-", "/admin", ",456", "[\"a\"]");
    assert "51-" + "/admin" + ",456" + "[\"a\"]" == "51-/admin,456[\"a\"]";
    assert Ascii("51-") == [53] + [49, 45] && Ascii(",456") == [44] + [52, 53, 54];
  }

  lemma UploadParts()
    ensures ToChar(BinaryEvent) == 53 && CountText(UPLOAD) == [49, 45] && IdText(UPLOAD) == [52, 53, 54]
    ensures NamespaceText(UPLOAD) == Ascii("/admin") + [44]
  {
    SmallNumerals();
    Admin();
  }

  lemma AsciiParts(a: string, b: string, c: string, d: string)
    ensures Ascii(a + b + c + d) == Ascii(a) + Ascii(b) + Ascii(c) + Ascii(d)
  {
  }

  /** And what parseHeader reads in them. */
  lemma EventTextRead()
    ensures Parse(Ascii("2[\"hi\"]"), JsonName.SingleString) ==
            Ok(Parsed(Header(Event, Ascii("/"), None, 0), Ascii("[\"hi\"]"), Ascii("hi")))
  {
    EventText();
    assert Ascii("/") == ROOT;
    assert Ascii("[\"hi\"]") == Ascii("[\"") + Ascii("hi") + Ascii("\"]");
    EventRead(PLAIN, Ascii("hi"));
  }

  lemma AckTextRead()
    ensures Parse(Ascii("312[]"), JsonName.SingleString) ==
            Ok(Parsed(Header(Ack, Ascii("/"), Some(12), 0), Ascii("[]"), []))
  {
    AckText();
    assert Ascii("/") == ROOT;
    FrameComesBack(REPLY, Ascii("[]"), JsonName.SingleString);
  }

  lemma DisconnectTextRead()
    ensures Parse(Ascii("1/admin,"), JsonName.SingleString) ==
            Ok(Parsed(Header(Disconnect, Ascii("/admin"), None, 0), [], []))
  {
    DisconnectText();
    Admin();
    FrameComesBack(GOODBYE, [], JsonName.SingleString);
  }

  lemma BinaryEventTextRead()
    ensures Parse(Ascii("51-/admin,456[\"a\"]"), JsonName.SingleString) ==
            Ok(Parsed(Header(BinaryEvent, Ascii("/admin"), Some(456), 1), Ascii("[\"a\"]"), Ascii("a")))
  {
    BinaryEventText();
    Admin();
    assert Ascii("[\"a\"]") == Ascii("[\"") + Ascii("a") + Ascii("\"]");
    EventRead(UPLOAD, Ascii("a"));
  }

  /** An event without arguments comes back, in every namespace that the grammar can hold. */
  lemma EventRead(h: Header, name: Bytes)
    requires IsEvent(h.ptype) && IdFits(h) && 0 <= h.attachments < TWO63 && forall b | b in name :: Plain(b)
    requires IsRoot(h.namespace) || (h.namespace[0] == SLASH && COMMA !in h.namespace)
    ensures var payload := Ascii("[\"") + name + Ascii("\"]");
            Parse(Encoded(h, payload), JsonName.SingleString) == Ok(Parsed(Normal(h), payload, name))
  {
    var payload := Ascii("[\"") + name + Ascii("\"]");
    NameReading(h.ptype, name);
    assert payload[0] == '[' as int;
    HeaderRoundTrip.HeaderRoundTrip(h, payload, JsonName.SingleString, name);
  }

  /** A name that needs no escape is read as it stands in the text. */
  lemma NameReading(t: PacketType, name: Bytes)
    requires IsEvent(t) && forall b | b in name :: Plain(b)
    ensures ParseEventName(t, Ascii("[\"") + name + Ascii("\"]"), JsonName.SingleString) == Ok(name)
  {
    PlainName(name);
    assert name != [] ==> Plain(name[|name| - 1]);
    assert Ascii("[\"") + name + Ascii("\"]") == NamedPayload([91], name, [93]);
    EventNameRoundTrip(t, [91], name, [93]);
  }

  // ------------------------------------------------------------------------------------------
  // JSON strings (section 7 of RFC 8259)
  // ------------------------------------------------------------------------------------------

  /** A character that encoding/json writes as it is. */
  predicate Plain(b: Byte) {
    b >= ' ' as int && b !in {'"' as int, '\\' as int, '<' as int, '>' as int, '&' as int}
  }

  const HEX: string := "0123456789abcdef"

  /** How each byte of a name is written. */
  lemma EscapeTable(b: Byte)
    ensures JsonName.EscapeByte(b) ==
            if Plain(b) then [b]
            else if b == '"' as int then Ascii("\\\"")
            else if b == '\\' as int then Ascii("\\\\")
            else if b == '\n' as int then Ascii("\\n")
            else if b == '\r' as int then Ascii("\\r")
            else if b == '\t' as int then Ascii("\\t")
            else if b == 8 then Ascii("\\b")
            else if b == 12 then Ascii("\\f")
            else Ascii("\\u00") + [HEX[b / 16] as int, HEX[b % 16] as int]
  {
    assert b < 64 ==> JsonName.HexDigit(b / 16) == HEX[b / 16] as int;
    HexDigits(b % 16);
  }

  lemma HexDigits(d: nat)
    requires d < 16
    ensures JsonName.HexDigit(d) == HEX[d] as int
  {
  }

  lemma {:induction false} PlainName(name: Bytes)
    requires forall b | b in name :: Plain(b)
    ensures JsonName.Quote(name) == Ascii("\"") + name + Ascii("\"")
  {
    PlainEscape(name);
  }

  lemma {:induction false} PlainEscape(name: Bytes)
    requires forall b | b in name :: Plain(b)
    ensures JsonName.Escape(name) == name
  {
    if name != [] {
      EscapeTable(name[0]);
      PlainEscape(name[1..]);
      assert name == [name[0]] + name[1..];
    }
  }

  // ------------------------------------------------------------------------------------------
  // Engine.IO packets and payloads
  // ------------------------------------------------------------------------------------------

  const ENGINE_TYPES: seq<Engine.PacketType> :=
    [Engine.Open, Engine.Close, Engine.Ping, Engine.Pong, Engine.Message, Engine.Upgrade, Engine.Noop]

  lemma EngineCharacters(t: Engine.PacketType, b: Byte)
    ensures t in ENGINE_TYPES
    ensures forall i | 0 <= i < 7 :: Engine.ToChar(ENGINE_TYPES[i]) == "0123456"[i] as int
    ensures Engine.FromChar(b) == if '0' as int <= b <= '6' as int then Some(ENGINE_TYPES[b - '0' as int]) else None
  {
    assert ENGINE_TYPES[0] == Engine.Open && ENGINE_TYPES[1] == Engine.Close && ENGINE_TYPES[2] == Engine.Ping;
    assert ENGINE_TYPES[3] == Engine.Pong && ENGINE_TYPES[4] == Engine.Message;
    assert ENGINE_TYPES[5] == Engine.Upgrade && ENGINE_TYPES[6] == Engine.Noop;
  }

  /** A text packet is its type's digit and its data; a binary one "b" and base64, or the bare bytes in a frame. */
  lemma EnginePacketText(i: nat, data: Bytes)
    requires i < 7
    ensures Engine.Encode(Engine.Packet(false, ENGINE_TYPES[i], data), false) == [48 + i] + data
    ensures Engine.Encode(Engine.Packet(false, ENGINE_TYPES[i], data), true) == [48 + i] + data
    ensures Engine.Encode(Engine.Packet(true, Engine.Message, data), false) == Ascii("b") + Base64.Encode(data)
    ensures Engine.Encode(Engine.Packet(true, Engine.Message, data), true) == data
  {
    EngineCharacters(ENGINE_TYPES[i], 0);
    assert "0123456"[i] as int == 48 + i;
  }

  /** A payload as text: a message, a ping and a binary message, with the record separator (30) between them. */
  lemma PayloadText()
    ensures Engine.Joined([Engine.Packet(false, Engine.Message, Ascii("hi")), Engine.Packet(false, Engine.Ping, []),
                           Engine.Packet(true, Engine.Message, [1, 2, 3])])
            == Ascii("4hi") + [30] + Ascii("2") + [30] + Ascii("bAQID")
  {
    var a, b, c := Engine.Packet(false, Engine.Message, Ascii("hi")), Engine.Packet(false, Engine.Ping, []),
                   Engine.Packet(true, Engine.Message, [1, 2, 3]);
    assert [a, b, c][1..] == [b, c] && [b, c][1..] == [c];
    assert Engine.Joined([c]) == Ascii("bAQID") by {
      assert Base64.Encode([1, 2, 3]) == Base64.Encode([1, 2, 3])[..4] == Ascii("AQID");
    }
    assert Engine.Joined([b, c]) == Ascii("2") + [30] + Ascii("bAQID");
  }

  // ------------------------------------------------------------------------------------------
  // Base64
  // ------------------------------------------------------------------------------------------

  /** Table 1 of RFC 4648. */
  lemma Alphabet(n: Base64.Sextet)
    ensures Base64.Letter(n) ==
            if n < 26 then 'A' as int + n
            else if n < 52 then 'a' as int + (n - 26)
            else if n < 62 then '0' as int + (n - 52)
            else if n == 62 then '+' as int else '/' as int
  {
  }

  /** Test vectors of section 10 of RFC 4648. */
  lemma OneByteVector()
    ensures Base64.Encode(Ascii("f")) == Ascii("Zg==")
  {
    assert Ascii("f") == [102] && Ascii("Zg==") == [90, 103, 61, 61];
  }

  lemma TwoByteVector()
    ensures Base64.Encode(Ascii("fo")) == Ascii("Zm8=")
  {
    assert Ascii("fo") == [102, 111] && Ascii("Zm8=") == [90, 109, 56, 61];
  }

  lemma SixByteVector()
    ensures Base64.Encode(Ascii("foobar")) == Ascii("Zm9vYmFy")
  {
    var bar := [98, 97, 114];
    assert bar[3..] == [];
    assert Base64.Encode(bar) == [89, 109, 70, 121];
    assert Ascii("foobar")[3..] == bar && Ascii("foobar")[..3] == [102, 111, 111];
    assert Ascii("Zm9vYmFy") == [90, 109, 57, 118, 89, 109, 70, 121];
  }

  // ------------------------------------------------------------------------------------------
  // WebTransport frames
  // ------------------------------------------------------------------------------------------

  lemma TwoBytes(n: nat)
    ensures WebTransport.BigEndian(n, 2) == [n / 0x100 % 0x100, n % 0x100]
  {
    assert WebTransport.BigEndian(n / 0x100, 1) == [] + [n / 0x100 % 0x100];
  }

  lemma FourBytes(n: nat)
    ensures WebTransport.BigEndian(n, 4) ==
            [n / 0x100_0000 % 0x100, n / 0x1_0000 % 0x100, n / 0x100 % 0x100, n % 0x100]
  {
    TwoBytes(n / 0x1_0000);
    assert n / 0x100 / 0x100 == n / 0x1_0000 && n / 0x1_0000 / 0x100 == n / 0x100_0000;
    assert WebTransport.BigEndian(n / 0x100, 3) == WebTransport.BigEndian(n / 0x1_0000, 2) + [n / 0x100 % 0x100];
  }

  /** A number below 2^32 fills the last four of eight bytes. */
  lemma EightBytes(n: nat)
    requires n < 0x1_0000_0000
    ensures WebTransport.BigEndian(n, 8) == [0, 0, 0, 0] + WebTransport.BigEndian(n, 4)
  {
    Padded(n, 4);
    FourBytes(0);
  }

  /** The bytes in front of the last k are those of what is left after k divisions by 256. */
  lemma {:induction false} Padded(n: nat, k: nat)
    requires n < Power(k)
    ensures WebTransport.BigEndian(n, 4 + k) == WebTransport.BigEndian(0, 4) + WebTransport.BigEndian(n, k)
  {
    if k > 0 {
      Padded(n / 0x100, k - 1);
    }
  }

  function Power(k: nat): nat {
    if k == 0 then 1 else 0x100 * Power(k - 1)
  }

  /** The length as section 5.2 of RFC 6455 lays it out, in 1, 3 or 9 bytes. */
  lemma LengthBytes(n: nat)
    ensures n <= 125 ==> WebTransport.LengthField(n) == [n]
    ensures 126 <= n <= 0xFFFF ==> WebTransport.LengthField(n) == [126, n / 0x100, n % 0x100]
    ensures 0x1_0000 <= n < 0x1_0000_0000 ==>
              WebTransport.LengthField(n) ==
              [127, 0, 0, 0, 0, n / 0x100_0000, n / 0x1_0000 % 0x100, n / 0x100 % 0x100, n % 0x100]
  {
    if 126 <= n <= 0xFFFF {
      TwoBytes(n);
    } else if 0x1_0000 <= n < 0x1_0000_0000 {
      FourBytes(n);
      EightBytes(n);
    }
  }

  /** A text packet is marked by a clear top bit, a binary one by a set one. */
  lemma FrameBytes(data: Bytes)
    requires |data| <= 124
    ensures WebTransport.Frame(Engine.Packet(false, Engine.Message, data)) == [|data| + 1, '4' as int] + data
    ensures WebTransport.Frame(Engine.Packet(true, Engine.Message, data)) == [128 + |data|] + data
  {
    assert "0123456"[4] == '4';
  }
}
