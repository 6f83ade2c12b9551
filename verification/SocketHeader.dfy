/**
 * The text frame of a Socket.IO packet: type, attachment count, namespace, acknowledgement ID and
 * payload ("Packet encoding" of the Socket.IO protocol, revision 5), as encodeString writes it
 * (parser/json/encode.go) and parseHeader reads it (parser/json/decode.go).
 */
module SocketHeader {
  import opened Prelude
  import opened Decimal
  import opened JsonName

  datatype PacketType = Connect | Disconnect | Event | Ack | ConnectError | BinaryEvent | BinaryAck

  function ToChar(t: PacketType): Byte {
    match t
    case Connect => 48
    case Disconnect => 49
    case Event => 50
    case Ack => 51
    case ConnectError => 52
    case BinaryEvent => 53
    case BinaryAck => 54
  }

  function FromChar(b: Byte): (t: Option<PacketType>)
    ensures t.Some? ==> ToChar(t.value) == b
    ensures t.None? ==> forall u :: ToChar(u) != b
  {
    if b == 48 then Some(Connect)
    else if b == 49 then Some(Disconnect)
    else if b == 50 then Some(Event)
    else if b == 51 then Some(Ack)
    else if b == 52 then Some(ConnectError)
    else if b == 53 then Some(BinaryEvent)
    else if b == 54 then Some(BinaryAck)
    else None
  }

  predicate IsBinary(t: PacketType) {
    t == BinaryEvent || t == BinaryAck
  }

  predicate IsEvent(t: PacketType) {
    t == Event || t == BinaryEvent
  }

  datatype Header = Header(ptype: PacketType, namespace: Bytes, id: Option<nat>, attachments: int)

  const SLASH: Byte := 47
  const COMMA: Byte := 44
  const DASH: Byte := 45
  const NEWLINE: Byte := 10
  const ROOT: Bytes := [SLASH]

  predicate IsRoot(namespace: Bytes) {
    namespace == [] || namespace == ROOT
  }

  function Itoa(n: int): Bytes {
    if n < 0 then [DASH] + Digits(-n) else Digits(n)
  }

  function CountText(h: Header): Bytes {
    if IsBinary(h.ptype) then Itoa(h.attachments) + [DASH] else []
  }

  function NamespaceText(h: Header): Bytes {
    if IsRoot(h.namespace) then [] else h.namespace + [COMMA]
  }

  function IdText(h: Header): Bytes {
    match h.id
    case None => []
    case Some(n) => Digits(n)
  }

  /** The frame, as its specification lists the parts. */
  function Encoded(h: Header, payload: Bytes): Bytes {
    [ToChar(h.ptype)] + CountText(h) + NamespaceText(h) + IdText(h) + payload
  }

  /** encodeString; `document` is None for the empty value, whose JSON is omitted. */
  method EncodeString(h: Header, document: Option<Bytes>) returns (buf: Bytes)
    ensures buf == Encoded(h, if document.Some? then document.value else [])
  {
    buf := [ToChar(h.ptype)];
    if IsBinary(h.ptype) {
      buf := buf + (Itoa(h.attachments) + [DASH]);
    }
    assert buf == [ToChar(h.ptype)] + CountText(h);
    if h.namespace != [] && h.namespace != ROOT {
      buf := buf + (h.namespace + [COMMA]);
    }
    assert buf == [ToChar(h.ptype)] + CountText(h) + NamespaceText(h);
    if h.id.Some? {
      buf := buf + Digits(h.id.value);
    }
    assert buf == Encoded(h, []);
    ghost var prefix := buf;
    if document.Some? {
      buf := buf + document.value + [NEWLINE];  // the JSON encoder ends every document with a newline
      if |buf| != 0 && buf[|buf| - 1] == NEWLINE {
        buf := buf[..|buf| - 1];
      }
      assert buf == prefix + document.value;
    }
  }

  datatype ParseError = InvalidSize | InvalidType | Malformed | BadNumber | BadName | SliceOutOfRange

  datatype Parsed = Parsed(header: Header, payload: Bytes, eventName: Bytes)

  /** The JSON serializer, as far as parseHeader uses it: see JsonName.SingleString. */
  type Serializer = Bytes -> Option<Bytes>

  /** The first position of b, or the length when there is none. */
  function IndexOf(data: Bytes, b: Byte): (i: nat)
    ensures i <= |data|
    ensures i < |data| ==> data[i] == b
    ensures forall j | 0 <= j < i :: data[j] != b
  {
    if data == [] || data[0] == b then 0 else 1 + IndexOf(data[1..], b)
  }

  /** The length of the longest prefix made of digits. */
  function DigitRun(data: Bytes): (i: nat)
    ensures i <= |data|
    ensures forall j | 0 <= j < i :: IsDigit(data[j])
    ensures i < |data| ==> !IsDigit(data[i])
  {
    if data == [] || !IsDigit(data[0]) then 0 else 1 + DigitRun(data[1..])
  }

  /** The first position at or after `from` of a quote that no backslash precedes, or the length. */
  function EndQuote(data: Bytes, from: nat): (e: nat)
    requires 1 <= from <= |data|
    ensures from <= e <= |data|
    ensures e < |data| ==> data[e] == QUOTE && data[e - 1] != BACKSLASH
    ensures forall j | from <= j < e :: !(data[j] == QUOTE && data[j - 1] != BACKSLASH)
    decreases |data| - from
  {
    if from == |data| || (data[from] == QUOTE && data[from - 1] != BACKSLASH) then from
    else EndQuote(data, from + 1)
  }

  /** int(attachments): a uint64 read as a two's complement int64. */
  function ToInt64(n: nat): int
    requires n < TWO64
  {
    if n < TWO63 then n else n - TWO64
  }

  function ParseCount(t: PacketType, data: Bytes): Result<(int, Bytes), ParseError> {
    if !IsBinary(t) then Ok((0, data))
    else
      var i := IndexOf(data, DASH);
      if i == |data| then Err(Malformed)
      else match ParseUint64(data[..i])
        case None => Err(BadNumber)
        case Some(n) => Ok((ToInt64(n), if i + 1 < |data| then data[i + 1..] else data[i..]))
  }

  /** Without a comma the code slices one past the end, which panics (decode.go:108). */
  function ParseNamespace(data: Bytes): Result<(Bytes, Bytes), ParseError> {
    if |data| >= 1 && data[0] == SLASH then
      var i := IndexOf(data, COMMA);
      if i == |data| then Err(SliceOutOfRange) else Ok((data[..i], data[i + 1..]))
    else Ok((ROOT, data))
  }

  function ParseId(data: Bytes): Result<(Option<nat>, Bytes), ParseError> {
    if |data| >= 1 && IsDigit(data[0]) then
      var i := DigitRun(data);
      match ParseUint64(data[..i])
      case None => Err(BadNumber)
      case Some(n) => Ok((Some(n), data[i..]))
    else Ok((None, data))
  }

  function ParseEventName(t: PacketType, data: Bytes, json: Serializer): Result<Bytes, ParseError> {
    if !IsEvent(t) then Ok([])
    else
      var start := IndexOf(data, QUOTE);
      if start == |data| then Err(Malformed)
      else
        var end := EndQuote(data, start + 1);
        if end == |data| then Err(Malformed)
        else match json([OPEN] + data[start..end + 1] + [CLOSE])
          case None => Err(BadName)
          case Some(name) => Ok(name)
  }

  /** parseHeader, part by part. */
  function Parse(data: Bytes, json: Serializer): Result<Parsed, ParseError> {
    if |data| < 1 then Err(InvalidSize)
    else match FromChar(data[0])
      case None => Err(InvalidType)
      case Some(t) => ParseAfterType(t, data[1..], json)
  }

  function ParseAfterType(t: PacketType, data: Bytes, json: Serializer): Result<Parsed, ParseError> {
    InOrder(t, data, CountOf(t), ParseNamespace, ParseId, NameOf(t, json))
  }

  type PartReader<!T> = Bytes -> Result<T, ParseError>

  function CountOf(t: PacketType): PartReader<(int, Bytes)> {
    (data: Bytes) => ParseCount(t, data)
  }

  function NameOf(t: PacketType, json: Serializer): PartReader<Bytes> {
    (data: Bytes) => ParseEventName(t, data, json)
  }

  /** Each reader gets what the one before it left; the first error stops. */
  function InOrder(t: PacketType, data: Bytes, readCount: PartReader<(int, Bytes)>,
                   readNamespace: PartReader<(Bytes, Bytes)>, readId: PartReader<(Option<nat>, Bytes)>,
                   readName: PartReader<Bytes>): Result<Parsed, ParseError>
  {
    match readCount(data)
    case Err(e) => Err(e)
    case Ok((count, d1)) =>
      match readNamespace(d1)
      case Err(e) => Err(e)
      case Ok((namespace, d2)) =>
        match readId(d2)
        case Err(e) => Err(e)
        case Ok((id, d3)) =>
          match readName(d3)
          case Err(e) => Err(e)
          case Ok(name) => Ok(Parsed(Header(t, namespace, id, count), d3, name))
  }

  lemma {:induction false} IndexOfIs(data: Bytes, b: Byte, i: nat)
    requires i <= |data| && (i < |data| ==> data[i] == b) && forall j | 0 <= j < i :: data[j] != b
    ensures IndexOf(data, b) == i
  {
  }

  lemma {:induction false} EndQuoteIs(data: Bytes, from: nat, e: nat)
    requires 1 <= from <= e <= |data| && (e < |data| ==> data[e] == QUOTE && data[e - 1] != BACKSLASH)
    requires forall j | from <= j < e :: !(data[j] == QUOTE && data[j - 1] != BACKSLASH)
    ensures EndQuote(data, from) == e
  {
  }

  method ScanNamespace(data: Bytes) returns (r: Result<(Bytes, Bytes), ParseError>)
    ensures r == ParseNamespace(data)
  {
    if !(|data| >= 1 && data[0] == SLASH) {
      return Ok((ROOT, data));
    }
    var i := 0;
    while i < |data| && data[i] != COMMA
      invariant i <= |data| && forall j | 0 <= j < i :: data[j] != COMMA
    {
      i := i + 1;
    }
    IndexOfIs(data, COMMA, i);
    if i + 1 > |data| {
      return Err(SliceOutOfRange);
    }
    return Ok((data[..i], data[i + 1..]));
  }

  method ScanId(data: Bytes) returns (r: Result<(Option<nat>, Bytes), ParseError>)
    ensures r == ParseId(data)
  {
    if !(|data| >= 1 && ZERO <= data[0] <= NINE) {
      return Ok((None, data));
    }
    var i := 0;
    while i < |data| && !(data[i] < ZERO || data[i] > NINE)
      invariant i <= |data| && forall j | 0 <= j < i :: IsDigit(data[j])
    {
      i := i + 1;
    }
    assert i == DigitRun(data);
    match ParseUint64(data[..i])
    case None => return Err(BadNumber);
    case Some(n) => return Ok((Some(n), data[i..]));
  }

  /** tmp: the literal copied byte by byte between brackets (decode.go:156-164). */
  method Bracketed(literal: Bytes) returns (tmp: Bytes)
    ensures tmp == [OPEN] + literal + [CLOSE]
  {
    tmp := [OPEN];
    for i := 0 to |literal|
      invariant tmp == [OPEN] + literal[..i]
    {
      tmp := tmp + [literal[i]];
    }
    assert literal[..|literal|] == literal;
    tmp := tmp + [CLOSE];
  }

  method FindQuote(data: Bytes) returns (start: nat)
    ensures start == IndexOf(data, QUOTE)
  {
    start := 0;
    while start < |data| && data[start] != QUOTE
      invariant start <= |data| && forall j | 0 <= j < start :: data[j] != QUOTE
    {
      start := start + 1;
    }
    IndexOfIs(data, QUOTE, start);
  }

  method FindEndQuote(data: Bytes, start: nat) returns (end: nat)
    requires start < |data|
    ensures end == EndQuote(data, start + 1)
  {
    end := start + 1;
    while end < |data| && !(data[end] == QUOTE && data[end - 1] != BACKSLASH)
      invariant start + 1 <= end <= |data|
      invariant forall j | start + 1 <= j < end :: !(data[j] == QUOTE && data[j - 1] != BACKSLASH)
    {
      end := end + 1;
    }
    EndQuoteIs(data, start + 1, end);
  }

  method ScanEventName(t: PacketType, data: Bytes, json: Serializer) returns (r: Result<Bytes, ParseError>)
    ensures r == ParseEventName(t, data, json)
  {
    if !IsEvent(t) {
      return Ok([]);
    }
    var start := FindQuote(data);
    if start == |data| {
      return Err(Malformed);
    }
    var end := FindEndQuote(data, start);
    if end == |data| {
      return Err(Malformed);
    }
    var tmp := Bracketed(data[start..end + 1]);
    match json(tmp)
    case None => return Err(BadName);
    case Some(name) => return Ok(name);
  }

  /** parseHeader, with its loops. */
  method ParseHeader(frame: Bytes, json: Serializer) returns (r: Result<Parsed, ParseError>)
    ensures r == Parse(frame, json)
  {
    if |frame| < 1 {
      return Err(InvalidSize);
    }
    var ptype := FromChar(frame[0]);
    if ptype.None? {
      return Err(InvalidType);
    }
    var header := Header(ptype.value, [], None, 0);
    var data := frame[1..];
    if IsBinary(header.ptype) {
      var i := IndexOf(data, DASH);
      if i == |data| {
        return Err(Malformed);
      }
      var attachments := ParseUint64(data[..i]);
      if attachments.None? {
        return Err(BadNumber);
      }
      header := header.(attachments := ToInt64(attachments.value));
      data := if i + 1 < |data| then data[i + 1..] else data[i..];
    }
    var namespace := ScanNamespace(data);
    if namespace.Err? {
      return Err(namespace.error);
    }
    header, data := header.(namespace := namespace.value.0), namespace.value.1;
    var id := ScanId(data);
    if id.Err? {
      return Err(id.error);
    }
    header, data := header.(id := id.value.0), id.value.1;
    var name := ScanEventName(header.ptype, data, json);
    if name.Err? {
      return Err(name.error);
    }
    return Ok(Parsed(header, data, name.value));
  }
}
