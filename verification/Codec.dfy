/** The codec end to end: Encode on one side, Add and reconstruct on the other. */
module Codec {
  import opened Prelude
  import opened JsonName
  import opened SocketHeader
  import opened HeaderRoundTrip
  import opened FrameParser
  import opened ValueTree
  import opened Deconstruct
  import opened Reconstruct

  datatype EncodeError =
    | NilArgument               // errNilArgument
    | NotAPointer               // errNonPtrArgument
    | Extraction(why: Failure)  // deconstructPacket failed
    | BufferMismatch            // errNumBuffers
    | LimitExceeded             // errMaxAttachmentsExceeded

  /** The JSON encoder on a tree whose Binary values marshal as the bytes they hold. */
  type Marshaller = Value -> Bytes

  /** The header as Encode leaves it, the value as the JSON encoder sees it (Nil when it sees none), and the frames. */
  datatype Encoding = Encoding(header: Header, document: Value, frames: seq<Bytes>)

  function BinaryType(t: PacketType): PacketType {
    match t
    case Event => BinaryEvent
    case Ack => BinaryAck
    case _ => t
  }

  /** Encode: `arg` is None for a nil argument, which sends no JSON at all. */
  method Encode(h: Header, arg: Option<Value>, max: int, marshal: Marshaller) returns (r: Result<Encoding, EncodeError>)
    ensures r == EncodeSpec(h, arg, max, marshal)
  {
    if arg == None {
      var text := EncodeString(h, None);
      return Ok(Encoding(h, Nil, [text]));
    }
    var v := arg.value;
    if v == Nil {
      return Err(NilArgument);
    }
    if !v.Ptr? && !v.Struct? {
      return Err(NotAPointer);
    }
    if h.ptype == Event || h.ptype == Ack {
      if HasBinary(v) {
        var header := h.(ptype := BinaryType(h.ptype));
        r := EncodeBinary(header, v, max, marshal);
        return;
      }
    }
    var buf := EncodeString(h, Some(marshal(v)));
    r := Ok(Encoding(h, v, [buf]));
  }

  method EncodeBinary(h: Header, v: Value, max: int, marshal: Marshaller) returns (r: Result<Encoding, EncodeError>)
    ensures r == EncodeBinarySpec(h, v, max, marshal)
  {
    var out := Decon(v, false, 0);
    if out.Failed? {
      return Err(Extraction(out.why));
    }
    var numBuffers := out.next;
    if numBuffers != |out.buffers| {
      return Err(BufferMismatch);
    }
    if max > 0 && numBuffers > max {
      return Err(LimitExceeded);
    }
    var header := h.(attachments := numBuffers);
    var s := EncodeString(header, Some(marshal(out.value)));
    return Ok(Encoding(header, out.value, [s] + out.buffers));
  }

  function EncodeBinarySpec(h: Header, v: Value, max: int, marshal: Marshaller): (r: Result<Encoding, EncodeError>)
    ensures r.Ok? ==> r.value.frames != []
  {
    match Decon(v, false, 0)
    case Failed(why) => Err(Extraction(why))
    case Done(v', buffers, n) =>
      if n != |buffers| then Err(BufferMismatch)
      else if max > 0 && n > max then Err(LimitExceeded)
      else
        var header := h.(attachments := n);
        Ok(Encoding(header, v', [Encoded(header, marshal(v'))] + buffers))
  }

  function EncodeSpec(h: Header, arg: Option<Value>, max: int, marshal: Marshaller): (r: Result<Encoding, EncodeError>)
    ensures r.Ok? ==> r.value.frames != []
  {
    match arg
    case None => Ok(Encoding(h, Nil, [Encoded(h, [])]))
    case Some(v) =>
      if v == Nil then Err(NilArgument)
      else if !IsArgument(v) then Err(NotAPointer)
      else if CarriesBinary(h, v) then EncodeBinarySpec(h.(ptype := BinaryType(h.ptype)), v, max, marshal)
      else Ok(Encoding(h, v, [Encoded(h, marshal(v))]))
  }

  /** What Encode accepts: a pointer, or a struct. */
  predicate IsArgument(v: Value) {
    v.Ptr? || v.Struct?
  }

  predicate CarriesBinary(h: Header, v: Value) {
    (h.ptype == Event || h.ptype == Ack) && HasBinary(v)
  }

  /** errNumBuffers is reported exactly for values in which the extraction meets a plain byte slice. */
  lemma MismatchMeansPlainBytes(h: Header, v: Value, max: int, marshal: Marshaller)
    requires IsArgument(v) && CarriesBinary(h, v) && Extractable(v, false)
    ensures EncodeSpec(h, Some(v), max, marshal) == Err(BufferMismatch) <==> PlainSeen(v) > 0
  {
    DoneExactly(v, false, 0);
    DeconPlain(v, false, 0);
  }

  /** Encoding succeeds exactly for a value that can be extracted, has no plain byte slice, and is within the limit. */
  lemma EncodesExactly(h: Header, v: Value, max: int, marshal: Marshaller)
    requires IsArgument(v) && CarriesBinary(h, v)
    ensures EncodeSpec(h, Some(v), max, marshal).Ok?
       <==> Extractable(v, false) && PlainSeen(v) == 0 && (max > 0 ==> BinariesIn(Met(v)) <= max)
  {
    DoneExactly(v, false, 0);
    if Decon(v, false, 0).Done? {
      DeconPlain(v, false, 0);
      DeconMet(v, false, 0);
    }
  }

  /** The other arguments: which are refused, and that a value without binary data is sent whole, as one frame. */
  lemma EncodesOthers(h: Header, v: Value, max: int, marshal: Marshaller)
    ensures EncodeSpec(h, Some(v), max, marshal) == Err(NilArgument) <==> v == Nil
    ensures EncodeSpec(h, Some(v), max, marshal) == Err(NotAPointer) <==> v != Nil && !v.Ptr? && !v.Struct?
    ensures IsArgument(v) && !CarriesBinary(h, v) ==>
              EncodeSpec(h, Some(v), max, marshal) == Ok(Encoding(h, v, [Encoded(h, marshal(v))]))
  {
  }

  /**
   * No argument is one frame that is just the header; a receiver reads that header back, with an empty payload, unless
   * it is an event's, which has to carry a name.
   */
  lemma NoArgument(h: Header, max: int, marshal: Marshaller)
    requires IdFits(h) && !IsBinary(h.ptype) && Unambiguous(h, [])
    ensures EncodeSpec(h, None, max, marshal).Ok?
    ensures var frames := EncodeSpec(h, None, max, marshal).value.frames;
            && |frames| == 1
            && (!IsEvent(h.ptype) ==>
                  AddStep(None, frames[0], max, Reader(SingleString)) ==
                  Step(None, Some(Finished(Normal(h), [], [[]])), None))
            && (IsEvent(h.ptype) ==>
                  AddStep(None, frames[0], max, Reader(SingleString)).error == Some(BadHeader(Malformed)))
  {
    FrameComesBack(h, [], SingleString);
  }

  // ------------------------------------------------------------------------------------------
  // On the wire
  // ------------------------------------------------------------------------------------------

  /** An event or an acknowledgement: header and argument list, with the name the list starts with for an event. */
  datatype Message = Message(h: Header, v: Value, name: Bytes, after: Bytes)

  function EventName(m: Message): Bytes {
    if m.h.ptype == Event then m.name else []
  }

  /** The text of a JSON list, which for an event starts with its name. */
  predicate IsArgumentList(m: Message, text: Bytes) {
    && text != [] && text[0] == OPEN
    && (m.h.ptype == Event ==> text == NamedPayload([OPEN], m.name, m.after) && !EndsInBackslash(m.name))
  }

  predicate PlainNamespace(namespace: Bytes) {
    IsRoot(namespace) || (namespace[0] == SLASH && COMMA !in namespace)
  }

  /** The encoder accepts the message, and its header and text can be told apart again. */
  ghost predicate Travels(m: Message, max: int, marshal: Marshaller) {
    && (m.h.ptype == Event || m.h.ptype == Ack) && IsArgument(m.v)
    && EncodeSpec(m.h, Some(m.v), max, marshal).Ok?
    && var e := EncodeSpec(m.h, Some(m.v), max, marshal).value;
    && IdFits(m.h) && PlainNamespace(m.h.namespace)
    && (IsBinary(e.header.ptype) ==> e.header.attachments < TWO63)
    && IsArgumentList(m, marshal(e.document))
  }

  function WireOf(m: Message, max: int, marshal: Marshaller): (e: Encoding)
    requires EncodeSpec(m.h, Some(m.v), max, marshal).Ok?
    ensures e.frames != []
  {
    EncodeSpec(m.h, Some(m.v), max, marshal).value
  }

  /** The packet an encoding puts on the wire. */
  function WirePacket(e: Encoding, marshal: Marshaller, name: Bytes): Packet
    requires e.frames != []
  {
    Packet(e.header, marshal(e.document), e.frames[1..], name)
  }

  /** What Encode does to an event or acknowledgement: header, document and frames. */
  lemma WireShape(m: Message, max: int, marshal: Marshaller)
    requires (m.h.ptype == Event || m.h.ptype == Ack) && EncodeSpec(m.h, Some(m.v), max, marshal).Ok?
    ensures var e := WireOf(m, max, marshal);
            && e.frames[0] == Encoded(e.header, marshal(e.document))
            && e.header.namespace == m.h.namespace && e.header.id == m.h.id
            && if HasBinary(m.v) then
                 && Extractable(m.v, false) && e.document == Extract(m.v, false).value
                 && e.header == m.h.(ptype := BinaryType(m.h.ptype), attachments := |e.frames| - 1)
                 && e.frames[1..] == Extract(m.v, false).buffers && (max > 0 ==> |e.frames| - 1 <= max)
               else
                 e.document == m.v && e.header == m.h && e.frames[1..] == []
  {
    DoneExactly(m.v, false, 0);
  }

  lemma NameIsRead(m: Message, t: PacketType, text: Bytes)
    requires (m.h.ptype == Event || m.h.ptype == Ack) && (t == m.h.ptype || t == BinaryType(m.h.ptype))
    requires IsArgumentList(m, text)
    ensures ParseEventName(t, text, SingleString) == Ok(EventName(m))
  {
    if m.h.ptype == Event {
      EventNameRoundTrip(t, [OPEN], m.name, m.after);
    }
  }

  lemma ListIsUnambiguous(h: Header, text: Bytes)
    requires PlainNamespace(h.namespace) && text != [] && text[0] == OPEN
    requires IsBinary(h.ptype) ==> 0 <= h.attachments < TWO63
    ensures Unambiguous(h, text)
  {
    var before := NamespaceText(h) + IdText(h);
    assert (before + text)[|before|] == OPEN;
  }

  lemma WireIsSendable(m: Message, max: int, marshal: Marshaller)
    requires Travels(m, max, marshal)
    ensures Sendable(WirePacket(WireOf(m, max, marshal), marshal, EventName(m)), max, SingleString)
  {
    var e := WireOf(m, max, marshal);
    WireShape(m, max, marshal);
    ListIsUnambiguous(e.header, marshal(e.document));
    NameIsRead(m, e.header.ptype, marshal(e.document));
  }

  /** What the parser is to report for a message. */
  function FinishedOf(m: Message, max: int, marshal: Marshaller): Finished
    requires EncodeSpec(m.h, Some(m.v), max, marshal).Ok?
  {
    var e := WireOf(m, max, marshal);
    Finished(Normal(e.header), EventName(m), [marshal(e.document)] + e.frames[1..])
  }

  /** A new parser makes one packet of the frames of a message. */
  lemma OnePacket(m: Message, max: int, marshal: Marshaller)
    requires Travels(m, max, marshal)
    ensures Feed(None, WireOf(m, max, marshal).frames, max, Reader(SingleString)) ==
            Run(None, [FinishedOf(m, max, marshal)], 0)
  {
    var e := WireOf(m, max, marshal);
    var p := WirePacket(e, marshal, EventName(m));
    WireShape(m, max, marshal);
    WireIsSendable(m, max, marshal);
    assert Frames(p) == e.frames;
    FeedPacket(p, max, SingleString);
  }

  /** A message, its frames and the report they are to cause. */
  ghost predicate Carries(m: Message, frames: seq<Bytes>, out: Finished, max: int, marshal: Marshaller) {
    Travels(m, max, marshal) && frames == WireOf(m, max, marshal).frames && out == FinishedOf(m, max, marshal)
  }

  /**
   * Any sequence of events and acknowledgements, with and without binary data, encoded and sent one after the other to
   * a parser with the same limit: it reports each once, in order, with its header, its name and its buffers.
   */
  lemma StreamEndToEnd(ms: seq<Message>, frames: seq<seq<Bytes>>, outs: seq<Finished>, max: int, marshal: Marshaller)
    requires |frames| == |outs| == |ms|
    requires forall i | 0 <= i < |ms| :: Carries(ms[i], frames[i], outs[i], max, marshal)
    ensures Feed(None, Flatten(frames), max, Reader(SingleString)) == Run(None, outs, 0)
  {
    forall i | 0 <= i < |ms| ensures Feed(None, frames[i], max, Reader(SingleString)) == Run(None, [outs[i]], 0) {
      assert Carries(ms[i], frames[i], outs[i], max, marshal);
      OnePacket(ms[i], max, marshal);
    }
    FeedMany(frames, outs, max, Reader(SingleString));
  }

  // ------------------------------------------------------------------------------------------
  // Encoding twice
  // ------------------------------------------------------------------------------------------

  /** What extraction leaves of an argument is one too. */
  lemma StillAnArgument(v: Value)
    requires IsArgument(v) && Extractable(v, false)
    ensures IsArgument(Extract(v, false).value)
  {
  }

  /** A header that is neither Event nor Ack is encoded as one text frame, whatever its value holds. */
  lemma EncodedAsText(h: Header, v: Value, max: int, marshal: Marshaller)
    requires IsArgument(v) && !CarriesBinary(h, v)
    ensures EncodeSpec(h, Some(v), max, marshal) == Ok(Encoding(h, v, [Encoded(h, marshal(v))]))
  {
  }

  lemma SeveralFrames(v: Value)
    requires Extractable(v, false) && HasBinary(v)
    ensures Extract(v, false).buffers != []
  {
    DoneExactly(v, false, 0);
    TraversalsAgree(v, false, 0);
    FoundIsReached(v);
  }

  /** What the encoder makes of the header and the value it left behind. */
  function AgainOf(e: Encoding, max: int, marshal: Marshaller): Result<Encoding, EncodeError> {
    EncodeSpec(e.header, Some(e.document), max, marshal)
  }

  lemma BinaryAgain(m: Message, max: int, marshal: Marshaller)
    requires (m.h.ptype == Event || m.h.ptype == Ack) && IsArgument(m.v) && HasBinary(m.v)
    requires EncodeSpec(m.h, Some(m.v), max, marshal).Ok?
    ensures var e := WireOf(m, max, marshal);
            AgainOf(e, max, marshal) == Ok(Encoding(e.header, e.document, [e.frames[0]])) && |e.frames| > 1
  {
    var e := WireOf(m, max, marshal);
    WireShape(m, max, marshal);
    StillAnArgument(m.v);
    SeveralFrames(m.v);
    EncodedAsText(e.header, e.document, max, marshal);
  }

  /**
   * Encode overwrites header and value, so encoding a message again, as the replay of a broadcast does, gives the same
   * frames if and only if it carries no binary data; otherwise the text frame goes out without its attachments.
   */
  lemma EncodedAgain(m: Message, max: int, marshal: Marshaller)
    requires (m.h.ptype == Event || m.h.ptype == Ack) && IsArgument(m.v) && EncodeSpec(m.h, Some(m.v), max, marshal).Ok?
    ensures var e := WireOf(m, max, marshal);
            var again := AgainOf(e, max, marshal);
            && again.Ok?
            && (again.value.frames == e.frames <==> !HasBinary(m.v))
            && (HasBinary(m.v) ==> again.value.frames == [e.frames[0]] && |e.frames| > 1)
  {
    if HasBinary(m.v) {
      BinaryAgain(m, max, marshal);
    } else {
      EncodedAsText(m.h, m.v, max, marshal);
    }
  }

  /** A parser that gets the text frame alone is left waiting for the attachments. */
  lemma TextFrameAlone(m: Message, max: int, marshal: Marshaller)
    requires Travels(m, max, marshal) && HasBinary(m.v)
    ensures var run := Feed(None, [WireOf(m, max, marshal).frames[0]], max, Reader(SingleString));
            run.finished == [] && run.r.Some? && run.r.value.remaining == BinariesIn(Met(m.v)) > 0
  {
    var e := WireOf(m, max, marshal);
    var text := marshal(e.document);
    WireShape(m, max, marshal);
    WireIsSendable(m, max, marshal);
    BinaryMessage(m, max, marshal);
    EncodedAgain(m, max, marshal);
    FrameComesBack(e.header, text, SingleString);
    FeedOne(e.frames[0], max, Reader(SingleString));
  }

  lemma FeedOne(data: Bytes, max: int, parse: HeaderParser)
    ensures var s, run := AddStep(None, data, max, parse), Feed(None, [data], max, parse);
            run.r == s.r && run.finished == if s.finished.Some? then [s.finished.value] else []
  {
    assert [data][1..] == [];
  }

  // ------------------------------------------------------------------------------------------
  // From the sender's arguments to the receiver's
  // ------------------------------------------------------------------------------------------

  /** The report for a message with binary data: the attachments are the data of its Binaries, in order. */
  function BinaryReport(m: Message, text: Bytes): Finished {
    Finished(Normal(m.h.(ptype := BinaryType(m.h.ptype), attachments := BinariesIn(Met(m.v)))), EventName(m),
             [text] + BuffersOf(Met(m.v)))
  }

  lemma BinaryMessage(m: Message, max: int, marshal: Marshaller)
    requires Travels(m, max, marshal) && HasBinary(m.v)
    ensures Extractable(m.v, false) && PlainSeen(m.v) == 0 && Extract(m.v, false).buffers == BuffersOf(Met(m.v))
    ensures WireOf(m, max, marshal).document == Extract(m.v, false).value
    ensures FinishedOf(m, max, marshal) == BinaryReport(m, marshal(WireOf(m, max, marshal).document))
  {
    WireShape(m, max, marshal);
    EncodesExactly(m.h, m.v, max, marshal);
    DeconMet(m.v, false, 0);
    DeconPlain(m.v, false, 0);
  }

  /** How many elements of the list are not arguments: the event's name. */
  function Skipped(m: Message): nat {
    if m.h.ptype == Event then 1 else 0
  }

  lemma BinaryReported(m: Message, max: int, marshal: Marshaller, e: Encoding)
    requires Travels(m, max, marshal) && HasBinary(m.v) && e == WireOf(m, max, marshal)
    ensures Feed(None, e.frames, max, Reader(SingleString)) == Run(None, [BinaryReport(m, marshal(e.document))], 0)
  {
    BinaryMessage(m, max, marshal);
    OnePacket(m, max, marshal);
  }

  /**
   * A message with binary data is encoded, its frames are fed to a new parser, and the packet that comes out has the
   * sender's header and name; the walk over the arguments decoded from it gives back what the sender's arguments said,
   * if and only if they are fillable.
   */
  lemma EndToEnd(m: Message, max: int, marshal: Marshaller, e: Encoding, ws: seq<Value>)
    requires Travels(m, max, marshal) && HasBinary(m.v) && NoPlaceholder(m.v) && Content(m.v).JArray?
    requires e == WireOf(m, max, marshal) && DecodedFrom(ws, Content(e.document), Skipped(m))
    ensures Feed(None, e.frames, max, Reader(SingleString)) == Run(None, [BinaryReport(m, marshal(e.document))], 0)
    ensures Delivered(ws, BinaryReport(m, marshal(e.document)).buffers, Content(m.v), Skipped(m)) <==> AllFillable(ws)
  {
    BinaryReported(m, max, marshal, e);
    BinaryMessage(m, max, marshal);
    ArgumentsRoundTrip(m.v, false, ws, Skipped(m), marshal(e.document));
  }
}
