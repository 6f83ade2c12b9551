/** parseHeader inverts encodeString: exactly when, and with which event name. */
module HeaderRoundTrip {
  import opened Prelude
  import opened Decimal
  import opened JsonName
  import opened SocketHeader

  /** The header a reader is meant to see: "" is the root namespace, and only binary packets carry a count. */
  function Normal(h: Header): Header {
    h.(namespace := if IsRoot(h.namespace) then ROOT else h.namespace,
       attachments := if IsBinary(h.ptype) then h.attachments else 0)
  }

  /** What the frame's grammar asks of a header and a payload. */
  predicate Unambiguous(h: Header, payload: Bytes) {
    && (IsRoot(h.namespace) || (h.namespace[0] == SLASH && COMMA !in h.namespace))
    && (IsBinary(h.ptype) ==> 0 <= h.attachments < TWO63 && NamespaceText(h) + IdText(h) + payload != [])
    && (payload != [] ==> !IsDigit(payload[0]))
    && (payload != [] && payload[0] == SLASH ==> !IsRoot(h.namespace) || h.id.Some?)
  }

  ghost predicate IdFits(h: Header) {
    h.id.Some? ==> h.id.value < TWO64
  }

  // ------------------------------------------------------------------------------------------
  // Part by part
  // ------------------------------------------------------------------------------------------

  lemma CountComesBack(h: Header, rest: Bytes)
    requires IsBinary(h.ptype) ==> 0 <= h.attachments < TWO63 && rest != []
    ensures ParseCount(h.ptype, CountText(h) + rest) == Ok((Normal(h).attachments, rest))
  {
    if IsBinary(h.ptype) {
      var digits := Digits(h.attachments);
      var data := CountText(h) + rest;
      IndexOfIs(data, DASH, |digits|);
      assert data[..|digits|] == digits && data[|digits| + 1..] == rest;
      NumeralOfDigits(h.attachments);
    } else {
      assert CountText(h) + rest == rest;
    }
  }

  lemma CountIsLost(h: Header, rest: Bytes)
    requires IsBinary(h.ptype) && !(0 <= h.attachments < TWO63 && rest != [])
    ensures var r := ParseCount(h.ptype, CountText(h) + rest);
            r.Err? || r.value.0 != h.attachments || (rest == [] && r.value.1 == [DASH])
  {
    var data := CountText(h) + rest;
    if h.attachments < 0 {
      IndexOfIs(data, DASH, 0);
      assert data[..0] == [];
    } else {
      var digits := Digits(h.attachments);
      IndexOfIs(data, DASH, |digits|);
      assert data[..|digits|] == digits;
      NumeralOfDigits(h.attachments);
      if rest == [] {
        assert data[|digits|..] == [DASH];
      }
    }
  }

  lemma NamespaceComesBack(h: Header, rest: Bytes)
    requires if IsRoot(h.namespace) then rest == [] || rest[0] != SLASH
             else h.namespace[0] == SLASH && COMMA !in h.namespace
    ensures ParseNamespace(NamespaceText(h) + rest) == Ok((Normal(h).namespace, rest))
  {
    var data := NamespaceText(h) + rest;
    if IsRoot(h.namespace) {
      assert data == rest;
    } else {
      var i := |h.namespace|;
      forall j | 0 <= j < i ensures data[j] != COMMA {
        assert data[j] == h.namespace[j];
      }
      IndexOfIs(data, COMMA, i);
      assert data[..i] == h.namespace && data[i + 1..] == rest;
    }
  }

  lemma NamespaceIsLost(h: Header, rest: Bytes)
    requires if IsRoot(h.namespace) then rest != [] && rest[0] == SLASH
             else !(h.namespace[0] == SLASH && COMMA !in h.namespace)
    ensures var r := ParseNamespace(NamespaceText(h) + rest);
            r.Err? || r.value.0 != Normal(h).namespace || (IsRoot(h.namespace) && |r.value.1| < |rest|)
  {
    var data := NamespaceText(h) + rest;
    if IsRoot(h.namespace) {
      assert data == rest;
    } else if h.namespace[0] == SLASH {
      var k :| 0 <= k < |h.namespace| && h.namespace[k] == COMMA;
      assert data[k] == COMMA;
      assert IndexOf(data, COMMA) <= k;
    }
  }

  lemma IdComesBack(h: Header, payload: Bytes)
    requires IdFits(h) && (payload != [] ==> !IsDigit(payload[0]))
    ensures ParseId(IdText(h) + payload) == Ok((h.id, payload))
  {
    var data := IdText(h) + payload;
    if h.id.Some? {
      var digits := Digits(h.id.value);
      assert data[0] == digits[0];
      forall j | 0 <= j < |digits| ensures IsDigit(data[j]) {
        assert data[j] == digits[j];
      }
      assert |digits| < |data| ==> data[|digits|] == payload[0];
      assert DigitRun(data) == |digits|;
      assert data[..|digits|] == digits && data[|digits|..] == payload;
      NumeralOfDigits(h.id.value);
    } else {
      assert data == payload;
    }
  }

  lemma IdSwallowsDigits(h: Header, payload: Bytes)
    requires payload != [] && IsDigit(payload[0])
    ensures var r := ParseId(IdText(h) + payload);
            r.Err? || |r.value.1| < |payload|
  {
    var id := IdText(h);
    var data := id + payload;
    forall j | 0 <= j <= |id| ensures IsDigit(data[j]) {
      assert j < |id| ==> data[j] == id[j];
      assert j == |id| ==> data[j] == payload[0];
    }
    assert DigitRun(data) > |id|;
  }

  // ------------------------------------------------------------------------------------------
  // The whole frame
  // ------------------------------------------------------------------------------------------

  lemma EncodedParts(h: Header, payload: Bytes)
    ensures Encoded(h, payload) == [ToChar(h.ptype)] + (CountText(h) + (NamespaceText(h) + (IdText(h) + payload)))
  {
  }

  /** What the reader of each part finds and leaves. */
  lemma PartsComeBack(h: Header, payload: Bytes) returns (d1: Bytes, d2: Bytes)
    requires IdFits(h) && Unambiguous(h, payload)
    ensures var frame := Encoded(h, payload);
            && frame != [] && frame[0] == ToChar(h.ptype)
            && ParseCount(h.ptype, frame[1..]) == Ok((Normal(h).attachments, d1))
    ensures ParseNamespace(d1) == Ok((Normal(h).namespace, d2))
    ensures ParseId(d2) == Ok((h.id, payload))
  {
    d2 := IdText(h) + payload;
    d1 := NamespaceText(h) + d2;
    assert Encoded(h, payload)[1..] == CountText(h) + d1 by { EncodedParts(h, payload); }
    Assoc(NamespaceText(h), IdText(h), payload);
    CountComesBack(h, d1);
    if IsRoot(h.namespace) {
      RootIsNotSlashed(h, payload);
    }
    NamespaceComesBack(h, d2);
    IdComesBack(h, payload);
  }

  lemma ParseInParts(frame: Bytes, h: Header, d1: Bytes, d2: Bytes, payload: Bytes, json: Serializer)
    requires frame != [] && frame[0] == ToChar(h.ptype)
    requires ParseCount(h.ptype, frame[1..]) == Ok((h.attachments, d1))
    requires ParseNamespace(d1) == Ok((h.namespace, d2))
    requires ParseId(d2) == Ok((h.id, payload))
    ensures Parse(frame, json) ==
            match ParseEventName(h.ptype, payload, json)
            case Err(e) => Err(e)
            case Ok(name) => Ok(Parsed(h, payload, name))
  {
    CharRoundTrip(h.ptype);
    AfterTypeInParts(h, frame[1..], d1, d2, payload, json);
  }

  lemma CharRoundTrip(t: PacketType)
    ensures FromChar(ToChar(t)) == Some(t)
  {
  }

  lemma AfterTypeInParts(h: Header, data: Bytes, d1: Bytes, d2: Bytes, payload: Bytes, json: Serializer)
    requires ParseCount(h.ptype, data) == Ok((h.attachments, d1))
    requires ParseNamespace(d1) == Ok((h.namespace, d2))
    requires ParseId(d2) == Ok((h.id, payload))
    ensures ParseAfterType(h.ptype, data, json) ==
            match ParseEventName(h.ptype, payload, json)
            case Err(e) => Err(e)
            case Ok(name) => Ok(Parsed(h, payload, name))
  {
    ReadInOrder(h, data, d1, d2, payload, CountOf(h.ptype), ParseNamespace, ParseId, NameOf(h.ptype, json));
  }

  /** The frame of an unambiguous packet parses to that packet, up to the reading of the event name. */
  lemma FrameComesBack(h: Header, payload: Bytes, json: Serializer)
    requires IdFits(h) && Unambiguous(h, payload)
    ensures Parse(Encoded(h, payload), json) ==
            match ParseEventName(h.ptype, payload, json)
            case Err(e) => Err(e)
            case Ok(name) => Ok(Parsed(Normal(h), payload, name))
  {
    var d1, d2 := PartsComeBack(h, payload);
    ParseInParts(Encoded(h, payload), Normal(h), d1, d2, payload, json);
  }

  lemma RootIsNotSlashed(h: Header, payload: Bytes)
    requires Unambiguous(h, payload) && IsRoot(h.namespace)
    ensures var d := IdText(h) + payload;
            d == [] || d[0] != SLASH
  {
    var d := IdText(h) + payload;
    if h.id.Some? {
      assert d[0] == Digits(h.id.value)[0];
    } else {
      assert d == payload;
    }
  }

  /** Readers that all succeed. */
  lemma ReadInOrder(h: Header, data: Bytes, d1: Bytes, d2: Bytes, payload: Bytes, readCount: PartReader<(int, Bytes)>,
                    readNamespace: PartReader<(Bytes, Bytes)>, readId: PartReader<(Option<nat>, Bytes)>,
                    readName: PartReader<Bytes>)
    requires readCount(data) == Ok((h.attachments, d1))
    requires readNamespace(d1) == Ok((h.namespace, d2))
    requires readId(d2) == Ok((h.id, payload))
    ensures InOrder(h.ptype, data, readCount, readNamespace, readId, readName) ==
            match readName(payload)
            case Err(e) => Err(e)
            case Ok(name) => Ok(Parsed(h, payload, name))
  {
  }

  /** Some part of what the readers find differs from the header, or they leave something other than the payload. */
  predicate LostInOrder(h: Header, data: Bytes, payload: Bytes, readCount: PartReader<(int, Bytes)>,
                        readNamespace: PartReader<(Bytes, Bytes)>, readId: PartReader<(Option<nat>, Bytes)>)
  {
    var c := readCount(data);
    c.Err? || c.value.0 != h.attachments ||
    (var n := readNamespace(c.value.1);
     n.Err? || n.value.0 != h.namespace || readId(n.value.1).Err? || readId(n.value.1).value.1 != payload)
  }

  lemma LostInReading(h: Header, data: Bytes, payload: Bytes, readCount: PartReader<(int, Bytes)>,
                      readNamespace: PartReader<(Bytes, Bytes)>, readId: PartReader<(Option<nat>, Bytes)>,
                      readName: PartReader<Bytes>)
    requires LostInOrder(h, data, payload, readCount, readNamespace, readId)
    ensures var r := InOrder(h.ptype, data, readCount, readNamespace, readId, readName);
            r.Err? || r.value.header != h || r.value.payload != payload
  {
  }

  lemma PartsAreLost(h: Header, payload: Bytes)
    requires IdFits(h) && !Unambiguous(h, payload)
    ensures var frame := Encoded(h, payload);
            && frame != [] && frame[0] == ToChar(h.ptype)
            && LostInOrder(Normal(h), frame[1..], payload, CountOf(h.ptype), ParseNamespace, ParseId)
  {
    var d1 := NamespaceText(h) + (IdText(h) + payload);
    assert Encoded(h, payload)[1..] == CountText(h) + d1 by { EncodedParts(h, payload); }
    Assoc(NamespaceText(h), IdText(h), payload);
    if IsBinary(h.ptype) && !(0 <= h.attachments < TWO63 && d1 != []) {
      CountIsLost(h, d1);
    } else {
      CountComesBack(h, d1);
      FrameIsLostAfterCount(h, payload);
    }
  }

  lemma AfterTypeIsLost(h: Header, data: Bytes, payload: Bytes, json: Serializer)
    requires LostInOrder(h, data, payload, CountOf(h.ptype), ParseNamespace, ParseId)
    ensures var r := ParseAfterType(h.ptype, data, json);
            r.Err? || r.value.header != h || r.value.payload != payload
  {
    LostInReading(h, data, payload, CountOf(h.ptype), ParseNamespace, ParseId, NameOf(h.ptype, json));
  }

  /** The frame of an ambiguous packet never parses to that packet. */
  lemma FrameIsLost(h: Header, payload: Bytes, json: Serializer)
    requires IdFits(h) && !Unambiguous(h, payload)
    ensures var r := Parse(Encoded(h, payload), json);
            r.Err? || r.value.header != Normal(h) || r.value.payload != payload
  {
    PartsAreLost(h, payload);
    CharRoundTrip(h.ptype);
    AfterTypeIsLost(Normal(h), Encoded(h, payload)[1..], payload, json);
  }

  lemma FrameIsLostAfterCount(h: Header, payload: Bytes)
    requires IdFits(h) && !Unambiguous(h, payload)
    requires IsBinary(h.ptype) ==> 0 <= h.attachments < TWO63 && NamespaceText(h) + IdText(h) + payload != []
    ensures var n := ParseNamespace(NamespaceText(h) + (IdText(h) + payload));
            n.Err? || n.value.0 != Normal(h).namespace
            || ParseId(n.value.1).Err? || ParseId(n.value.1).value.1 != payload
  {
    var d2 := IdText(h) + payload;
    var slashed := IsRoot(h.namespace) && h.id.None? && payload != [] && payload[0] == SLASH;
    if slashed || !(IsRoot(h.namespace) || (h.namespace[0] == SLASH && COMMA !in h.namespace)) {
      assert h.id.None? ==> d2 == payload;
      NamespaceIsLost(h, d2);
    } else {
      assert IsDigit(payload[0]);
      if h.id.Some? {
        assert d2[0] == Digits(h.id.value)[0];
      } else {
        assert d2 == payload;
      }
      NamespaceComesBack(h, d2);
      IdSwallowsDigits(h, payload);
    }
  }

  /** parseHeader gives back header and payload if and only if the packet is unambiguous and its name can be read. */
  lemma HeaderRoundTrip(h: Header, payload: Bytes, json: Serializer, name: Bytes)
    requires IdFits(h)
    ensures Parse(Encoded(h, payload), json) == Ok(Parsed(Normal(h), payload, name))
       <==> Unambiguous(h, payload) && ParseEventName(h.ptype, payload, json) == Ok(name)
  {
    if Unambiguous(h, payload) {
      FrameComesBack(h, payload, json);
    } else {
      FrameIsLost(h, payload, json);
    }
  }

  // ------------------------------------------------------------------------------------------
  // Event names
  // ------------------------------------------------------------------------------------------

  predicate EndsInBackslash(name: Bytes) {
    name != [] && name[|name| - 1] == BACKSLASH
  }

  /** A payload whose first quote opens the literal of `name`. */
  function NamedPayload(before: Bytes, name: Bytes, after: Bytes): Bytes {
    before + Quote(name) + after
  }

  lemma FirstQuote(before: Bytes, name: Bytes, after: Bytes)
    requires QUOTE !in before
    ensures IndexOf(NamedPayload(before, name, after), QUOTE) == |before| < |NamedPayload(before, name, after)|
  {
    var data := NamedPayload(before, name, after);
    forall j | 0 <= j < |before| ensures data[j] != QUOTE {
      assert data[j] == before[j];
    }
    IndexOfIs(data, QUOTE, |before|);
  }

  /** The event name is what the serializer makes of the literal between the two quotes. */
  lemma ReadLiteral(t: PacketType, data: Bytes, start: nat, end: nat, json: Serializer)
    requires IsEvent(t) && start == IndexOf(data, QUOTE) < |data| && end == EndQuote(data, start + 1)
    ensures ParseEventName(t, data, json) ==
            if end == |data| then Err(Malformed)
            else match json([OPEN] + data[start..end + 1] + [CLOSE])
              case None => Err(BadName)
              case Some(n) => Ok(n)
  {
  }

  lemma NameIsScanned(t: PacketType, before: Bytes, name: Bytes, after: Bytes, json: Serializer)
    requires IsEvent(t) && QUOTE !in before && !EndsInBackslash(name)
    ensures ParseEventName(t, NamedPayload(before, name, after), json) ==
            match json([OPEN] + Quote(name) + [CLOSE])
            case None => Err(BadName)
            case Some(n) => Ok(n)
  {
    var data := NamedPayload(before, name, after);
    var start := |before|;
    var end := start + 1 + |Escape(name)|;
    FirstQuote(before, name, after);
    ScanPassesEscapes(before, name, after);
    assert data[end] == QUOTE;
    if name != [] {
      LastIsBackslash(name);
    }
    EndQuoteIs(data, start + 1, end);
    assert data[start..end + 1] == Quote(name);
    ReadLiteral(t, data, start, end, json);
  }

  /** No position inside the literal stops the scan for the closing quote. */
  lemma ScanPassesEscapes(before: Bytes, name: Bytes, after: Bytes)
    ensures var data := NamedPayload(before, name, after);
            forall j | |before| < j <= |before| + |Escape(name)| :: !(data[j] == QUOTE && data[j - 1] != BACKSLASH)
  {
    var data := NamedPayload(before, name, after);
    forall j | |before| < j <= |before| + |Escape(name)| ensures !(data[j] == QUOTE && data[j - 1] != BACKSLASH) {
      var i := j - |before| - 1;
      assert data[j] == Escape(name)[i];
      if data[j] == QUOTE {
        QuotesAreEscaped(name, i);
        assert data[j - 1] == Escape(name)[i - 1];
      }
    }
  }

  lemma LongerThanLiteral(name: Bytes, tail: Bytes)
    requires tail != []
    ensures SingleString([OPEN] + (Quote(name) + tail) + [CLOSE]) == None
  {
    var text := [OPEN] + (Quote(name) + tail) + [CLOSE];
    assert text[2..] == Escape(name) + [QUOTE] + (tail + [CLOSE]);
    ReadQuoted(name, tail + [CLOSE]);
  }

  /** The scan runs past the closing quote of a name that ends in a backslash. */
  lemma ScanOverruns(before: Bytes, name: Bytes, after: Bytes)
    requires EndsInBackslash(name)
    ensures EndQuote(NamedPayload(before, name, after), |before| + 1) > |before| + 1 + |Escape(name)|
  {
    var data := NamedPayload(before, name, after);
    var close := |before| + 1 + |Escape(name)|;
    ScanPassesEscapes(before, name, after);
    LastIsBackslash(name);
    assert data[close - 1] == Escape(name)[|Escape(name)| - 1];
  }

  /** A scan that goes too far, into text the serializer refuses. */
  lemma LiteralRefused(t: PacketType, data: Bytes, start: nat, least: nat, json: Serializer)
    requires IsEvent(t) && start == IndexOf(data, QUOTE) < |data| && EndQuote(data, start + 1) >= least >= start
    requires forall to | least < to <= |data| :: json([OPEN] + data[start..to] + [CLOSE]) == None
    ensures ParseEventName(t, data, json).Err?
  {
    ReadLiteral(t, data, start, EndQuote(data, start + 1), json);
  }

  lemma LongerSlice(before: Bytes, literal: Bytes, after: Bytes, to: nat)
    requires |before| + |literal| < to <= |before| + |literal| + |after|
    ensures var k := to - |before| - |literal|;
            (before + literal + after)[|before|..to] == literal + after[..k]
  {
  }

  /** A serializer that refuses what follows the literal refuses the name. */
  lemma OverrunRefused(t: PacketType, before: Bytes, name: Bytes, after: Bytes, json: Serializer)
    requires IsEvent(t) && QUOTE !in before && EndsInBackslash(name)
    requires forall k | 0 < k <= |after| :: json([OPEN] + (Quote(name) + after[..k]) + [CLOSE]) == None
    ensures ParseEventName(t, NamedPayload(before, name, after), json).Err?
  {
    var data, least := NamedPayload(before, name, after), |before| + |Quote(name)|;
    FirstQuote(before, name, after);
    ScanOverruns(before, name, after);
    forall to | least < to <= |data| ensures json([OPEN] + data[|before|..to] + [CLOSE]) == None {
      LongerSlice(before, Quote(name), after, to);
    }
    LiteralRefused(t, data, |before|, least, json);
  }

  lemma NameIsOverrun(t: PacketType, before: Bytes, name: Bytes, after: Bytes)
    requires IsEvent(t) && QUOTE !in before && EndsInBackslash(name)
    ensures ParseEventName(t, NamedPayload(before, name, after), SingleString).Err?
  {
    forall k | 0 < k <= |after| ensures SingleString([OPEN] + (Quote(name) + after[..k]) + [CLOSE]) == None {
      LongerThanLiteral(name, after[..k]);
    }
    OverrunRefused(t, before, name, after, SingleString);
  }

  /** The quote scan recovers an event name if and only if the name does not end in a backslash. */
  lemma EventNameRoundTrip(t: PacketType, before: Bytes, name: Bytes, after: Bytes)
    requires IsEvent(t) && QUOTE !in before
    ensures ParseEventName(t, NamedPayload(before, name, after), SingleString) == Ok(name) <==> !EndsInBackslash(name)
  {
    if EndsInBackslash(name) {
      NameIsOverrun(t, before, name, after);
    } else {
      NameIsScanned(t, before, name, after, SingleString);
      SingleStringOfQuoted(name);
    }
  }
}
