/**
 * Packets as frames: Encode turns a header and a value into one text frame and its attachments
 * (parser/json/encode.go), and Parser.Add puts packets together again from frames arriving one
 * at a time (parser/json/decode.go).
 */
module FrameParser {
  import opened Prelude
  import opened JsonName
  import opened SocketHeader
  import opened HeaderRoundTrip

  datatype Reconstructor =
    Reconstructor(header: Header, eventName: Bytes, buffers: seq<Bytes>, remaining: int)

  /** What the finish callback is given; decoding works on the buffers. */
  datatype Finished = Finished(header: Header, eventName: Bytes, buffers: seq<Bytes>)

  datatype AddError = BadHeader(why: ParseError) | TooManyAttachments

  /** The effect of one Add: the next value of field r, the finish call if any, the error if any. */
  datatype Step = Step(r: Option<Reconstructor>, finished: Option<Finished>, error: Option<AddError>)

  /** The header parser a run uses; the results about runs hold of any, the ones about packets of Reader(json). */
  type HeaderParser = Bytes -> Result<Parsed, ParseError>

  function Reader(json: Serializer): HeaderParser {
    (data: Bytes) => Parse(data, json)
  }

  function AddStep(r: Option<Reconstructor>, data: Bytes, max: int, parse: HeaderParser): Step {
    match r
    case None =>
      (match parse(data)
       case Err(e) => Step(None, None, Some(BadHeader(e)))
       case Ok(Parsed(header, payload, name)) =>
         if max > 0 && header.attachments > max then
           Step(Some(Reconstructor(header, name, [payload], header.attachments)), None, Some(TooManyAttachments))
         else if !IsBinary(header.ptype) || header.attachments == 0 then
           Step(None, Some(Finished(header, name, [payload])), None)
         else
           Step(Some(Reconstructor(header, name, [payload], header.attachments)), None, None))
    case Some(Reconstructor(header, name, buffers, remaining)) =>
      if remaining - 1 == 0 then Step(None, Some(Finished(header, name, buffers + [data])), None)
      else Step(Some(Reconstructor(header, name, buffers + [data], remaining - 1)), None, None)
  }

  class Parser {
    var r: Option<Reconstructor>
    const maxAttachments: int
    const json: Serializer

    constructor (maxAttachments: int, json: Serializer)
      ensures r == None && this.maxAttachments == maxAttachments && this.json == json
    {
      r := None;
      this.maxAttachments := maxAttachments;
      this.json := json;
    }

    method Reset()
      modifies this`r
      ensures r == None
    {
      r := None;
    }

    /** Add: `finished` is the finish call it makes, if it makes one. */
    method Add(data: Bytes) returns (finished: Option<Finished>, error: Option<AddError>)
      modifies this`r
      ensures Step(r, finished, error) == AddStep(old(r), data, maxAttachments, Reader(json))
    {
      finished, error := None, None;
      if r == None {
        var parsed := ParseHeader(data, json);
        if parsed.Err? {
          error := Some(BadHeader(parsed.error));
          return;
        }
        var header := parsed.value.header;
        r := Some(Reconstructor(header, parsed.value.eventName, [parsed.value.payload], header.attachments));
        if maxAttachments > 0 && header.attachments > maxAttachments {
          error := Some(TooManyAttachments);
          return;
        }
        if !IsBinary(header.ptype) || header.attachments == 0 {
          var done := r.value;
          r := None;
          finished := Some(Finished(header, done.eventName, done.buffers));
        }
        return;
      }
      var open := r.value;
      open := open.(buffers := open.buffers + [data], remaining := open.remaining - 1);
      r := Some(open);
      if open.remaining == 0 {
        r := None;
        finished := Some(Finished(open.header, open.eventName, open.buffers));
      }
    }
  }

  /** A whole run of Add: the final field r, the finish calls in order, and how many calls failed. */
  datatype Run = Run(r: Option<Reconstructor>, finished: seq<Finished>, errors: nat)

  function Feed(r: Option<Reconstructor>, frames: seq<Bytes>, max: int, parse: HeaderParser): Run
    decreases |frames|
  {
    if frames == [] then Run(r, [], 0)
    else
      var s := AddStep(r, frames[0], max, parse);
      var rest := Feed(s.r, frames[1..], max, parse);
      Run(rest.r,
          (if s.finished.Some? then [s.finished.value] else []) + rest.finished,
          (if s.error.Some? then 1 else 0) + rest.errors)
  }

  lemma {:induction false} FeedAppend(r: Option<Reconstructor>, f1: seq<Bytes>, f2: seq<Bytes>, max: int,
                                      parse: HeaderParser)
    ensures var a := Feed(r, f1, max, parse);
            var b := Feed(a.r, f2, max, parse);
            Feed(r, f1 + f2, max, parse) == Run(b.r, a.finished + b.finished, a.errors + b.errors)
    decreases |f1|
  {
    if f1 == [] {
      assert f1 + f2 == f2;
    } else {
      assert (f1 + f2)[1..] == f1[1..] + f2;
      var s := AddStep(r, f1[0], max, parse);
      FeedAppend(s.r, f1[1..], f2, max, parse);
      var a := Feed(s.r, f1[1..], max, parse);
      Assoc(if s.finished.Some? then [s.finished.value] else [], a.finished, Feed(a.r, f2, max, parse).finished);
    }
  }

  // ------------------------------------------------------------------------------------------
  // What every run keeps, on any frames at all
  // ------------------------------------------------------------------------------------------

  /** The account of an open packet; a count of 2^63 or more reads as a negative int. */
  ghost predicate Balanced(r: Option<Reconstructor>) {
    r.Some? ==>
      && |r.value.buffers| + r.value.remaining == 1 + r.value.header.attachments
      && |r.value.buffers| >= 1
      && IsBinary(r.value.header.ptype)
      && r.value.remaining != 0
      && (r.value.header.attachments >= 0 ==> r.value.remaining >= 1)
  }

  /** A finished packet has all its attachments, and only a binary packet has any. */
  ghost predicate Complete(f: Finished) {
    |f.buffers| == 1 + f.header.attachments && (!IsBinary(f.header.ptype) ==> f.header.attachments == 0)
  }

  /** Only a binary header carries a count. */
  ghost predicate CountsBinary(parse: HeaderParser) {
    forall data | parse(data).Ok? && !IsBinary(parse(data).value.header.ptype) ::
      parse(data).value.header.attachments == 0
  }

  lemma ReaderCountsBinary(json: Serializer)
    ensures CountsBinary(Reader(json))
  {
    forall data: Bytes | Reader(json)(data).Ok? && !IsBinary(Reader(json)(data).value.header.ptype)
      ensures Reader(json)(data).value.header.attachments == 0 {
    }
  }

  lemma AddKeepsBalance(r: Option<Reconstructor>, data: Bytes, max: int, parse: HeaderParser)
    requires Balanced(r) && CountsBinary(parse)
    ensures var s := AddStep(r, data, max, parse);
            Balanced(s.r) && (s.finished.Some? ==> Complete(s.finished.value))
  {
    if r.None? && parse(data).Ok? {
      assert !IsBinary(parse(data).value.header.ptype) ==> parse(data).value.header.attachments == 0;
    }
  }

  lemma {:induction false} FeedKeepsBalance(r: Option<Reconstructor>, frames: seq<Bytes>, max: int, parse: HeaderParser)
    requires Balanced(r) && CountsBinary(parse)
    ensures var run := Feed(r, frames, max, parse);
            Balanced(run.r) && forall i | 0 <= i < |run.finished| :: Complete(run.finished[i])
    decreases |frames|
  {
    if frames != [] {
      AddKeepsBalance(r, frames[0], max, parse);
      FeedKeepsBalance(AddStep(r, frames[0], max, parse).r, frames[1..], max, parse);
    }
  }

  /** The attachment frames each packet needs are counted exactly: a run uses up every frame it is given. */
  function Used(fs: seq<Finished>): nat {
    if fs == [] then 0 else |fs[0].buffers| + Used(fs[1..])
  }

  function OpenSize(r: Option<Reconstructor>): nat {
    if r.None? then 0 else |r.value.buffers|
  }

  ghost predicate NoBadHeader(r: Option<Reconstructor>, frames: seq<Bytes>, max: int, parse: HeaderParser)
    decreases |frames|
  {
    frames == [] ||
    (var s := AddStep(r, frames[0], max, parse);
     !(s.error.Some? && s.error.value.BadHeader?) && NoBadHeader(s.r, frames[1..], max, parse))
  }

  lemma UsedMore(f: Option<Finished>, rest: seq<Finished>)
    ensures f.Some? ==> Used([f.value] + rest) == |f.value.buffers| + Used(rest)
    ensures f.None? ==> Used([] + rest) == Used(rest)
  {
    assert f.Some? ==> ([f.value] + rest)[1..] == rest;
    assert [] + rest == rest;
  }

  /** One frame joins the open packet, or the one it finishes. */
  lemma OneFrame(r: Option<Reconstructor>, data: Bytes, max: int, parse: HeaderParser)
    requires var s := AddStep(r, data, max, parse); !(s.error.Some? && s.error.value.BadHeader?)
    ensures var s := AddStep(r, data, max, parse);
            OpenSize(r) + 1 == (if s.finished.Some? then |s.finished.value.buffers| else 0) + OpenSize(s.r)
  {
  }

  /** No frame is dropped or counted twice: frames in = buffers finished + buffers still held. */
  lemma {:induction false} FramesAreConserved(r: Option<Reconstructor>, frames: seq<Bytes>, max: int,
                                              parse: HeaderParser)
    requires NoBadHeader(r, frames, max, parse)
    ensures var run := Feed(r, frames, max, parse);
            OpenSize(r) + |frames| == Used(run.finished) + OpenSize(run.r)
    decreases |frames|
  {
    if frames != [] {
      var s := AddStep(r, frames[0], max, parse);
      FramesAreConserved(s.r, frames[1..], max, parse);
      UsedMore(s.finished, Feed(s.r, frames[1..], max, parse).finished);
      OneFrame(r, frames[0], max, parse);
    }
  }

  /** From a new parser, on any frames: the open packet balances and every finished one is complete. */
  lemma EveryRunBalances(frames: seq<Bytes>, max: int, json: Serializer)
    ensures var run := Feed(None, frames, max, Reader(json));
            Balanced(run.r) && forall i | 0 <= i < |run.finished| :: Complete(run.finished[i])
  {
    ReaderCountsBinary(json);
    FeedKeepsBalance(None, frames, max, Reader(json));
  }

  // ------------------------------------------------------------------------------------------
  // Streams of encoded packets
  // ------------------------------------------------------------------------------------------

  datatype Packet = Packet(header: Header, payload: Bytes, attachments: seq<Bytes>, name: Bytes)

  function Frames(p: Packet): seq<Bytes> {
    [Encoded(p.header, p.payload)] + p.attachments
  }

  function FinishOf(p: Packet): Finished {
    Finished(Normal(p.header), p.name, [p.payload] + p.attachments)
  }

  /** A packet the encoder can have produced under the limit, with a readable event name. */
  ghost predicate Sendable(p: Packet, max: int, json: Serializer) {
    && IdFits(p.header) && Unambiguous(p.header, p.payload)
    && ParseEventName(p.header.ptype, p.payload, json) == Ok(p.name)
    && |p.attachments| == (if IsBinary(p.header.ptype) then p.header.attachments else 0)
    && (max > 0 ==> |p.attachments| <= max)
  }

  /** Attachments are collected in order until the last one finishes the packet. */
  lemma {:induction false} FeedAttachments(r: Reconstructor, rest: seq<Bytes>, max: int, parse: HeaderParser)
    requires r.remaining == |rest| > 0
    ensures Feed(Some(r), rest, max, parse) == Run(None, [Finished(r.header, r.eventName, r.buffers + rest)], 0)
    decreases |rest|
  {
    var s := AddStep(Some(r), rest[0], max, parse);
    if |rest| == 1 {
      assert rest == [rest[0]] && rest[1..] == [];
      assert Feed(s.r, rest[1..], max, parse) == Run(None, [], 0);
    } else {
      var r' := s.r.value;
      FeedAttachments(r', rest[1..], max, parse);
      assert r'.buffers + rest[1..] == r.buffers + rest;
      assert s.finished == None && s.error == None;
    }
  }

  /**
   * A packet refused for its attachment count is delivered all the same: Add has already opened
   * it, so unless Reset follows, the next frames, headers included, complete it (decode.go:30-40).
   */
  /** Add fails on a header it cannot read or whose count is over the limit, and on nothing else. */
  lemma AddFailsExactly(r: Option<Reconstructor>, data: Bytes, max: int, parse: HeaderParser)
    ensures var s := AddStep(r, data, max, parse);
            && (forall e :: s.error == Some(BadHeader(e)) <==> r.None? && parse(data) == Err(e))
            && (s.error == Some(TooManyAttachments)
                <==> r.None? && parse(data).Ok? && 0 < max < parse(data).value.header.attachments)
            && (s.error.None? ==> s.r.Some? || s.finished.Some?)
  {
  }

  lemma RefusedPacketIsDelivered(data: Bytes, rest: seq<Bytes>, max: int, parse: HeaderParser)
    requires AddStep(None, data, max, parse).error == Some(TooManyAttachments)
    requires |rest| == parse(data).value.header.attachments
    ensures var p := parse(data).value;
            Feed(None, [data] + rest, max, parse) == Run(None, [Finished(p.header, p.eventName, [p.payload] + rest)], 1)
  {
    var p := parse(data).value;
    var r := AddStep(None, data, max, parse).r.value;
    assert ([data] + rest)[1..] == rest;
    FeedAttachments(r, rest, max, parse);
  }

  lemma FeedPacket(p: Packet, max: int, json: Serializer)
    requires Sendable(p, max, json)
    ensures Feed(None, Frames(p), max, Reader(json)) == Run(None, [FinishOf(p)], 0)
  {
    var frames := Frames(p);
    FrameComesBack(p.header, p.payload, json);
    var s := AddStep(None, frames[0], max, Reader(json));
    assert frames[1..] == p.attachments;
    if p.attachments == [] {
      assert Feed(s.r, frames[1..], max, Reader(json)) == Run(None, [], 0);
      assert [p.payload] + p.attachments == [p.payload];
    } else {
      FeedAttachments(s.r.value, p.attachments, max, Reader(json));
    }
  }

  function Stream(ps: seq<Packet>): seq<Bytes> {
    Flatten(seq(|ps|, i requires 0 <= i < |ps| => Frames(ps[i])))
  }

  function Finishes(ps: seq<Packet>): seq<Finished> {
    seq(|ps|, i requires 0 <= i < |ps| => FinishOf(ps[i]))
  }

  lemma FeedBoth(f1: seq<Bytes>, out1: seq<Finished>, f2: seq<Bytes>, out2: seq<Finished>, max: int,
                 parse: HeaderParser)
    requires Feed(None, f1, max, parse) == Run(None, out1, 0) && Feed(None, f2, max, parse) == Run(None, out2, 0)
    ensures Feed(None, f1 + f2, max, parse) == Run(None, out1 + out2, 0)
  {
    FeedAppend(None, f1, f2, max, parse);
  }

  lemma {:induction false} FeedMany(groups: seq<seq<Bytes>>, outs: seq<Finished>, max: int, parse: HeaderParser)
    requires |groups| == |outs|
    requires forall i | 0 <= i < |groups| :: Feed(None, groups[i], max, parse) == Run(None, [outs[i]], 0)
    ensures Feed(None, Flatten(groups), max, parse) == Run(None, outs, 0)
  {
    if groups != [] {
      FeedMany(groups[1..], outs[1..], max, parse);
      FeedBoth(groups[0], [outs[0]], Flatten(groups[1..]), outs[1..], max, parse);
      assert outs == [outs[0]] + outs[1..];
    }
  }

  /** Any sequence of packets, sent as one stream of frames, is finished once each, in order, intact. */
  lemma StreamReassembly(ps: seq<Packet>, max: int, json: Serializer)
    requires forall i | 0 <= i < |ps| :: Sendable(ps[i], max, json)
    ensures Feed(None, Stream(ps), max, Reader(json)) == Run(None, Finishes(ps), 0)
  {
    var groups := seq(|ps|, i requires 0 <= i < |ps| => Frames(ps[i]));
    forall i | 0 <= i < |ps| ensures Feed(None, groups[i], max, Reader(json)) == Run(None, [Finishes(ps)[i]], 0) {
      FeedPacket(ps[i], max, json);
    }
    FeedMany(groups, Finishes(ps), max, Reader(json));
  }
}
