/**
 * The receiver's half of the binary codec (parser/json/binary.go): walk the tree that JSON
 * decoding built in the handler's arguments and put the attachments back.
 */
module Reconstruct {
  import opened Prelude
  import opened ValueTree
  import opened Deconstruct

  datatype Problem =
    | NoSuchAttachment  // errInvalidPlaceholderNumValue
    | NotAPlaceholder   // a Binary argument whose JSON text is not a placeholder
    | CannotSet         // errNonSettableValue
    | WrongPointer      // reflect panics: a *Binary is stored where another type is expected

  /** buffers[0] is the JSON payload, so attachment k is buffers[k + 1] (binary.go:382-388). */
  function Attachment(k: nat, buffers: seq<Bytes>): Result<Bytes, Problem> {
    if k + 1 >= |buffers| then Err(NoSuchAttachment) else Ok(buffers[k + 1])
  }

  function BinaryAttachment(p: Payload, buffers: seq<Bytes>): Result<Bytes, Problem> {
    match p
    case Raw(_) => Err(NotAPlaceholder)
    case Placeholder(k) => Attachment(k, buffers)
  }

  function Unbox(v: Value): Value {
    if v.Box? then v.boxed else v
  }

  /** The two-key map that a placeholder becomes when decoded into an interface (binary.go:459-510). */
  function UntypedPlaceholder(v: Value): Option<nat>
    requires v.Map?
  {
    if |v.keys| != 2 || |v.entries| != 2 then None
    else if v.keys[0] == PLACEHOLDER_KEY && v.keys[1] == NUM_KEY then PlaceholderNumber(v.entries[0], v.entries[1])
    else if v.keys[1] == PLACEHOLDER_KEY && v.keys[0] == NUM_KEY then PlaceholderNumber(v.entries[1], v.entries[0])
    else None
  }

  function PlaceholderNumber(flag: Value, num: Value): Option<nat> {
    if Unbox(flag) != Scalar(Bool(true)) then None
    else match Unbox(num)
      case Scalar(Num(n)) => Some(n)
      case _ => None
  }

  /** reconstructValue: the tree after the walk, or the first error. */
  function Recon(w: Value, settable: bool, buffers: seq<Bytes>): Result<Value, Problem>
    decreases w, 0
  {
    var core := Core(w);
    if core.Binary? then
      match BinaryAttachment(core.payload, buffers)
      case Err(e) => Err(e)
      case Ok(data) =>
        if CoreSettable(w, settable) then Ok(RewrapCore(w, Binary(Raw(data))))
        else if !settable then Err(CannotSet)
        else if w.Box? then Ok(Box(Ptr(Binary(Raw(data)))))
        else Err(WrongPointer)
    else if IsContainer(core) then
      match ReconSeq(ReconSite(w, settable), Children(core), buffers)
      case Err(e) => Err(e)
      case Ok(vs) => Ok(RewrapCore(w, WithChildren(core, vs)))
    else Ok(w)
  }

  function ReconSite(w: Value, settable: bool): Site {
    match Core(w)
    case Struct(_, _) => InStruct(CoreSettable(w, settable))
    case Map(_, _) => InMap
    case _ => InSlice
  }

  /** One child: a slice element, a struct field (reconstructStruct) or a map value (reconstructMap). */
  function ReconAt(site: Site, w: Value, buffers: seq<Bytes>): Result<Value, Problem>
    decreases w, 1
  {
    var x := Elem(w);
    match site
    case InSlice => Recon(w, true, buffers)
    case InStruct(settable) => WrapOk(w, Recon(x, ElemSettable(w, settable), buffers))
    case InMap =>
      if x.Map? && w.Box? && UntypedPlaceholder(x).Some? then
        match Attachment(UntypedPlaceholder(x).value, buffers)
        case Err(e) => Err(e)
        case Ok(data) => Ok(Box(PlainBytes(data)))
      else if x.Binary? then
        match BinaryAttachment(x.payload, buffers)
        case Err(e) => Err(e)
        case Ok(data) =>
          if w.Box? then Ok(Box(Ptr(Binary(Raw(data)))))
          else if w.Ptr? then Ok(Ptr(Binary(Raw(data))))
          else Err(WrongPointer)
      else if x.PlainBytes? || x.Slice? || x.OtherSlice? then Ok(w)
      else WrapOk(w, Recon(x, w.Ptr?, buffers))
  }

  function WrapOk(w: Value, r: Result<Value, Problem>): Result<Value, Problem> {
    match r
    case Ok(x) => Ok(Rewrap(w, x))
    case Err(e) => r
  }

  function ReconSeq(site: Site, ws: seq<Value>, buffers: seq<Bytes>): (r: Result<seq<Value>, Problem>)
    ensures r.Ok? ==> |r.value| == |ws|
    decreases ws, 2
  {
    if ws == [] then Ok([])
    else
      match ReconAt(site, ws[0], buffers)
      case Err(e) => Err(e)
      case Ok(w') =>
        match ReconSeq(site, ws[1..], buffers)
        case Err(e) => Err(e)
        case Ok(rest) => Ok([w'] + rest)
  }

  /**
   * Every placeholder in the tree is where the walk can see it and write it: a Binary that is
   * assignable, or a value of a map[string]any.  A list that is a map value, a list of maps, a
   * value under a third wrapper and an untyped placeholder anywhere else must hold none.
   */
  predicate Fillable(w: Value, settable: bool)
    decreases w, 0
  {
    var core := Core(w);
    if core.Binary? then core.payload.Placeholder? && (CoreSettable(w, settable) || (settable && w.Box?))
    else if IsContainer(core) then
      !PlaceholderShaped(core) && FillableSeq(ReconSite(w, settable), Children(core))
    else HoleFree(Content(w))
  }

  predicate FillableAt(site: Site, w: Value)
    decreases w, 1
  {
    var x := Elem(w);
    match site
    case InSlice => Fillable(w, true)
    case InStruct(settable) => Fillable(x, ElemSettable(w, settable))
    case InMap =>
      if x.Map? && w.Box? && UntypedPlaceholder(x).Some? then true
      else if x.Binary? then x.payload.Placeholder? && Wrapped(w)
      else if x.Slice? || x.OtherSlice? then HoleFree(Content(x))
      else Fillable(x, w.Ptr?)
  }

  predicate FillableSeq(site: Site, ws: seq<Value>)
    decreases ws, 2
  {
    ws == [] || (FillableAt(site, ws[0]) && FillableSeq(site, ws[1..]))
  }

  /** Maps and structs name each child once. */
  predicate WellFormed(w: Value) {
    match w
    case Struct(_, fields) => NamesOnce(w) && forall i | 0 <= i < |fields| :: WellFormed(fields[i])
    case Map(_, entries) => NamesOnce(w) && forall i | 0 <= i < |entries| :: WellFormed(entries[i])
    case Slice(es) => forall i | 0 <= i < |es| :: WellFormed(es[i])
    case OtherSlice(es) => forall i | 0 <= i < |es| :: WellFormed(es[i])
    case Box(x) => WellFormed(x)
    case Ptr(x) => WellFormed(x)
    case _ => true
  }

  predicate NamesOnce(w: Value) {
    match w
    case Struct(names, fields) => Distinct(names) && |names| == |fields|
    case Map(keys, entries) => Distinct(keys) && |keys| == |entries|
    case _ => true
  }

  predicate Distinct(keys: seq<string>) {
    forall i, j | 0 <= i < j < |keys| :: keys[i] != keys[j]
  }

  lemma {:induction false} MemberOf(keys: seq<string>, vs: seq<Value>, i: nat)
    requires Distinct(keys) && |keys| == |vs| && i < |vs|
    ensures keys[i] in Members(keys, vs) && Members(keys, vs)[keys[i]] == Content(vs[i])
  {
    if i > 0 {
      MemberOf(keys[1..], vs[1..], i - 1);
    }
  }

  lemma HolesOfSlice(vs: seq<Value>, n: nat)
    ensures HolesBelow(JArray(Contents(vs)), n) <==> forall i | 0 <= i < |vs| :: HolesBelow(Content(vs[i]), n)
  {
    forall i | 0 <= i < |vs| ensures Contents(vs)[i] == Content(vs[i]) {
      ContentsAt(vs, i);
    }
  }

  lemma HolesOfObject(keys: seq<string>, vs: seq<Value>, n: nat)
    requires Distinct(keys) && |keys| == |vs|
    ensures HolesBelow(JObject(Members(keys, vs)), n) <==> forall i | 0 <= i < |vs| :: HolesBelow(Content(vs[i]), n)
  {
    var m := Members(keys, vs);
    if HolesBelow(JObject(m), n) {
      forall i | 0 <= i < |vs| ensures HolesBelow(Content(vs[i]), n) {
        MemberOf(keys, vs, i);
      }
    }
    if forall i | 0 <= i < |vs| :: HolesBelow(Content(vs[i]), n) {
      forall k | k in m ensures HolesBelow(m[k], n) {
        var i := MembersAt(keys, vs, k);
      }
    }
  }

  /** A container's document has its placeholders in range exactly when its children's have. */
  lemma HolesOfContainer(x: Value, n: nat)
    requires IsContainer(x) && NamesOnce(x) && !PlaceholderShaped(x)
    ensures HolesBelow(Content(x), n) <==>
            forall i | 0 <= i < |Children(x)| :: HolesBelow(Content(Children(x)[i]), n)
  {
    if x.Slice? {
      HolesOfSlice(Children(x), n);
    } else {
      HolesOfObject(if x.Struct? then x.names else x.keys, Children(x), n);
    }
  }

  lemma UntypedContent(x: Value)
    requires x.Map? && UntypedPlaceholder(x).Some?
    ensures Content(x) == JHole(UntypedPlaceholder(x).value)
  {
    var k0, k1, e0, e1 := x.keys[0], x.keys[1], x.entries[0], x.entries[1];
    assert k0 != k1 by {
      assert |PLACEHOLDER_KEY| != |NUM_KEY|;
    }
    assert x.keys[1..] == [k1] && x.entries[1..] == [e1];
    assert Members([k1], [e1]) == map[k1 := Content(e1)];
    assert Members(x.keys, x.entries) == map[k1 := Content(e1)][k0 := Content(e0)];
    assert Content(Unbox(e0)) == Content(e0) && Content(Unbox(e1)) == Content(e1);
  }

  // ------------------------------------------------------------------------------------------
  // On a fillable tree the walk is exactly Fill, or exactly the out-of-range error.
  // ------------------------------------------------------------------------------------------

  /** r is the outcome of filling w with the attachments. */
  ghost predicate Fills(w: Value, r: Result<Value, Problem>, attachments: seq<Bytes>) {
    match r
    case Ok(w') => HolesBelow(Content(w), |attachments|) && Content(w') == Fill(Content(w), attachments)
    case Err(e) => e == NoSuchAttachment && !HolesBelow(Content(w), |attachments|)
  }

  lemma {:induction false} ReconFills(w: Value, settable: bool, payload: Bytes, attachments: seq<Bytes>)
    requires WellFormed(w) && Fillable(w, settable)
    ensures Fills(w, Recon(w, settable, [payload] + attachments), attachments)
    decreases w, 0
  {
    var buffers := [payload] + attachments;
    var core := Core(w);
    WellFormedCore(w);
    ContentOfCore(w, Nil);
    if core.Binary? {
      ReconFillsBinary(w, settable, payload, attachments);
    } else if IsContainer(core) {
      var site := ReconSite(w, settable);
      ReconFillsSeq(site, Children(core), payload, attachments);
      HolesOfContainer(core, |attachments|);
      match ReconSeq(site, Children(core), buffers)
      case Err(_) =>
      case Ok(vs) =>
        FillContainer(core, WithChildren(core, vs), attachments);
        ContentOfCore(w, WithChildren(core, vs));
    } else {
      FillHoleFree(Content(w), attachments);
      HolesMonotone(Content(w), 0, |attachments|);
    }
  }

  lemma ReconFillsBinary(w: Value, settable: bool, payload: Bytes, attachments: seq<Bytes>)
    requires Core(w).Binary? && Fillable(w, settable)
    ensures Fills(w, Recon(w, settable, [payload] + attachments), attachments)
  {
    ContentOfCore(w, Nil);
    var k := Core(w).payload.num;
    if k < |attachments| {
      var b := Binary(Raw(attachments[k]));
      ContentOfCore(w, b);
      assert Content(Ptr(b)) == Content(b);
    }
  }

  lemma {:induction false} ReconFillsAt(site: Site, w: Value, payload: Bytes, attachments: seq<Bytes>)
    requires WellFormed(w) && FillableAt(site, w)
    ensures Fills(w, ReconAt(site, w, [payload] + attachments), attachments)
    decreases w, 1
  {
    var x := Elem(w);
    var buffers := [payload] + attachments;
    ContentOfCore(w, Nil);
    if site.InSlice? {
      ReconFills(w, true, payload, attachments);
    } else if site.InMap? && x.Map? && w.Box? && UntypedPlaceholder(x).Some? {
      UntypedContent(x);
    } else if site.InMap? && x.Binary? {
      var k := x.payload.num;
      if k < |attachments| {
        assert Content(Ptr(Binary(Raw(attachments[k])))) == JBlob(attachments[k]);
      }
    } else if site.InMap? && (x.PlainBytes? || x.Slice? || x.OtherSlice?) {
      FillHoleFree(Content(w), attachments);
      HolesMonotone(Content(w), 0, |attachments|);
    } else {
      var settable := if site.InMap? then w.Ptr? else ElemSettable(w, site.settable);
      WellFormedCore(w);
      ReconFills(x, settable, payload, attachments);
      if Recon(x, settable, buffers).Ok? {
        ContentOfCore(w, Recon(x, settable, buffers).value);
      }
    }
  }

  lemma {:induction false} ReconFillsSeq(site: Site, ws: seq<Value>, payload: Bytes, attachments: seq<Bytes>)
    requires (forall i | 0 <= i < |ws| :: WellFormed(ws[i])) && FillableSeq(site, ws)
    ensures match ReconSeq(site, ws, [payload] + attachments)
            case Ok(ws') => forall i | 0 <= i < |ws| :: Fills(ws[i], Ok(ws'[i]), attachments)
            case Err(e) => e == NoSuchAttachment && exists i | 0 <= i < |ws| :: Fills(ws[i], Err(e), attachments)
    decreases ws, 2
  {
    if ws != [] {
      var buffers := [payload] + attachments;
      ReconFillsAt(site, ws[0], payload, attachments);
      ReconFillsSeq(site, ws[1..], payload, attachments);
      var rest := ReconSeq(site, ws[1..], buffers);
      if ReconAt(site, ws[0], buffers).Ok? && rest.Err? {
        var i :| 0 <= i < |ws[1..]| && Fills(ws[1..][i], Err(rest.error), attachments);
        assert Fills(ws[i + 1], Err(rest.error), attachments);
      }
    }
  }

  lemma {:induction false} HolesMonotone(j: Json, m: nat, n: nat)
    requires HolesBelow(j, m) && m <= n
    ensures HolesBelow(j, n)
  {
    match j
    case JArray(items) =>
      forall i | 0 <= i < |items| ensures HolesBelow(items[i], n) {
        HolesMonotone(items[i], m, n);
      }
    case JObject(o) =>
      forall k | k in o ensures HolesBelow(o[k], n) {
        HolesMonotone(o[k], m, n);
      }
    case _ =>
  }

  lemma WellFormedCore(w: Value)
    requires WellFormed(w)
    ensures WellFormed(Elem(w)) && WellFormed(Core(w))
    ensures IsContainer(Core(w)) ==> forall i | 0 <= i < |Children(Core(w))| :: WellFormed(Children(Core(w))[i])
  {
  }

  // ------------------------------------------------------------------------------------------
  // On any other tree the walk leaves a placeholder behind, or fails.
  // ------------------------------------------------------------------------------------------

  lemma {:induction false} ReconKeepsAtoms(site: Site, w: Value, buffers: seq<Bytes>)
    requires Content(w).JAtom? && ReconAt(site, w, buffers).Ok?
    ensures Content(ReconAt(site, w, buffers).value) == Content(w)
  {
    ContentOfCore(w, Nil);
    ContentOfCore(Elem(w), Nil);
    var x := Elem(w);
    assert !x.Map?;
    assert !Core(w).Binary? && !IsContainer(Core(w)) && !Core(x).Binary? && !IsContainer(Core(x));
    ContentOfCore(w, x);
  }

  lemma {:induction false} ReconFinds(w: Value, settable: bool, buffers: seq<Bytes>)
    requires WellFormed(w) && Recon(w, settable, buffers).Ok?
    requires HoleFree(Content(Recon(w, settable, buffers).value))
    ensures Fillable(w, settable)
    decreases w, 0
  {
    var core := Core(w);
    if IsContainer(core) {
      var site := ReconSite(w, settable);
      var vs := ReconSeq(site, Children(core), buffers).value;
      var core' := WithChildren(core, vs);
      WellFormedCore(w);
      ContentOfCore(w, core');
      assert !PlaceholderShaped(core');
      HolesOfContainer(core', 0);
      ReconFindsSeq(site, Children(core), buffers);
      if PlaceholderShaped(core) {
        ReconKeepsPlaceholder(site, core, buffers);
        assert false;
      }
    }
  }

  /** An untyped placeholder that the walk enters, instead of replacing, comes out unchanged. */
  lemma ReconKeepsPlaceholder(site: Site, core: Value, buffers: seq<Bytes>)
    requires IsContainer(core) && NamesOnce(core) && PlaceholderShaped(core)
    requires ReconSeq(site, Children(core), buffers).Ok?
    ensures PlaceholderShaped(WithChildren(core, ReconSeq(site, Children(core), buffers).value))
  {
    var vs := Children(core);
    var vs' := ReconSeq(site, vs, buffers).value;
    var keys := if core.Struct? then core.names else core.keys;
    forall i | 0 <= i < |vs| ensures Fill(Content(vs[i]), []) == Content(vs'[i]) {
      MemberOf(keys, vs, i);
      ReconSeqAt(site, vs, buffers, i);
      ReconKeepsAtoms(site, vs[i], buffers);
    }
    FillContainer(core, WithChildren(core, vs'), []);
  }

  lemma {:induction false} ReconSeqAt(site: Site, ws: seq<Value>, buffers: seq<Bytes>, i: nat)
    requires ReconSeq(site, ws, buffers).Ok? && i < |ws|
    ensures ReconAt(site, ws[i], buffers) == Ok(ReconSeq(site, ws, buffers).value[i])
  {
    if i > 0 {
      ReconSeqAt(site, ws[1..], buffers, i - 1);
    }
  }

  lemma {:induction false} ReconFindsAt(site: Site, w: Value, buffers: seq<Bytes>)
    requires WellFormed(w) && ReconAt(site, w, buffers).Ok?
    requires HoleFree(Content(ReconAt(site, w, buffers).value))
    ensures FillableAt(site, w)
    decreases w, 1
  {
    var x := Elem(w);
    WellFormedCore(w);
    ContentOfCore(w, Nil);
    if site.InSlice? {
      ReconFinds(w, true, buffers);
    } else if !(site.InMap? && ((x.Map? && w.Box? && UntypedPlaceholder(x).Some?)
                                || IsBytes(x) || x.Slice? || x.OtherSlice?)) {
      var settable := if site.InMap? then w.Ptr? else ElemSettable(w, site.settable);
      ContentOfCore(w, Recon(x, settable, buffers).value);
      ReconFinds(x, settable, buffers);
    }
  }

  lemma {:induction false} ReconFindsSeq(site: Site, ws: seq<Value>, buffers: seq<Bytes>)
    requires (forall i | 0 <= i < |ws| :: WellFormed(ws[i])) && ReconSeq(site, ws, buffers).Ok?
    requires forall i | 0 <= i < |ws| :: HoleFree(Content(ReconSeq(site, ws, buffers).value[i]))
    ensures FillableSeq(site, ws)
    decreases ws, 2
  {
    if ws != [] {
      var vs := ReconSeq(site, ws, buffers).value;
      assert vs[0] == ReconAt(site, ws[0], buffers).value;
      assert vs[1..] == ReconSeq(site, ws[1..], buffers).value;
      ReconFindsAt(site, ws[0], buffers);
      ReconFindsSeq(site, ws[1..], buffers);
    }
  }

  // ------------------------------------------------------------------------------------------
  // Main results
  // ------------------------------------------------------------------------------------------

  /**
   * The walk puts every attachment back if and only if the tree is fillable, for every tree
   * whose placeholder numbers are in range.
   */
  lemma ReconstructExactly(w: Value, settable: bool, payload: Bytes, attachments: seq<Bytes>)
    requires WellFormed(w) && HolesBelow(Content(w), |attachments|)
    ensures Recon(w, settable, [payload] + attachments).Ok?
            && Content(Recon(w, settable, [payload] + attachments).value) == Fill(Content(w), attachments)
       <==> Fillable(w, settable)
  {
    var r := Recon(w, settable, [payload] + attachments);
    if Fillable(w, settable) {
      ReconFills(w, settable, payload, attachments);
    } else if r.Ok? && Content(r.value) == Fill(Content(w), attachments) {
      FillRemovesHoles(Content(w), attachments);
      ReconFinds(w, settable, [payload] + attachments);
    }
  }

  /** What the extracted document looks like to whoever receives it. */
  lemma ExtractedDocument(v: Value, settable: bool)
    requires Extractable(v, settable) && NoPlaceholder(v) && PlainSeen(v) == 0
    ensures var r := Extract(v, settable);
            && |r.buffers| == r.next && r.buffers == BuffersOf(Met(v))
            && HolesBelow(Content(r.value), |r.buffers|)
            && Fill(Content(r.value), r.buffers) == Content(v)
            && Holes(r.value) == Range(0, r.next)
            && |Raws(v)| == |Raws(r.value)| + r.next
            && (Raws(r.value) == [] ==> r.buffers == Raws(v))
  {
    var r := Extract(v, settable);
    DeconPlain(v, settable, 0);
    DeconMet(v, settable, 0);
    assert r.buffers[0..r.next] == r.buffers;
    DeconFill(v, settable, 0, r.buffers);
    NoPlaceholderIsHoleFree(v);
    FillRemovesHoles(Content(r.value), r.buffers);
    DeconLeaves(v, settable, 0);
  }

  /**
   * Reconstruction undoes deconstruction.  The sender's tree v is extracted; the receiver's tree
   * w says the same as the extracted tree, whatever Go types and map order it was decoded into;
   * then the walk over w succeeds and says what v said, if and only if w is fillable.
   */
  lemma RoundTrip(v: Value, settable: bool, w: Value, wSettable: bool, payload: Bytes)
    requires Extractable(v, settable) && NoPlaceholder(v) && PlainSeen(v) == 0
    requires WellFormed(w) && Content(w) == Content(Extract(v, settable).value)
    ensures Recon(w, wSettable, [payload] + Extract(v, settable).buffers).Ok?
            && Content(Recon(w, wSettable, [payload] + Extract(v, settable).buffers).value) == Content(v)
       <==> Fillable(w, wSettable)
  {
    ExtractedDocument(v, settable);
    ReconstructExactly(w, wSettable, payload, Extract(v, settable).buffers);
  }

  // ------------------------------------------------------------------------------------------
  // A handler's arguments
  // ------------------------------------------------------------------------------------------

  /** reconstructPacket: the arguments one after the other, none of them assignable itself. */
  function ReconPacket(ws: seq<Value>, buffers: seq<Bytes>): (r: Result<seq<Value>, Problem>)
    ensures r.Ok? ==> |r.value| == |ws|
  {
    if ws == [] then Ok([])
    else
      match Recon(ws[0], false, buffers)
      case Err(e) => Err(e)
      case Ok(w') =>
        match ReconPacket(ws[1..], buffers)
        case Err(e) => Err(e)
        case Ok(rest) => Ok([w'] + rest)
  }

  /** The whole list succeeds exactly when each argument does, and with their results. */
  lemma {:induction false} ReconPacketAt(ws: seq<Value>, buffers: seq<Bytes>)
    ensures ReconPacket(ws, buffers).Ok? <==> forall i | 0 <= i < |ws| :: Recon(ws[i], false, buffers).Ok?
    ensures ReconPacket(ws, buffers).Ok? ==>
              forall i | 0 <= i < |ws| :: Recon(ws[i], false, buffers) == Ok(ReconPacket(ws, buffers).value[i])
  {
    if ws != [] {
      assert ws == [ws[0]] + ws[1..];
      ReconPacketAt(ws[1..], buffers);
    }
  }

  /** reconstructPacket, as the loop it is. */
  method ReconstructPacket(ws: seq<Value>, buffers: seq<Bytes>) returns (r: Result<seq<Value>, Problem>)
    ensures r.Ok? <==> forall i | 0 <= i < |ws| :: Recon(ws[i], false, buffers).Ok?
    ensures r.Ok? ==> |r.value| == |ws| && forall i | 0 <= i < |ws| :: Recon(ws[i], false, buffers) == Ok(r.value[i])
    ensures r.Err? ==> exists i | 0 <= i < |ws| ::
                         Recon(ws[i], false, buffers) == Err(r.error)
                         && forall j | 0 <= j < i :: Recon(ws[j], false, buffers).Ok?
  {
    var done: seq<Value> := [];
    for i := 0 to |ws|
      invariant |done| == i && forall j | 0 <= j < i :: Recon(ws[j], false, buffers) == Ok(done[j])
    {
      var w := Recon(ws[i], false, buffers);
      if w.Err? {
        return Err(w.error);
      }
      done := done + [w.value];
    }
    return Ok(done);
  }

  lemma FillItems(j: Json, attachments: seq<Bytes>, items: seq<Json>)
    requires j.JArray? && Fill(j, attachments) == JArray(items)
    ensures |items| == |j.items| && forall i | 0 <= i < |items| :: items[i] == Fill(j.items[i], attachments)
  {
  }

  /** Each argument says what the element of the list it was decoded from says; the first `skip` are not arguments. */
  ghost predicate DecodedFrom(ws: seq<Value>, list: Json, skip: nat) {
    && list.JArray? && skip + |ws| <= |list.items|
    && forall i | 0 <= i < |ws| :: WellFormed(ws[i]) && Content(ws[i]) == list.items[skip + i]
  }

  /** The walk over one argument succeeds and leaves it saying `item`. */
  predicate Restored(w: Value, buffers: seq<Bytes>, item: Json) {
    Recon(w, false, buffers).Ok? && Content(Recon(w, false, buffers).value) == item
  }

  /** The walk over all of them succeeds and leaves them saying what the list says. */
  ghost predicate Delivered(ws: seq<Value>, buffers: seq<Bytes>, list: Json, skip: nat) {
    var r := ReconPacket(ws, buffers);
    && r.Ok? && list.JArray? && skip + |ws| <= |list.items|
    && forall i | 0 <= i < |ws| :: Content(r.value[i]) == list.items[skip + i]
  }

  lemma DeliveredOneByOne(ws: seq<Value>, buffers: seq<Bytes>, list: Json, skip: nat)
    requires list.JArray? && skip + |ws| <= |list.items|
    ensures Delivered(ws, buffers, list, skip)
       <==> forall i | 0 <= i < |ws| :: Restored(ws[i], buffers, list.items[skip + i])
  {
    ReconPacketAt(ws, buffers);
  }

  ghost predicate AllFillable(ws: seq<Value>) {
    forall i | 0 <= i < |ws| :: Fillable(ws[i], false)
  }

  lemma ArgumentRestored(w: Value, payload: Bytes, attachments: seq<Bytes>, item: Json)
    requires WellFormed(w) && HolesBelow(Content(w), |attachments|) && item == Fill(Content(w), attachments)
    ensures Restored(w, [payload] + attachments, item) <==> Fillable(w, false)
  {
    ReconstructExactly(w, false, payload, attachments);
  }

  /**
   * The same for a list of arguments: the sender's tree is a list, and the receiver's arguments were decoded from the
   * extracted list, the event name left out.
   */
  lemma ArgumentsRoundTrip(v: Value, settable: bool, ws: seq<Value>, skip: nat, payload: Bytes)
    requires Extractable(v, settable) && NoPlaceholder(v) && PlainSeen(v) == 0 && Content(v).JArray?
    requires DecodedFrom(ws, Content(Extract(v, settable).value), skip)
    ensures Delivered(ws, [payload] + Extract(v, settable).buffers, Content(v), skip) <==> AllFillable(ws)
  {
    ExtractedDocument(v, settable);
    ListRestored(Content(Extract(v, settable).value), Content(v), Extract(v, settable).buffers, ws, skip, payload);
  }

  lemma ListRestored(d: Json, list: Json, attachments: seq<Bytes>, ws: seq<Value>, skip: nat, payload: Bytes)
    requires list.JArray? && DecodedFrom(ws, d, skip)
    requires HolesBelow(d, |attachments|) && Fill(d, attachments) == list
    ensures Delivered(ws, [payload] + attachments, list, skip) <==> AllFillable(ws)
  {
    FillItems(d, attachments, list.items);
    forall i | 0 <= i < |ws|
      ensures Restored(ws[i], [payload] + attachments, list.items[skip + i]) <==> Fillable(ws[i], false) {
      assert HolesBelow(d.items[skip + i], |attachments|);
      ArgumentRestored(ws[i], payload, attachments, list.items[skip + i]);
    }
    DeliveredOneByOne(ws, [payload] + attachments, list, skip);
  }

  const LIST_IN_MAP: Value := Map(["list"], [Slice([Binary(Raw([7]))])])
  const LIST_IN_MAP_SENT: Value := Map(["list"], [Slice([Binary(Placeholder(0))])])

  /** A Binary inside a list that is a map value is extracted ... */
  lemma ListInMapIsExtracted()
    ensures Decon(LIST_IN_MAP, false, 0) == Done(LIST_IN_MAP_SENT, [[7]], 1)
  {
    var leaf := Binary(Raw([7]));
    DeconSeqOne(InSlice, leaf, 0);
    assert Decon(Slice([leaf]), false, 0) == Done(Slice([Binary(Placeholder(0))]), [[7]], 1);
    DeconSeqOne(InMap, Slice([leaf]), 0);
  }

  /** ... and never put back: the same Go types on both sides lose it. */
  lemma ListInMapIsLost(settable: bool, buffers: seq<Bytes>)
    ensures Recon(LIST_IN_MAP_SENT, settable, buffers) == Ok(LIST_IN_MAP_SENT)
    ensures !HoleFree(Content(Slice([Binary(Placeholder(0))])))
  {
    var hole := Binary(Placeholder(0));
    var list := Slice([hole]);
    assert ReconAt(InMap, list, buffers) == Ok(list);
    assert [list][1..] == [] && [list] + [] == [list] && ReconSeq(InMap, [], buffers) == Ok([]);
    assert ReconSeq(InMap, [list], buffers) == Ok([list]);
    assert Contents([hole])[0] == JHole(0);
  }

  // ------------------------------------------------------------------------------------------
  // What the comparison of contents is worth
  // ------------------------------------------------------------------------------------------

  /** Two values of the same shape: the same wrappers, lengths and names around data of the same kind. */
  predicate Alike(v: Value, w: Value) {
    match v
    case Nil => w.Nil?
    case Scalar(_) => w.Scalar?
    case Binary(p) => w.Binary? && p.Raw? && w.payload.Raw?
    case PlainBytes(_) => w.PlainBytes?
    case Struct(names, fields) => w.Struct? && names == w.names && AllAlike(fields, w.fields)
    case Map(keys, entries) => w.Map? && keys == w.keys && AllAlike(entries, w.entries)
    case Slice(es) => w.Slice? && AllAlike(es, w.elems)
    case OtherSlice(es) => w.OtherSlice? && AllAlike(es, w.others)
    case Box(x) => w.Box? && Alike(x, w.boxed)
    case Ptr(x) => w.Ptr? && Alike(x, w.target)
  }

  predicate AllAlike(vs: seq<Value>, ws: seq<Value>) {
    |vs| == |ws| && forall i | 0 <= i < |vs| :: Alike(vs[i], ws[i])
  }

  /** Content forgets shape and order only: values of one shape with the same content are the same value. */
  lemma {:induction false} ContentTells(v: Value, w: Value)
    requires Alike(v, w) && WellFormed(v) && NoPlaceholder(v) && NoPlaceholder(w) && Content(v) == Content(w)
    ensures v == w
    decreases v, 1
  {
    match v
    case Struct(names, fields) => MembersTell(v, names, fields, w.fields);
    case Map(keys, entries) => MembersTell(v, keys, entries, w.entries);
    case Slice(es) => ItemsTell(v, es, w.elems);
    case OtherSlice(es) => ItemsTell(v, es, w.others);
    case Box(x) => ContentTells(x, w.boxed);
    case Ptr(x) => ContentTells(x, w.target);
    case _ =>
  }

  ghost predicate Sound(vs: seq<Value>) {
    forall i | 0 <= i < |vs| :: NoPlaceholder(vs[i])
  }

  lemma ItemsTell(parent: Value, vs: seq<Value>, ws: seq<Value>)
    requires AllAlike(vs, ws) && Sound(vs) && Sound(ws) && Contents(vs) == Contents(ws)
    requires forall i | 0 <= i < |vs| :: vs[i] < parent && WellFormed(vs[i])
    ensures vs == ws
    decreases parent, 0
  {
    forall i | 0 <= i < |vs| ensures vs[i] == ws[i] {
      ContentsAt(vs, i);
      ContentsAt(ws, i);
      ContentTells(vs[i], ws[i]);
    }
  }

  lemma MembersTell(parent: Value, keys: seq<string>, vs: seq<Value>, ws: seq<Value>)
    requires AllAlike(vs, ws) && Sound(vs) && Sound(ws) && Members(keys, vs) == Members(keys, ws)
    requires Distinct(keys) && |keys| == |vs|
    requires forall i | 0 <= i < |vs| :: vs[i] < parent && WellFormed(vs[i])
    ensures vs == ws
    decreases parent, 0
  {
    forall i | 0 <= i < |vs| ensures vs[i] == ws[i] {
      MemberOf(keys, vs, i);
      MemberOf(keys, ws, i);
      ContentTells(vs[i], ws[i]);
    }
  }

  /** The decoded map is taken for the placeholder k exactly when it says {"_placeholder":true,"num":k}. */
  lemma UntypedExactly(flag: Value, num: Value, keys: seq<string>, k: nat)
    requires |keys| == 2
    ensures UntypedPlaceholder(Map(keys, [flag, num])) == Some(k)
       <==> (keys == ["_placeholder", "num"] && Unbox(flag) == Scalar(Bool(true)) && Unbox(num) == Scalar(Num(k)))
            || (keys == ["num", "_placeholder"] && Unbox(num) == Scalar(Bool(true)) && Unbox(flag) == Scalar(Num(k)))
  {
    assert keys == [keys[0], keys[1]];
  }

  lemma PlaceholderContent(k: nat)
    ensures Content(Map(["_placeholder", "num"], [Box(Scalar(Bool(true))), Box(Scalar(Num(k)))])) == JHole(k)
  {
    var keys, entries := ["_placeholder", "num"], [Box(Scalar(Bool(true))), Box(Scalar(Num(k)))];
    assert keys[1..] == ["num"] && entries[1..] == [entries[1]] && keys[1..][1..] == [];
    assert ["num"][1..] == [] && [entries[1]][1..] == [];
    assert Content(entries[1]) == Content(Scalar(Num(k)));
    assert Members(["num"], [entries[1]]) == Members([], [])["num" := JAtom(Num(k))];
    assert Members(keys, entries) == map["_placeholder" := JAtom(Bool(true)), "num" := JAtom(Num(k))];
    assert |"_placeholder"| != |"num"|;
  }
}
