/**
 * The sender's half of the binary codec (parser/json/binary.go): pull every Binary out of a
 * value tree, leave a numbered placeholder behind, and count as it goes.
 */
module Deconstruct {
  import opened Prelude
  import opened ValueTree

  datatype Failure =
    | BinaryIsPointer   // errBinaryCannotBeAPtr
    | NotSettable       // errNonSettableValue
    | MapElemMismatch   // SetMapIndex panics: a pointer is stored in a map of non-pointers

  datatype Outcome<+T> =
    | Done(value: T, buffers: seq<Bytes>, next: nat)
    | Failed(why: Failure)

  /** Where a child sits: each container treats its children in its own way. */
  datatype Site = InSlice | InStruct(settable: bool) | InMap

  /** A []byte reached through a pointer is refused (binary.go:82-91). */
  predicate PointsAtBytes(v: Value) {
    v.Ptr? || (v.Box? && v.boxed.Ptr?)
  }

  /** deconstructValue: `n` is the counter behind numBuffers, `settable` is rv.CanSet(). */
  function Decon(v: Value, settable: bool, n: nat): (r: Outcome<Value>)
    ensures r.Done? ==> n <= r.next <= n + |r.buffers|
    decreases v, 0
  {
    var core := Core(v);
    if IsBytes(core) && PointsAtBytes(v) then Failed(BinaryIsPointer)
    else if core.PlainBytes? then Done(v, [[]], n)
    else if core.Binary? then
      var placeholder := Binary(Placeholder(n));
      if CoreSettable(v, settable) then Done(placeholder, [PayloadBytes(core.payload)], n + 1)
      else if settable then Done(Box(Ptr(placeholder)), [PayloadBytes(core.payload)], n + 1)
      else Failed(NotSettable)
    else if IsContainer(core) then
      match DeconSeq(SiteOf(v, settable), Children(core), n)
      case Failed(why) => Failed(why)
      case Done(vs, buffers, next) => Done(Rebuild(v, settable, WithChildren(core, vs)), buffers, next)
    else Done(v, [], n)
  }

  /** A struct held by value in an assignable interface is copied behind a pointer first (binary.go:100-108). */
  predicate Copied(v: Value, settable: bool) {
    Core(v).Struct? && v.Box? && settable && !CoreSettable(v, settable)
  }

  function SiteOf(v: Value, settable: bool): Site {
    match Core(v)
    case Struct(_, _) => InStruct(Copied(v, settable) || CoreSettable(v, settable))
    case Map(_, _) => InMap
    case _ => InSlice
  }

  function Rebuild(v: Value, settable: bool, x: Value): Value {
    if Copied(v, settable) then Box(Ptr(x)) else RewrapCore(v, x)
  }

  /** One child: a slice element, a struct field (deconstructStruct) or a map value (deconstructMap). */
  function DeconAt(site: Site, v: Value, n: nat): (r: Outcome<Value>)
    ensures r.Done? ==> n <= r.next <= n + |r.buffers|
    decreases v, 1
  {
    match site
    case InSlice => Decon(v, true, n)
    case InStruct(settable) => Wrap(v, Decon(Elem(v), ElemSettable(v, settable), n))
    case InMap =>
      match Elem(v)
      case Binary(p) =>
        if v.Box? then Done(Box(Ptr(Binary(Placeholder(n)))), [PayloadBytes(p)], n + 1)
        else if v.Ptr? then Done(Ptr(Binary(Placeholder(n))), [PayloadBytes(p)], n + 1)
        else Failed(MapElemMismatch)
      case PlainBytes(_) => Done(v, [[]], n)
      case _ => Wrap(v, Decon(Elem(v), v.Ptr?, n))
  }

  function Wrap(v: Value, r: Outcome<Value>): Outcome<Value> {
    match r
    case Done(x, buffers, next) => Done(Rewrap(v, x), buffers, next)
    case Failed(why) => r
  }

  /** The children of one container, in order, threading the counter. */
  function DeconSeq(site: Site, vs: seq<Value>, n: nat): (r: Outcome<seq<Value>>)
    ensures r.Done? ==> |r.value| == |vs| && n <= r.next <= n + |r.buffers|
    decreases vs, 2
  {
    if vs == [] then Done([], [], n)
    else
      match DeconAt(site, vs[0], n)
      case Failed(why) => Failed(why)
      case Done(v', b1, n1) =>
        match DeconSeq(site, vs[1..], n1)
        case Failed(why) => Failed(why)
        case Done(rest, b2, n2) => Done([v'] + rest, b1 + b2, n2)
  }

  /**
   * The trees the extraction accepts: no []byte behind a pointer, every Binary assignable or held by an assignable
   * interface, and no Binary directly in a map.
   */
  predicate Extractable(v: Value, settable: bool)
    decreases v, 0
  {
    var core := Core(v);
    && !(IsBytes(core) && PointsAtBytes(v))
    && (core.Binary? ==> CoreSettable(v, settable) || settable)
    && (IsContainer(core) ==> ExtractableSeq(SiteOf(v, settable), Children(core)))
  }

  predicate ExtractableAt(site: Site, v: Value)
    decreases v, 1
  {
    match site
    case InSlice => Extractable(v, true)
    case InStruct(settable) => Extractable(Elem(v), ElemSettable(v, settable))
    case InMap => if IsBytes(Elem(v)) then Elem(v).Binary? ==> Wrapped(v) else Extractable(Elem(v), v.Ptr?)
  }

  predicate ExtractableSeq(site: Site, vs: seq<Value>)
    decreases vs, 2
  {
    vs == [] || (ExtractableAt(site, vs[0]) && ExtractableSeq(site, vs[1..]))
  }

  /** Extraction succeeds, from any counter, on exactly those trees. */
  lemma {:induction false} DoneExactly(v: Value, settable: bool, n: nat)
    ensures Decon(v, settable, n).Done? <==> Extractable(v, settable)
    decreases v, 0
  {
    if IsContainer(Core(v)) {
      DoneExactlySeq(SiteOf(v, settable), Children(Core(v)), n);
    }
  }

  lemma {:induction false} DoneExactlyAt(site: Site, v: Value, n: nat)
    ensures DeconAt(site, v, n).Done? <==> ExtractableAt(site, v)
    decreases v, 1
  {
    if site.InSlice? {
      DoneExactly(v, true, n);
    } else if !(site.InMap? && IsBytes(Elem(v))) {
      DoneExactly(Elem(v), if site.InMap? then v.Ptr? else ElemSettable(v, site.settable), n);
    }
  }

  lemma {:induction false} DoneExactlySeq(site: Site, vs: seq<Value>, n: nat)
    ensures DeconSeq(site, vs, n).Done? <==> ExtractableSeq(site, vs)
    decreases vs, 2
  {
    if vs != [] {
      DoneExactlyAt(site, vs[0], n);
      if DeconAt(site, vs[0], n).Done? {
        DoneExactlySeq(site, vs[1..], DeconAt(site, vs[0], n).next);
      }
    }
  }

  /** deconstructPacket on a tree it accepts. */
  function Extract(v: Value, settable: bool): (r: Outcome<Value>)
    requires Extractable(v, settable)
    ensures r.Done?
  {
    DoneExactly(v, settable, 0);
    Decon(v, settable, 0)
  }

  /** A map that holds a Binary itself, such as map[string]Binary, cannot be extracted: storing the pointer panics. */
  lemma BinaryMapFails(key: string, p: Payload, settable: bool, n: nat)
    ensures Decon(Map([key], [Binary(p)]), settable, n) == Failed(MapElemMismatch)
  {
    var v := Map([key], [Binary(p)]);
    assert Core(v) == v && DeconAt(InMap, Children(v)[0], n) == Failed(MapElemMismatch);
  }

  lemma DeconSeqOne(site: Site, v: Value, n: nat)
    requires DeconAt(site, v, n).Done?
    ensures var r := DeconAt(site, v, n);
            DeconSeq(site, [v], n) == Done([r.value], r.buffers, r.next)
  {
    var r := DeconAt(site, v, n);
    assert [v][1..] == [] && [r.value] + [] == [r.value] && r.buffers + [] == r.buffers;
    assert DeconSeq(site, [], r.next) == Done([], [], r.next);
  }

  lemma NoPlaceholderCore(v: Value)
    requires NoPlaceholder(v)
    ensures NoPlaceholder(Elem(v)) && NoPlaceholder(Core(v))
    ensures IsContainer(Core(v)) ==> forall i | 0 <= i < |Children(Core(v))| :: NoPlaceholder(Children(Core(v))[i])
  {
  }

  // ------------------------------------------------------------------------------------------
  // Extracting twice
  // ------------------------------------------------------------------------------------------

  /** Every Binary is overwritten where it is, or held by pointer in a map: none is replaced through its interface. */
  predicate Repeatable(v: Value, settable: bool)
    decreases v, 0
  {
    var core := Core(v);
    && (core.Binary? ==> CoreSettable(v, settable))
    && (IsContainer(core) ==> RepeatableSeq(SiteOf(v, settable), Children(core)))
  }

  predicate RepeatableAt(site: Site, v: Value)
    decreases v, 1
  {
    match site
    case InSlice => Repeatable(v, true)
    case InStruct(settable) => Repeatable(Elem(v), ElemSettable(v, settable))
    case InMap => if IsBytes(Elem(v)) then Elem(v).Binary? ==> v.Ptr? else Repeatable(Elem(v), v.Ptr?)
  }

  predicate RepeatableSeq(site: Site, vs: seq<Value>)
    decreases vs, 2
  {
    vs == [] || (RepeatableAt(site, vs[0]) && RepeatableSeq(site, vs[1..]))
  }

  /** Extraction keeps the way into a container. */
  lemma RebuiltSite(v: Value, settable: bool, x: Value)
    requires IsContainer(Core(v)) && IsContainer(x) && x == WithChildren(Core(v), Children(x))
    ensures Core(Rebuild(v, settable, x)) == x && SiteOf(Rebuild(v, settable, x), settable) == SiteOf(v, settable)
  {
  }

  /** The result of an extraction can be extracted again exactly when no Binary was replaced through its interface. */
  lemma {:induction false} ExtractedAgain(v: Value, settable: bool, n: nat)
    requires Decon(v, settable, n).Done?
    ensures Extractable(Decon(v, settable, n).value, settable) <==> Repeatable(v, settable)
    ensures !Wrapped(v) ==> !Wrapped(Decon(v, settable, n).value)
    ensures IsBytes(Decon(v, settable, n).value) <==> IsBytes(v)
    decreases v, 0
  {
    var core := Core(v);
    if IsContainer(core) {
      var site := SiteOf(v, settable);
      var vs := DeconSeq(site, Children(core), n).value;
      RebuiltSite(v, settable, WithChildren(core, vs));
      ExtractedAgainSeq(site, Children(core), n);
    }
  }

  lemma {:induction false} ExtractedAgainAt(site: Site, v: Value, n: nat)
    requires DeconAt(site, v, n).Done?
    ensures ExtractableAt(site, DeconAt(site, v, n).value) <==> RepeatableAt(site, v)
    decreases v, 1
  {
    match site
    case InSlice => ExtractedAgain(v, true, n);
    case InStruct(settable) =>
      ExtractedAgain(Elem(v), ElemSettable(v, settable), n);
      FieldAgain(settable, v, n);
    case InMap =>
      if IsBytes(Elem(v)) {
        BytesAgain(v, n);
      } else {
        ExtractedAgain(Elem(v), v.Ptr?, n);
        EntryAgain(v, n);
      }
  }

  lemma FieldAgain(settable: bool, v: Value, n: nat)
    requires Decon(Elem(v), ElemSettable(v, settable), n).Done?
    requires !Wrapped(v) ==> !Wrapped(Decon(Elem(v), ElemSettable(v, settable), n).value)
    ensures ExtractableAt(InStruct(settable), DeconAt(InStruct(settable), v, n).value)
       <==> Extractable(Decon(Elem(v), ElemSettable(v, settable), n).value, ElemSettable(v, settable))
  {
    SameElem(v, Decon(Elem(v), ElemSettable(v, settable), n).value, settable);
  }

  lemma EntryAgain(v: Value, n: nat)
    requires !IsBytes(Elem(v)) && Decon(Elem(v), v.Ptr?, n).Done?
    requires !IsBytes(Decon(Elem(v), v.Ptr?, n).value)
    requires !Wrapped(v) ==> !Wrapped(Decon(Elem(v), v.Ptr?, n).value)
    ensures DeconAt(InMap, v, n).Done?
    ensures ExtractableAt(InMap, DeconAt(InMap, v, n).value) <==> Extractable(Decon(Elem(v), v.Ptr?, n).value, v.Ptr?)
  {
    SameElem(v, Decon(Elem(v), v.Ptr?, n).value, v.Ptr?);
  }

  lemma BytesAgain(v: Value, n: nat)
    requires IsBytes(Elem(v)) && DeconAt(InMap, v, n).Done?
    ensures ExtractableAt(InMap, DeconAt(InMap, v, n).value) <==> (Elem(v).Binary? ==> v.Ptr?)
  {
    var x := Ptr(Binary(Placeholder(n)));
    assert Core(x) == Binary(Placeholder(n)) && !Extractable(x, false);
  }

  /** A value that takes another's place keeps its wrapper. */
  lemma SameElem(v: Value, x: Value, settable: bool)
    requires !Wrapped(v) ==> !Wrapped(x)
    ensures Elem(Rewrap(v, x)) == x && ElemSettable(Rewrap(v, x), settable) == ElemSettable(v, settable)
    ensures Rewrap(v, x).Ptr? == v.Ptr? && Wrapped(Rewrap(v, x)) == Wrapped(v)
  {
  }

  lemma {:induction false} ExtractedAgainSeq(site: Site, vs: seq<Value>, n: nat)
    requires DeconSeq(site, vs, n).Done?
    ensures ExtractableSeq(site, DeconSeq(site, vs, n).value) <==> RepeatableSeq(site, vs)
    decreases vs, 2
  {
    if vs != [] {
      var head := DeconAt(site, vs[0], n);
      var tail := DeconSeq(site, vs[1..], head.next);
      ExtractedAgainAt(site, vs[0], n);
      ExtractedAgainSeq(site, vs[1..], head.next);
      assert ([head.value] + tail.value)[1..] == tail.value;
    }
  }

  /** A Binary among the arguments of an event, the usual case, can be extracted once only. */
  lemma ArgumentExtractsOnce(d: Bytes)
    ensures var v := Ptr(Slice([Box(Binary(Raw(d)))]));
            && Decon(v, false, 0) == Done(Ptr(Slice([Box(Ptr(Binary(Placeholder(0))))])), [d], 1)
            && Decon(Decon(v, false, 0).value, false, 0) == Failed(BinaryIsPointer)
  {
    var first, second := Box(Binary(Raw(d))), Box(Ptr(Binary(Placeholder(0))));
    assert DeconAt(InSlice, first, 0) == Done(second, [d], 1);
    DeconSeqOne(InSlice, first, 0);
    assert DeconAt(InSlice, second, 0) == Failed(BinaryIsPointer);
  }

  // ------------------------------------------------------------------------------------------
  // Filling the placeholders with the extracted buffers gives the document back.
  // ------------------------------------------------------------------------------------------

  /** `buffers` are the attachments numbered n, n+1, ..., next-1 within `all`. */
  ghost predicate Slot(all: seq<Bytes>, n: nat, next: nat, buffers: seq<Bytes>) {
    n <= next <= |all| && all[n..next] == buffers
  }

  lemma SlotSplit(all: seq<Bytes>, n: nat, m: nat, next: nat, b1: seq<Bytes>, b2: seq<Bytes>)
    requires n <= m <= next && Slot(all, n, next, b1 + b2) && |b1| >= m - n && |b2| >= next - m
    ensures Slot(all, n, m, b1) && Slot(all, m, next, b2)
  {
    assert |b1| == m - n && |b2| == next - m;
    assert all[n..m] == all[n..next][..m - n] == b1;
    assert all[m..next] == all[n..next][m - n..] == b2;
  }

  lemma DeconFillBinary(v: Value, settable: bool, n: nat, all: seq<Bytes>)
    requires Decon(v, settable, n).Done? && Core(v).Binary? && Core(v).payload.Raw?
    requires Slot(all, n, Decon(v, settable, n).next, Decon(v, settable, n).buffers)
    ensures Fill(Content(Decon(v, settable, n).value), all) == Content(v)
  {
    ContentOfCore(v, Nil);
    assert all[n] == all[n..n + 1][0];
    assert Content(Ptr(Binary(Placeholder(n)))) == JHole(n);
  }

  lemma {:induction false} DeconFill(v: Value, settable: bool, n: nat, all: seq<Bytes>)
    requires Decon(v, settable, n).Done? && NoPlaceholder(v)
    requires Slot(all, n, Decon(v, settable, n).next, Decon(v, settable, n).buffers)
    ensures Fill(Content(Decon(v, settable, n).value), all) == Content(v)
    decreases v, 0
  {
    NoPlaceholderCore(v);
    ContentOfCore(v, Nil);
    var core := Core(v);
    if core.Binary? {
      DeconFillBinary(v, settable, n, all);
    } else if IsContainer(core) {
      var site := SiteOf(v, settable);
      var vs' := DeconSeq(site, Children(core), n).value;
      DeconFillSeq(site, Children(core), n, all);
      FillContainer(WithChildren(core, vs'), core, all);
      ContentOfCore(v, WithChildren(core, vs'));
    } else if !core.PlainBytes? {
      NoPlaceholderIsHoleFree(v);
      FillHoleFree(Content(v), all);
    }
  }

  lemma {:induction false} DeconFillAt(site: Site, v: Value, n: nat, all: seq<Bytes>)
    requires DeconAt(site, v, n).Done? && NoPlaceholder(v)
    requires Slot(all, n, DeconAt(site, v, n).next, DeconAt(site, v, n).buffers)
    ensures Fill(Content(DeconAt(site, v, n).value), all) == Content(v)
    decreases v, 1
  {
    ContentOfCore(v, Nil);
    if site.InSlice? {
      DeconFill(v, true, n, all);
    } else if site.InMap? && Elem(v).Binary? {
      assert all[n] == all[n..n + 1][0];
      assert Content(Ptr(Binary(Placeholder(n)))) == JHole(n);
    } else if !(site.InMap? && Elem(v).PlainBytes?) {
      var settable := if site.InMap? then v.Ptr? else ElemSettable(v, site.settable);
      ContentOfCore(v, Decon(Elem(v), settable, n).value);
      DeconFill(Elem(v), settable, n, all);
    }
  }

  lemma {:induction false} DeconFillSeq(site: Site, vs: seq<Value>, n: nat, all: seq<Bytes>)
    requires DeconSeq(site, vs, n).Done? && forall i | 0 <= i < |vs| :: NoPlaceholder(vs[i])
    requires Slot(all, n, DeconSeq(site, vs, n).next, DeconSeq(site, vs, n).buffers)
    ensures forall i | 0 <= i < |vs| :: Fill(Content(DeconSeq(site, vs, n).value[i]), all) == Content(vs[i])
    decreases vs, 2
  {
    if vs != [] {
      var head := DeconAt(site, vs[0], n);
      var tail := DeconSeq(site, vs[1..], head.next);
      SlotSplit(all, n, head.next, tail.next, head.buffers, tail.buffers);
      DeconFillAt(site, vs[0], n, all);
      DeconFillSeq(site, vs[1..], head.next, all);
    }
  }

  // ------------------------------------------------------------------------------------------
  // What is replaced, in which order, and what is left behind.
  // ------------------------------------------------------------------------------------------

  /** The placeholder numbers held by Binary values, in traversal order. */
  function Holes(v: Value): seq<nat>
    decreases v, 0
  {
    match v
    case Binary(Placeholder(k)) => [k]
    case Struct(_, fields) => HolesSeq(fields)
    case Map(_, entries) => HolesSeq(entries)
    case Slice(es) => HolesSeq(es)
    case OtherSlice(es) => HolesSeq(es)
    case Box(x) => Holes(x)
    case Ptr(x) => Holes(x)
    case _ => []
  }

  function HolesSeq(vs: seq<Value>): seq<nat>
    decreases vs, 1
  {
    if vs == [] then [] else Holes(vs[0]) + HolesSeq(vs[1..])
  }

  /** The user's binary data, in traversal order: every Binary in the tree, visited or not. */
  function Raws(v: Value): seq<Bytes>
    decreases v, 0
  {
    match v
    case Binary(Raw(d)) => [d]
    case Struct(_, fields) => RawsSeq(fields)
    case Map(_, entries) => RawsSeq(entries)
    case Slice(es) => RawsSeq(es)
    case OtherSlice(es) => RawsSeq(es)
    case Box(x) => Raws(x)
    case Ptr(x) => Raws(x)
    case _ => []
  }

  function RawsSeq(vs: seq<Value>): seq<Bytes>
    decreases vs, 1
  {
    if vs == [] then [] else Raws(vs[0]) + RawsSeq(vs[1..])
  }

  lemma {:induction false} NoHoles(v: Value)
    requires NoPlaceholder(v)
    ensures Holes(v) == []
    decreases v, 0
  {
    match v
    case Struct(_, fields) => NoHolesSeq(fields);
    case Map(_, entries) => NoHolesSeq(entries);
    case Slice(es) => NoHolesSeq(es);
    case OtherSlice(es) => NoHolesSeq(es);
    case Box(x) => NoHoles(x);
    case Ptr(x) => NoHoles(x);
    case _ =>
  }

  lemma {:induction false} NoHolesSeq(vs: seq<Value>)
    requires forall i | 0 <= i < |vs| :: NoPlaceholder(vs[i])
    ensures HolesSeq(vs) == []
    decreases vs, 1
  {
    if vs != [] {
      NoHoles(vs[0]);
      NoHolesSeq(vs[1..]);
    }
  }

  ghost predicate SameLeaves(v: Value, x: Value) {
    Holes(v) == Holes(x) && Raws(v) == Raws(x)
  }

  lemma {:induction false} LeavesOfElem(v: Value, x: Value)
    ensures SameLeaves(Elem(v), v) && SameLeaves(Rewrap(v, x), x)
  {
  }

  lemma {:induction false} LeavesOfCore(v: Value, x: Value)
    ensures SameLeaves(Core(v), v) && SameLeaves(RewrapCore(v, x), x) && SameLeaves(Box(Ptr(x)), x)
  {
    LeavesOfElem(v, Rewrap(Elem(v), x));
    LeavesOfElem(Elem(v), x);
    LeavesOfElem(Box(Ptr(x)), x);
    LeavesOfElem(Ptr(x), x);
  }

  lemma {:induction false} LeavesOfContainer(v: Value)
    requires IsContainer(v)
    ensures Holes(v) == HolesSeq(Children(v)) && Raws(v) == RawsSeq(Children(v))
  {
  }

  /** The account of one extraction: what came out (n..next), what the result still holds, and the buffers. */
  ghost predicate Accounts(holes: seq<nat>, before: seq<Bytes>, after: seq<Bytes>,
                           buffers: seq<Bytes>, n: nat, next: nat) {
    && n <= next
    && holes == Range(n, next)
    && |before| == |after| + (next - n)
    && (after == [] && |buffers| == next - n ==> buffers == before)
  }

  lemma AccountsAppend(h1: seq<nat>, before1: seq<Bytes>, after1: seq<Bytes>, b1: seq<Bytes>, n: nat, m: nat,
                       h2: seq<nat>, before2: seq<Bytes>, after2: seq<Bytes>, b2: seq<Bytes>, next: nat)
    requires Accounts(h1, before1, after1, b1, n, m) && |b1| >= m - n
    requires Accounts(h2, before2, after2, b2, m, next) && |b2| >= next - m
    ensures Accounts(h1 + h2, before1 + before2, after1 + after2, b1 + b2, n, next)
  {
    assert Range(n, next) == Range(n, m) + Range(m, next);
  }

  lemma DeconLeavesBinary(v: Value, settable: bool, n: nat)
    requires Decon(v, settable, n).Done? && Core(v).Binary? && Core(v).payload.Raw?
    ensures var r := Decon(v, settable, n);
            && r.next == n + 1 && r.buffers == Raws(v) && |Raws(v)| == 1
            && Holes(r.value) == [n] == Range(n, n + 1) && Raws(r.value) == []
  {
    var d := Core(v).payload.data;
    LeavesOfCore(v, Binary(Placeholder(n)));
    assert Raws(Binary(Raw(d))) == [d];
  }

  lemma {:induction false} DeconLeaves(v: Value, settable: bool, n: nat)
    requires Decon(v, settable, n).Done? && NoPlaceholder(v)
    ensures var r := Decon(v, settable, n);
            Accounts(Holes(r.value), Raws(v), Raws(r.value), r.buffers, n, r.next)
    decreases v, 0
  {
    var r := Decon(v, settable, n);
    NoPlaceholderCore(v);
    var core := Core(v);
    if core.Binary? {
      DeconLeavesBinary(v, settable, n);
    } else if IsContainer(core) {
      var site := SiteOf(v, settable);
      var x := WithChildren(core, DeconSeq(site, Children(core), n).value);
      DeconLeavesSeq(site, Children(core), n);
      LeavesOfCore(v, x);
      LeavesOfContainer(core);
      LeavesOfContainer(x);
    } else {
      NoHoles(v);
      LeavesOfCore(v, Nil);
    }
  }

  lemma {:induction false} DeconLeavesAt(site: Site, v: Value, n: nat)
    requires DeconAt(site, v, n).Done? && NoPlaceholder(v)
    ensures var r := DeconAt(site, v, n);
            Accounts(Holes(r.value), Raws(v), Raws(r.value), r.buffers, n, r.next)
    decreases v, 1
  {
    NoPlaceholderCore(v);
    LeavesOfCore(Elem(v), Binary(Placeholder(n)));
    LeavesOfElem(v, Binary(Placeholder(n)));
    if site.InSlice? {
      DeconLeaves(v, true, n);
    } else if !(site.InMap? && IsBytes(Elem(v))) {
      var settable := if site.InMap? then v.Ptr? else ElemSettable(v, site.settable);
      LeavesOfElem(v, Decon(Elem(v), settable, n).value);
      DeconLeaves(Elem(v), settable, n);
    }
  }

  lemma {:induction false} DeconLeavesSeq(site: Site, vs: seq<Value>, n: nat)
    requires DeconSeq(site, vs, n).Done? && forall i | 0 <= i < |vs| :: NoPlaceholder(vs[i])
    ensures var r := DeconSeq(site, vs, n);
            Accounts(HolesSeq(r.value), RawsSeq(vs), RawsSeq(r.value), r.buffers, n, r.next)
    decreases vs, 2
  {
    if vs != [] {
      var head := DeconAt(site, vs[0], n);
      var tail := DeconSeq(site, vs[1..], head.next);
      var vs' := [head.value] + tail.value;
      assert vs'[0] == head.value && vs'[1..] == tail.value;
      DeconLeavesAt(site, vs[0], n);
      DeconLeavesSeq(site, vs[1..], head.next);
      AccountsAppend(Holes(head.value), Raws(vs[0]), Raws(head.value), head.buffers, n, head.next,
                     HolesSeq(tail.value), RawsSeq(vs[1..]), RawsSeq(tail.value), tail.buffers, tail.next);
    }
  }

  /** The byte slices that the extraction meets, in traversal order. */
  function Met(v: Value): seq<Value>
    decreases v, 0
  {
    var core := Core(v);
    if IsBytes(core) then [core]
    else if IsContainer(core) then MetSeq(core.Slice?, Children(core))
    else []
  }

  function MetSeq(inSlice: bool, vs: seq<Value>): seq<Value>
    decreases vs, 1
  {
    if vs == [] then [] else Met(Visited(inSlice, vs[0])) + MetSeq(inSlice, vs[1..])
  }

  /** Struct fields and map values are unwrapped once more than slice elements. */
  function Visited(inSlice: bool, v: Value): (r: Value)
    ensures r == v || r < v
  {
    if inSlice then v else Elem(v)
  }

  /** The buffer for a byte slice: a Binary's data, and an empty one for any other. */
  function BufferOf(leaf: Value): Bytes {
    if leaf.Binary? then PayloadBytes(leaf.payload) else []
  }

  function BuffersOf(leaves: seq<Value>): seq<Bytes> {
    if leaves == [] then [] else [BufferOf(leaves[0])] + BuffersOf(leaves[1..])
  }

  function BinariesIn(leaves: seq<Value>): nat {
    if leaves == [] then 0 else (if leaves[0].Binary? then 1 else 0) + BinariesIn(leaves[1..])
  }

  lemma {:induction false} BuffersAppend(a: seq<Value>, b: seq<Value>)
    ensures BuffersOf(a + b) == BuffersOf(a) + BuffersOf(b)
  {
    if a == [] {
      assert a + b == b;
    } else {
      assert (a + b)[0] == a[0] && (a + b)[1..] == a[1..] + b;
      BuffersAppend(a[1..], b);
      Assoc([BufferOf(a[0])], BuffersOf(a[1..]), BuffersOf(b));
    }
  }

  lemma {:induction false} BinariesAppend(a: seq<Value>, b: seq<Value>)
    ensures BinariesIn(a + b) == BinariesIn(a) + BinariesIn(b)
  {
    if a == [] {
      assert a + b == b;
    } else {
      assert (a + b)[1..] == a[1..] + b;
      BinariesAppend(a[1..], b);
    }
  }

  /** The buffers are, in order, the data of the Binaries met and an empty one for each plain byte slice. */
  lemma {:induction false} DeconMet(v: Value, settable: bool, n: nat)
    requires Decon(v, settable, n).Done?
    ensures Decon(v, settable, n).buffers == BuffersOf(Met(v))
    ensures Decon(v, settable, n).next == n + BinariesIn(Met(v))
    decreases v, 0
  {
    var core := Core(v);
    if IsContainer(core) {
      DeconMetSeq(SiteOf(v, settable), Children(core), n);
    } else if IsBytes(core) {
      MetOne(core);
    }
  }

  lemma MetOne(leaf: Value)
    ensures BuffersOf([leaf]) == [BufferOf(leaf)]
    ensures BinariesIn([leaf]) == if leaf.Binary? then 1 else 0
  {
    assert [leaf][1..] == [];
  }

  lemma {:induction false} DeconMetAt(site: Site, v: Value, n: nat)
    requires DeconAt(site, v, n).Done?
    ensures DeconAt(site, v, n).buffers == BuffersOf(Met(Visited(site.InSlice?, v)))
    ensures DeconAt(site, v, n).next == n + BinariesIn(Met(Visited(site.InSlice?, v)))
    decreases v, 1
  {
    if site.InSlice? {
      DeconMet(v, true, n);
    } else if site.InMap? && IsBytes(Elem(v)) {
      MetOne(Elem(v));
    } else {
      DeconMet(Elem(v), if site.InMap? then v.Ptr? else ElemSettable(v, site.settable), n);
    }
  }

  lemma {:induction false} DeconMetSeq(site: Site, vs: seq<Value>, n: nat)
    requires DeconSeq(site, vs, n).Done?
    ensures DeconSeq(site, vs, n).buffers == BuffersOf(MetSeq(site.InSlice?, vs))
    ensures DeconSeq(site, vs, n).next == n + BinariesIn(MetSeq(site.InSlice?, vs))
    decreases vs, 2
  {
    if vs != [] {
      DeconMetAt(site, vs[0], n);
      DeconMetSeq(site, vs[1..], DeconAt(site, vs[0], n).next);
      BuffersAppend(Met(Visited(site.InSlice?, vs[0])), MetSeq(site.InSlice?, vs[1..]));
      BinariesAppend(Met(Visited(site.InSlice?, vs[0])), MetSeq(site.InSlice?, vs[1..]));
    }
  }

  // ------------------------------------------------------------------------------------------
  // The three traversals agree.
  // ------------------------------------------------------------------------------------------

  /** hasBinary (binary.go:551-613). */
  predicate HasBinary(v: Value)
    decreases v
  {
    var core := Core(v);
    core.Binary? || (IsContainer(core) && exists i | 0 <= i < |Children(core)| :: HasBinary(Children(core)[i]))
  }

  /** How many plain byte slices the extraction meets. */
  function PlainSeen(v: Value): nat
    decreases v, 0
  {
    var core := Core(v);
    if core.PlainBytes? then 1
    else if IsContainer(core) then PlainSeenSeq(core.Slice?, Children(core))
    else 0
  }

  function PlainSeenSeq(inSlice: bool, vs: seq<Value>): nat
    decreases vs, 1
  {
    if vs == [] then 0
    else PlainSeen(Visited(inSlice, vs[0])) + PlainSeenSeq(inSlice, vs[1..])
  }

  /** Whether the extraction meets a Binary: it unwraps struct fields and map values once more than hasBinary. */
  predicate Reaches(v: Value)
    decreases v
  {
    var core := Core(v);
    core.Binary? ||
    (IsContainer(core) && exists i | 0 <= i < |Children(core)| :: Reaches(Visited(core.Slice?, Children(core)[i])))
  }

  /**
   * No Binary that the extraction reaches can be seen by hasBinary: on the way to each there is a struct field or a map
   * value under three wrappers or more.
   */
  predicate Hidden(v: Value)
    decreases v
  {
    var core := Core(v);
    !core.Binary? &&
    (IsContainer(core) ==>
       forall i | 0 <= i < |Children(core)| ::
         Reaches(Visited(core.Slice?, Children(core)[i])) ==>
           (!core.Slice? && Wrapped(Core(Children(core)[i]))) || Hidden(Children(core)[i]))
  }

  /** No struct field and no map value sits under three wrappers or more. */
  predicate ShallowWrappers(v: Value)
    decreases v
  {
    var core := Core(v);
    IsContainer(core) ==>
      forall i | 0 <= i < |Children(core)| ::
        ShallowWrappers(Children(core)[i]) && (core.Slice? || !Wrapped(Core(Children(core)[i])))
  }

  /** The counter and the buffers drift apart by exactly the plain byte slices met (errNumBuffers). */
  lemma {:induction false} DeconPlain(v: Value, settable: bool, n: nat)
    requires Decon(v, settable, n).Done?
    ensures |Decon(v, settable, n).buffers| == Decon(v, settable, n).next - n + PlainSeen(v)
    decreases v, 0
  {
    if IsContainer(Core(v)) {
      DeconPlainSeq(SiteOf(v, settable), Children(Core(v)), n);
    }
  }

  lemma {:induction false} DeconPlainSeq(site: Site, vs: seq<Value>, n: nat)
    requires DeconSeq(site, vs, n).Done?
    ensures |DeconSeq(site, vs, n).buffers| == DeconSeq(site, vs, n).next - n + PlainSeenSeq(site.InSlice?, vs)
    decreases vs, 1
  {
    if vs != [] {
      var head := DeconAt(site, vs[0], n);
      if site.InSlice? {
        DeconPlain(vs[0], true, n);
      } else if !(site.InMap? && IsBytes(Elem(vs[0]))) {
        DeconPlain(Elem(vs[0]), if site.InMap? then vs[0].Ptr? else ElemSettable(vs[0], site.settable), n);
      }
      DeconPlainSeq(site, vs[1..], head.next);
    }
  }

  /** A successful extraction counts what it meets ... */
  lemma {:induction false} ReachedIsCounted(v: Value, settable: bool, n: nat)
    requires Decon(v, settable, n).Done? && Reaches(v)
    ensures Decon(v, settable, n).next > n
    decreases v, 0
  {
    var core := Core(v);
    if IsContainer(core) {
      var i :| 0 <= i < |Children(core)| && Reaches(Visited(core.Slice?, Children(core)[i]));
      ReachedIsCountedSeq(SiteOf(v, settable), Children(core), n, i);
    }
  }

  lemma {:induction false} ReachedIsCountedAt(site: Site, v: Value, n: nat)
    requires DeconAt(site, v, n).Done? && Reaches(Visited(site.InSlice?, v))
    ensures DeconAt(site, v, n).next > n
    decreases v, 1
  {
    if site.InSlice? {
      ReachedIsCounted(v, true, n);
    } else if !(site.InMap? && Elem(v).Binary?) {
      ReachedIsCounted(Elem(v), if site.InMap? then v.Ptr? else ElemSettable(v, site.settable), n);
    }
  }

  lemma {:induction false} ReachedIsCountedSeq(site: Site, vs: seq<Value>, n: nat, i: nat)
    requires DeconSeq(site, vs, n).Done? && i < |vs| && Reaches(Visited(site.InSlice?, vs[i]))
    ensures DeconSeq(site, vs, n).next > n
    decreases vs, 2
  {
    if i > 0 {
      ReachedIsCountedSeq(site, vs[1..], DeconAt(site, vs[0], n).next, i - 1);
    } else {
      ReachedIsCountedAt(site, vs[0], n);
    }
  }

  /** ... and nothing else. */
  lemma {:induction false} CountedIsReached(v: Value, settable: bool, n: nat)
    requires Decon(v, settable, n).Done? && Decon(v, settable, n).next > n
    ensures Reaches(v)
    decreases v, 0
  {
    var core := Core(v);
    if IsContainer(core) {
      var i := CountedIsReachedSeq(SiteOf(v, settable), Children(core), n);
    }
  }

  lemma {:induction false} CountedIsReachedAt(site: Site, v: Value, n: nat)
    requires DeconAt(site, v, n).Done? && DeconAt(site, v, n).next > n
    ensures Reaches(Visited(site.InSlice?, v))
    decreases v, 1
  {
    if site.InSlice? {
      CountedIsReached(v, true, n);
    } else if !(site.InMap? && Elem(v).Binary?) {
      CountedIsReached(Elem(v), if site.InMap? then v.Ptr? else ElemSettable(v, site.settable), n);
    }
  }

  lemma {:induction false} CountedIsReachedSeq(site: Site, vs: seq<Value>, n: nat) returns (i: nat)
    requires DeconSeq(site, vs, n).Done? && DeconSeq(site, vs, n).next > n
    ensures i < |vs| && Reaches(Visited(site.InSlice?, vs[i]))
    decreases vs, 2
  {
    if DeconAt(site, vs[0], n).next > n {
      i := 0;
      CountedIsReachedAt(site, vs[0], n);
    } else {
      var j := CountedIsReachedSeq(site, vs[1..], n);
      i := j + 1;
    }
  }

  /** What hasBinary finds, the extraction meets; the converse holds without a third wrapper. */
  lemma {:induction false} FoundIsReached(v: Value)
    ensures HasBinary(v) ==> Reaches(v)
    ensures ShallowWrappers(v) && Reaches(v) ==> HasBinary(v)
    decreases v
  {
    var core := Core(v);
    if IsContainer(core) {
      forall i | 0 <= i < |Children(core)|
        ensures HasBinary(Children(core)[i]) ==> Reaches(Visited(core.Slice?, Children(core)[i]))
        ensures ShallowWrappers(v) && Reaches(Visited(core.Slice?, Children(core)[i])) ==>
                  HasBinary(Children(core)[i]) {
        var child := Children(core)[i];
        FoundIsReached(child);
        OneMoreWrapper(child);
      }
    }
  }

  /** Looking through one wrapper more changes nothing, unless there are three. */
  lemma OneMoreWrapper(v: Value)
    ensures Reaches(v) ==> Reaches(Elem(v))
    ensures !Wrapped(Core(v)) && Reaches(Elem(v)) ==> Reaches(v)
  {
    assert !Wrapped(Core(v)) ==> Core(Elem(v)) == Core(v);
    assert Core(v).Binary? || IsContainer(Core(v)) ==> !Wrapped(Core(v));
  }

  /** Of the trees with a Binary to reach, hasBinary misses exactly those in which all are hidden. */
  lemma {:induction false} HiddenExactly(v: Value)
    requires Reaches(v)
    ensures HasBinary(v) <==> !Hidden(v)
    decreases v
  {
    var core := Core(v);
    if IsContainer(core) {
      forall i | 0 <= i < |Children(core)|
        ensures var c := Children(core)[i];
                HasBinary(c) <==> Reaches(Visited(core.Slice?, c))
                                  && !((!core.Slice? && Wrapped(Core(c))) || Hidden(c)) {
        var c := Children(core)[i];
        FoundIsReached(c);
        OneMoreWrapper(c);
        if Reaches(c) {
          HiddenExactly(c);
        }
      }
    }
  }

  /**
   * For any successful extraction hasBinary is right about a tree if and only if it does not hide all that there is to
   * reach; it is right about every tree without a third wrapper.
   */
  lemma TraversalsAgree(v: Value, settable: bool, n: nat)
    requires Decon(v, settable, n).Done?
    ensures Decon(v, settable, n).next > n <==> Reaches(v)
    ensures (HasBinary(v) <==> Decon(v, settable, n).next > n) <==> !(Reaches(v) && Hidden(v))
    ensures ShallowWrappers(v) || HasBinary(v) ==> !(Reaches(v) && Hidden(v))
  {
    FoundIsReached(v);
    if Reaches(v) {
      HiddenExactly(v);
      ReachedIsCounted(v, settable, n);
    } else if Decon(v, settable, n).next > n {
      CountedIsReached(v, settable, n);
    }
  }

  /** With one they need not: a struct field of type ***T hides its Binary from hasBinary only. */
  lemma TraversalsDisagree()
    ensures exists v: Value ::
              && !HasBinary(v)
              && Decon(v, false, 0).Done? && Decon(v, false, 0).next == 1
  {
    var leaf := Binary(Raw([7]));
    var inner := Struct(["bin"], [leaf]);
    var deep := Ptr(Ptr(Ptr(inner)));
    var v := Ptr(Struct(["deep"], [deep]));
    assert Core(v) == Struct(["deep"], [deep]) && Core(deep) == Ptr(inner) && Core(Ptr(Ptr(inner))) == inner;
    assert !HasBinary(deep);
    assert Children(Core(v)) == [deep];
    assert DeconAt(InStruct(true), leaf, 0) == Done(Binary(Placeholder(0)), [[7]], 1);
    DeconSeqOne(InStruct(true), leaf, 0);
    assert Decon(Ptr(Ptr(inner)), true, 0).Done? && Decon(Ptr(Ptr(inner)), true, 0).next == 1;
    DeconSeqOne(InStruct(true), deep, 0);
    assert Decon(v, false, 0).Done?;
  }
}
