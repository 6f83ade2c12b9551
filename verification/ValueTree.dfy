/**
 * Go values as the Socket.IO codec sees them through reflection, and what they mean as JSON.
 *
 * The two wrappers matter to the codec: an interface (`Box`) or a pointer (`Ptr`) is looked
 * through a bounded number of times, and which of them surrounds a value decides whether the
 * value can be overwritten.  Maps list their entries in iteration order, so a statement about
 * every tree is a statement about every order.
 */
module ValueTree {
  import opened Prelude
  import opened Decimal

  datatype Atom = Bool(b: bool) | Num(n: nat) | Text(t: string)

  /** The bytes of a `sio.Binary`: the user's own, or the JSON text of a numbered placeholder. */
  datatype Payload = Raw(data: Bytes) | Placeholder(num: nat)

  datatype Value =
    | Nil                                                     // nil interface or nil pointer
    | Scalar(atom: Atom)                                      // any kind no traversal enters
    | Binary(payload: Payload)                                // []byte type that says SocketIOBinary
    | PlainBytes(bytes: Bytes)                                // any other []byte
    | Struct(names: seq<string>, fields: seq<Value>)          // exported fields
    | Slice(elems: seq<Value>)                                // of pointers, interfaces, structs or slices
    | OtherSlice(others: seq<Value>)                          // of any other element kind, maps included
    | Map(keys: seq<string>, entries: seq<Value>)             // in iteration order
    | Box(boxed: Value)
    | Ptr(target: Value)

  /** A JSON document, with the two things JSON text cannot hold: raw bytes, and a placeholder. */
  datatype Json =
    | JNull
    | JAtom(atom: Atom)
    | JBlob(data: Bytes)
    | JHole(num: nat)
    | JArray(items: seq<Json>)
    | JObject(members: map<string, Json>)

  const PLACEHOLDER_KEY: string := "_placeholder"
  const NUM_KEY: string := "num"

  /** An object is the placeholder of attachment k when it is exactly {"_placeholder":true,"num":k}. */
  predicate IsPlaceholderObject(m: map<string, Json>) {
    && m.Keys == {PLACEHOLDER_KEY, NUM_KEY}
    && m[PLACEHOLDER_KEY] == JAtom(Bool(true))
    && m[NUM_KEY].JAtom? && m[NUM_KEY].atom.Num?
  }

  function ObjectOf(m: map<string, Json>): (j: Json)
    ensures IsPlaceholderObject(m) ==> j == JHole(m[NUM_KEY].atom.n)
    ensures !IsPlaceholderObject(m) ==> j == JObject(m)
  {
    if IsPlaceholderObject(m) then JHole(m[NUM_KEY].atom.n) else JObject(m)
  }

  /** What a value says, with wrappers, field order and map order forgotten. */
  function Content(v: Value): Json
    decreases v, 0
  {
    match v
    case Nil => JNull
    case Scalar(a) => JAtom(a)
    case Binary(Raw(d)) => JBlob(d)
    case Binary(Placeholder(k)) => JHole(k)
    case PlainBytes(d) => JBlob(d)
    case Struct(names, fields) => ObjectOf(Members(names, fields))
    case Map(keys, entries) => ObjectOf(Members(keys, entries))
    case Slice(es) => JArray(Contents(es))
    case OtherSlice(es) => JArray(Contents(es))
    case Box(x) => Content(x)
    case Ptr(x) => Content(x)
  }

  function Contents(vs: seq<Value>): (js: seq<Json>)
    ensures |js| == |vs|
    decreases vs, 1
  {
    if vs == [] then [] else [Content(vs[0])] + Contents(vs[1..])
  }

  function Members(keys: seq<string>, vs: seq<Value>): map<string, Json>
    decreases vs, 1
  {
    if keys == [] || vs == [] then map[]
    else Members(keys[1..], vs[1..])[keys[0] := Content(vs[0])]
  }

  /** Put attachment k in place of every placeholder k. */
  function Fill(j: Json, attachments: seq<Bytes>): Json {
    match j
    case JHole(k) => if k < |attachments| then JBlob(attachments[k]) else j
    case JArray(items) => JArray(seq(|items|, i requires 0 <= i < |items| => Fill(items[i], attachments)))
    case JObject(m) => JObject(map k | k in m :: Fill(m[k], attachments))
    case _ => j
  }

  /** Every placeholder in the document is numbered below n. */
  predicate HolesBelow(j: Json, n: nat) {
    match j
    case JHole(k) => k < n
    case JArray(items) => forall i | 0 <= i < |items| :: HolesBelow(items[i], n)
    case JObject(m) => forall k | k in m :: HolesBelow(m[k], n)
    case _ => true
  }

  /** The document holds no placeholder at all. */
  predicate HoleFree(j: Json) {
    HolesBelow(j, 0)
  }

  lemma {:induction false} FillHoleFree(j: Json, attachments: seq<Bytes>)
    requires HoleFree(j)
    ensures Fill(j, attachments) == j
  {
    match j
    case JArray(items) =>
      forall i | 0 <= i < |items| ensures Fill(items[i], attachments) == items[i] {
        FillHoleFree(items[i], attachments);
      }
    case JObject(m) =>
      forall k | k in m ensures Fill(m[k], attachments) == m[k] {
        FillHoleFree(m[k], attachments);
      }
    case _ =>
  }

  /** Filling removes every placeholder exactly when each one is in range. */
  lemma {:induction false} FillRemovesHoles(j: Json, attachments: seq<Bytes>)
    ensures HoleFree(Fill(j, attachments)) <==> HolesBelow(j, |attachments|)
  {
    match j
    case JArray(items) =>
      forall i | 0 <= i < |items|
        ensures HoleFree(Fill(items[i], attachments)) <==> HolesBelow(items[i], |attachments|) {
        FillRemovesHoles(items[i], attachments);
      }
      var filled := Fill(j, attachments).items;
      assert forall i | 0 <= i < |items| :: filled[i] == Fill(items[i], attachments);
    case JObject(m) =>
      forall k | k in m
        ensures HoleFree(Fill(m[k], attachments)) <==> HolesBelow(m[k], |attachments|) {
        FillRemovesHoles(m[k], attachments);
      }
      var filled := Fill(j, attachments).members;
      assert forall k | k in m :: filled[k] == Fill(m[k], attachments);
    case _ =>
  }

  /** No value in the tree reads as a placeholder: neither a Binary holding one nor an object shaped like one. */
  predicate NoPlaceholder(v: Value) {
    match v
    case Binary(p) => p.Raw?
    case Struct(names, fields) => !PlaceholderShaped(v) && forall i | 0 <= i < |fields| :: NoPlaceholder(fields[i])
    case Map(keys, entries) => !PlaceholderShaped(v) && forall i | 0 <= i < |entries| :: NoPlaceholder(entries[i])
    case Slice(es) => forall i | 0 <= i < |es| :: NoPlaceholder(es[i])
    case OtherSlice(es) => forall i | 0 <= i < |es| :: NoPlaceholder(es[i])
    case Box(x) => NoPlaceholder(x)
    case Ptr(x) => NoPlaceholder(x)
    case _ => true
  }

  lemma {:induction false} ContentsAt(vs: seq<Value>, i: nat)
    requires i < |vs|
    ensures Contents(vs)[i] == Content(vs[i])
  {
    if i > 0 {
      ContentsAt(vs[1..], i - 1);
    }
  }

  /** Every member of an object is the content of one of the values. */
  lemma {:induction false} MembersAt(keys: seq<string>, vs: seq<Value>, k: string) returns (i: nat)
    requires k in Members(keys, vs)
    ensures i < |vs| && Members(keys, vs)[k] == Content(vs[i])
  {
    if k == keys[0] {
      i := 0;
    } else {
      var j := MembersAt(keys[1..], vs[1..], k);
      i := j + 1;
    }
  }

  lemma {:induction false} NoPlaceholderIsHoleFree(v: Value)
    requires NoPlaceholder(v)
    ensures HoleFree(Content(v))
  {
    match v
    case Struct(names, fields) => NoPlaceholderMembers(v, names, fields);
    case Map(keys, entries) => NoPlaceholderMembers(v, keys, entries);
    case Slice(es) => NoPlaceholderItems(v, es);
    case OtherSlice(es) => NoPlaceholderItems(v, es);
    case Box(x) => NoPlaceholderIsHoleFree(x);
    case Ptr(x) => NoPlaceholderIsHoleFree(x);
    case _ =>
  }

  lemma NoPlaceholderItems(v: Value, es: seq<Value>)
    requires forall i | 0 <= i < |es| :: NoPlaceholder(es[i])
    requires forall i | 0 <= i < |es| :: es[i] < v
    ensures forall i | 0 <= i < |es| :: HoleFree(Contents(es)[i])
    decreases v, 0
  {
    forall i | 0 <= i < |es| ensures HoleFree(Contents(es)[i]) {
      NoPlaceholderIsHoleFree(es[i]);
      ContentsAt(es, i);
    }
  }

  lemma NoPlaceholderMembers(v: Value, keys: seq<string>, vs: seq<Value>)
    requires forall i | 0 <= i < |vs| :: NoPlaceholder(vs[i])
    requires forall i | 0 <= i < |vs| :: vs[i] < v
    ensures forall k | k in Members(keys, vs) :: HoleFree(Members(keys, vs)[k])
    decreases v, 0
  {
    forall k | k in Members(keys, vs) ensures HoleFree(Members(keys, vs)[k]) {
      var i := MembersAt(keys, vs, k);
      NoPlaceholderIsHoleFree(vs[i]);
    }
  }

  /** Filling children one by one fills the object they make. */
  lemma {:induction false} FillMembers(keys: seq<string>, vs: seq<Value>, vs': seq<Value>, all: seq<Bytes>)
    requires |vs| == |vs'| && forall i | 0 <= i < |vs| :: Fill(Content(vs'[i]), all) == Content(vs[i])
    ensures Members(keys, vs').Keys == Members(keys, vs).Keys
    ensures forall k | k in Members(keys, vs) :: Fill(Members(keys, vs')[k], all) == Members(keys, vs)[k]
  {
    if keys != [] && vs != [] {
      FillMembers(keys[1..], vs[1..], vs'[1..], all);
    }
  }

  lemma FillObject(m: map<string, Json>, m': map<string, Json>, all: seq<Bytes>)
    requires m'.Keys == m.Keys && forall k | k in m :: Fill(m'[k], all) == m[k]
    ensures IsPlaceholderObject(m) <==> IsPlaceholderObject(m')
    ensures !IsPlaceholderObject(m) ==> Fill(ObjectOf(m'), all) == ObjectOf(m)
  {
    assert (map k | k in m' :: Fill(m'[k], all)) == m;
  }

  /** A struct or a map that says {"_placeholder":true,"num":k}. */
  predicate PlaceholderShaped(v: Value) {
    match v
    case Struct(names, fields) => IsPlaceholderObject(Members(names, fields))
    case Map(keys, entries) => IsPlaceholderObject(Members(keys, entries))
    case _ => false
  }

  /** When filling turns each child of x into the child of y, it turns x into y. */
  lemma FillContainer(x: Value, y: Value, all: seq<Bytes>)
    requires IsContainer(x) && IsContainer(y) && |Children(x)| == |Children(y)| && y == WithChildren(x, Children(y))
    requires forall i | 0 <= i < |Children(x)| :: Fill(Content(Children(x)[i]), all) == Content(Children(y)[i])
    ensures PlaceholderShaped(x) <==> PlaceholderShaped(y)
    ensures !PlaceholderShaped(x) ==> Fill(Content(x), all) == Content(y)
  {
    if x.Slice? {
      FillContents(Children(y), Children(x), all);
    } else {
      var keys := if x.Struct? then x.names else x.keys;
      FillMembers(keys, Children(y), Children(x), all);
      FillObject(Members(keys, Children(y)), Members(keys, Children(x)), all);
    }
  }

  lemma FillContents(vs: seq<Value>, vs': seq<Value>, all: seq<Bytes>)
    requires |vs| == |vs'| && forall i | 0 <= i < |vs| :: Fill(Content(vs'[i]), all) == Content(vs[i])
    ensures Fill(JArray(Contents(vs')), all) == JArray(Contents(vs))
  {
    forall i | 0 <= i < |vs| ensures Fill(Contents(vs')[i], all) == Contents(vs)[i] {
      ContentsAt(vs, i);
      ContentsAt(vs', i);
    }
  }

  /** The bytes a Binary carries, placeholder text included (parser/json/binary.go, struct placeholder). */
  function PayloadBytes(p: Payload): Bytes {
    match p
    case Raw(d) => d
    case Placeholder(k) => Ascii("{\"_placeholder\":true,\"num\":") + Digits(k) + Ascii("}")
  }

  /** One wrapper fewer, if there is one: reflect's Elem on an interface or a pointer. */
  function Elem(v: Value): (r: Value)
    ensures r == v || r < v
  {
    match v
    case Box(x) => x
    case Ptr(x) => x
    case _ => v
  }

  predicate Wrapped(v: Value) {
    v.Box? || v.Ptr?
  }

  /** The value under at most two wrappers: the codec unwraps twice and no further. */
  function Core(v: Value): (r: Value)
    ensures r == v || r < v
  {
    Elem(Elem(v))
  }

  /** Whether Elem(v) can be assigned, when v itself can be assigned iff `settable`. */
  predicate ElemSettable(v: Value, settable: bool) {
    match v
    case Box(_) => false
    case Ptr(_) => true
    case _ => settable
  }

  predicate CoreSettable(v: Value, settable: bool) {
    ElemSettable(Elem(v), ElemSettable(v, settable))
  }

  /** The same wrappers around another value. */
  function Rewrap(v: Value, x: Value): Value {
    match v
    case Box(_) => Box(x)
    case Ptr(_) => Ptr(x)
    case _ => x
  }

  function RewrapCore(v: Value, x: Value): Value {
    if Wrapped(v) then Rewrap(v, Rewrap(Elem(v), x)) else x
  }

  /** The kinds whose children the traversals visit. */
  predicate IsContainer(v: Value) {
    v.Slice? || v.Struct? || v.Map?
  }

  function Children(v: Value): (vs: seq<Value>)
    requires IsContainer(v)
    ensures v decreases to vs
  {
    match v
    case Slice(es) => es
    case Struct(_, fields) => fields
    case Map(_, entries) => entries
  }

  function WithChildren(v: Value, vs: seq<Value>): (r: Value)
    requires IsContainer(v)
    ensures IsContainer(r) && Children(r) == vs
  {
    match v
    case Slice(_) => Slice(vs)
    case Struct(names, _) => Struct(names, vs)
    case Map(keys, _) => Map(keys, vs)
  }

  predicate IsBytes(v: Value) {
    v.Binary? || v.PlainBytes?
  }

  lemma ContentOfCore(v: Value, x: Value)
    ensures Content(Core(v)) == Content(v)
    ensures Content(RewrapCore(v, x)) == Content(x)
    ensures Content(Elem(v)) == Content(v)
    ensures Content(Rewrap(v, x)) == Content(x)
  {
    var e := Elem(v);
    assert Content(e) == Content(v);
    assert Content(Elem(e)) == Content(e);
    var y := Rewrap(e, x);
    assert Content(y) == Content(x);
  }
}
