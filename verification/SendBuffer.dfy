/**
 * The frames a client socket keeps while it is disconnected (client_socket.go): they are stored one item per frame,
 * and the timeout of an acknowledgement takes the items of its packet out again, while it ranges over them.
 */
module SendBuffer {
  import opened Prelude

  type AckId = nat

  /** A sendBufferItem, as far as its packet goes: the acknowledgement it asks for, or answers. */
  type Item = Option<AckId>

  predicate Matches(item: Item, id: AckId) {
    item == Some(id)
  }

  /** What the loop leaves behind: it does not look at the item that moves into the place of one it removed. */
  function Skimmed(items: seq<Item>, id: AckId): seq<Item> {
    if items == [] then []
    else if !Matches(items[0], id) then [items[0]] + Skimmed(items[1..], id)
    else if |items| == 1 then []
    else [items[1]] + Skimmed(items[2..], id)
  }

  /** Some item before the last one matches. */
  predicate MatchesBeforeLast(items: seq<Item>, id: AckId) {
    exists j | 0 <= j < |items| - 1 :: Matches(items[j], id)
  }

  /** The last item matches, and it is not the only one that does. */
  predicate Panics(items: seq<Item>, id: AckId) {
    items != [] && Matches(items[|items| - 1], id) && MatchesBeforeLast(items, id)
  }

  class Buffer {
    var backing: array<Item>
    var len: nat

    ghost predicate Valid()
      reads this
    {
      len <= backing.Length
    }

    function Items(): seq<Item>
      requires Valid()
      reads this, backing
    {
      backing[..len]
    }

    constructor (items: seq<Item>)
      ensures Valid() && fresh(backing) && Items() == items
    {
      backing := new Item[|items|](i requires 0 <= i < |items| => items[i]);
      len := |items|;
    }

    /**
     * The range loop of the timeout function.  The number of turns is fixed at the start, each turn reads the backing
     * array as it is then, and a removal shifts the rest of it down; slicing past the shortened length panics.
     */
    method RemoveTimedOut(id: AckId) returns (panics: bool)
      requires Valid()
      modifies this`len, backing
      ensures Valid() && panics == Panics(old(Items()), id)
      ensures !panics ==> Items() == Skimmed(old(Items()), id)
    {
      LoopIs(Items(), id);
      panics := RunLoop(id);
    }

    method RunLoop(id: AckId) returns (panics: bool)
      requires Valid()
      modifies this`len, backing
      ensures Valid() && Loop(old(Items()), old(len), 0, id) == if panics then Panicked else Left(Items())
    {
      var n := len;
      ghost var result := Loop(backing[..n], n, 0, id);
      for i := 0 to n
        invariant Valid() && len <= n <= backing.Length
        invariant Loop(backing[..n], len, i, id) == result
      {
        panics := Turn(id, i, n);
        if panics {
          return;
        }
      }
      assert backing[..n][..len] == backing[..len];
      return false;
    }

    /** One turn of the loop. */
    method Turn(id: AckId, i: nat, n: nat) returns (panics: bool)
      requires i < n && len <= n <= backing.Length
      modifies this`len, backing
      ensures len <= n
      ensures Loop(old(backing[..n]), old(len), i, id) ==
              if panics then Panicked else Loop(backing[..n], len, i + 1, id)
    {
      var item := backing[i];
      if !Matches(item, id) {
        return false;
      }
      if i + 1 > len {
        return true;
      }
      ShiftedPrefix(backing[..], len, i, n);
      ghost var a := backing[..];
      assert a[..n] == backing[..n];
      ShiftDown(i);
      assert backing[..n] == backing[..][..n];
      return false;
    }

    /** append(slice[:i], slice[i+1:]...), in place. */
    method ShiftDown(i: nat)
      requires Valid() && i < len
      modifies this`len, backing
      ensures Valid() && len == old(len) - 1
      ensures backing[..] == Shifted(old(backing[..]), old(len), i)
    {
      forall k | i <= k < len - 1 {
        backing[k] := backing[k + 1];
      }
      len := len - 1;
    }
  }

  /** The array after the items from i + 1 up to m have moved down by one; what is behind them stays. */
  function Shifted(a: seq<Item>, m: nat, i: nat): seq<Item>
    requires i < m <= |a|
  {
    a[..i] + a[i + 1..m] + a[m - 1..]
  }

  lemma ShiftedPrefix(a: seq<Item>, m: nat, i: nat, n: nat)
    requires i < m <= n <= |a|
    ensures Shifted(a, m, i)[..n] == Shifted(a[..n], m, i)
  {
    assert a[..n][..i] == a[..i] && a[..n][i + 1..m] == a[i + 1..m] && a[..n][m - 1..] == a[m - 1..n];
  }

  datatype LoopResult = Panicked | Left(items: seq<Item>)

  /** The loop from turn i on: a is the backing array, and m the length of the slice. */
  function Loop(a: seq<Item>, m: nat, i: nat, id: AckId): LoopResult
    requires m <= |a| && i <= |a|
    decreases |a| - i
  {
    if i == |a| then Left(a[..m])
    else if !Matches(a[i], id) then Loop(a, m, i + 1, id)
    else if i + 1 > m then Panicked
    else Loop(Shifted(a, m, i), m - 1, i + 1, id)
  }

  // ------------------------------------------------------------------------------------------
  // Where it leads
  // ------------------------------------------------------------------------------------------

  /** Copies of the last item, which removals leave behind the end of the slice. */
  function Copies(z: Item, r: nat): seq<Item> {
    seq(r, k => z)
  }

  /** The turns behind the end of the slice: a copy that matches panics. */
  lemma {:induction false} LoopOverCopies(p: seq<Item>, z: Item, r: nat, k: nat, id: AckId)
    requires k <= r
    ensures Loop(p + Copies(z, r), |p|, |p| + k, id) == if k < r && Matches(z, id) then Panicked else Left(p)
    decreases r - k
  {
    var a := p + Copies(z, r);
    if k < r {
      assert a[|p| + k] == z;
      if !Matches(z, id) {
        LoopOverCopies(p, z, r, k + 1, id);
      }
    } else {
      assert a[..|p|] == p;
    }
  }

  /** Settled items p, live items x still to come, and r copies of the last one. */
  function Array(p: seq<Item>, x: seq<Item>, z: Item, r: nat): seq<Item> {
    p + x + Copies(z, r)
  }

  /** The loop will meet a matching copy: of an item removed already, or of one it is going to remove. */
  predicate PanicsWith(x: seq<Item>, z: Item, r: nat, id: AckId) {
    Matches(z, id) && (r > 0 || MatchesBeforeLast(x, id))
  }

  lemma ArrayKeeps(p: seq<Item>, x: seq<Item>, z: Item, r: nat)
    requires x != []
    ensures Array(p, x, z, r)[|p|] == x[0] && Array(p, x, z, r) == Array(p + [x[0]], x[1..], z, r)
  {
  }

  lemma ArrayShifts(p: seq<Item>, x: seq<Item>, z: Item, r: nat)
    requires x != [] && x[|x| - 1] == z
    ensures Shifted(Array(p, x, z, r), |p| + |x|, |p|) == Array(p, x[1..], z, r + 1)
  {
    var a := Array(p, x, z, r);
    assert a[..|p|] == p && a[|p| + 1..|p| + |x|] == x[1..] && a[|p| + |x| - 1..] == Copies(z, r + 1);
  }

  /** One turn on a live item. */
  lemma LoopTurn(p: seq<Item>, x: seq<Item>, z: Item, r: nat, id: AckId)
    requires x != [] && x[|x| - 1] == z
    ensures var a, m := Array(p, x, z, r), |p| + |x|;
            Loop(a, m, |p|, id) ==
            if Matches(x[0], id) then Loop(Array(p, x[1..], z, r + 1), m - 1, |p| + 1, id)
            else Loop(a, m, |p| + 1, id)
  {
    ArrayKeeps(p, x, z, r);
    ArrayShifts(p, x, z, r);
  }

  /** The loop goes where it should from here. */
  predicate LoopOk(p: seq<Item>, x: seq<Item>, z: Item, r: nat, id: AckId) {
    Loop(Array(p, x, z, r), |p| + |x|, |p|, id) ==
    if PanicsWith(x, z, r, id) then Panicked else Left(p + Skimmed(x, id))
  }

  lemma LoopAtEnd(p: seq<Item>, z: Item, r: nat, id: AckId)
    ensures LoopOk(p, [], z, r, id)
  {
    assert Array(p, [], z, r) == p + Copies(z, r) && p + [] == p;
    LoopOverCopies(p, z, r, 0, id);
  }

  lemma LoopKeeps(p: seq<Item>, x: seq<Item>, z: Item, r: nat, id: AckId)
    requires x != [] && x[|x| - 1] == z && !Matches(x[0], id) && LoopOk(p + [x[0]], x[1..], z, r, id)
    ensures LoopOk(p, x, z, r, id)
  {
    LoopTurn(p, x, z, r, id);
    ArrayKeeps(p, x, z, r);
    PanicsTail(x, z, r, id);
    Assoc(p, [x[0]], Skimmed(x[1..], id));
  }

  lemma LoopRemovesLast(p: seq<Item>, z: Item, r: nat, id: AckId)
    requires Matches(z, id)
    ensures LoopOk(p, [z], z, r, id)
  {
    LoopTurn(p, [z], z, r, id);
    assert [z][1..] == [] && Array(p, [], z, r + 1) == p + Copies(z, r + 1) && p + [] == p;
    LoopOverCopies(p, z, r + 1, 1, id);
  }

  lemma LoopSkips(p: seq<Item>, x: seq<Item>, z: Item, r: nat, id: AckId)
    requires |x| > 1 && x[|x| - 1] == z && Matches(x[0], id) && LoopOk(p + [x[1]], x[2..], z, r + 1, id)
    ensures LoopOk(p, x, z, r, id)
  {
    LoopTurn(p, x, z, r, id);
    ArrayKeeps(p, x[1..], z, r + 1);
    assert x[1..][1..] == x[2..];
    Assoc(p, [x[1]], Skimmed(x[2..], id));
  }

  lemma PanicsTail(x: seq<Item>, z: Item, r: nat, id: AckId)
    requires x != [] && x[|x| - 1] == z && !Matches(x[0], id)
    ensures PanicsWith(x, z, r, id) <==> PanicsWith(x[1..], z, r, id)
  {
    if MatchesBeforeLast(x, id) {
      var j :| 0 <= j < |x| - 1 && Matches(x[j], id);
      assert Matches(x[1..][j - 1], id);
    }
    if MatchesBeforeLast(x[1..], id) {
      var j :| 0 <= j < |x[1..]| - 1 && Matches(x[1..][j], id);
      assert Matches(x[j + 1], id);
    }
  }

  lemma {:induction false} LoopFrom(p: seq<Item>, x: seq<Item>, z: Item, r: nat, id: AckId)
    requires x != [] ==> x[|x| - 1] == z
    ensures LoopOk(p, x, z, r, id)
    decreases |x|
  {
    if x == [] {
      LoopAtEnd(p, z, r, id);
    } else if !Matches(x[0], id) {
      LoopFrom(p + [x[0]], x[1..], z, r, id);
      LoopKeeps(p, x, z, r, id);
    } else if |x| == 1 {
      assert x == [z];
      LoopRemovesLast(p, z, r, id);
    } else {
      LoopFrom(p + [x[1]], x[2..], z, r + 1, id);
      LoopSkips(p, x, z, r, id);
    }
  }

  /** The loop panics, or leaves the skimmed items. */
  lemma LoopIs(items: seq<Item>, id: AckId)
    ensures Loop(items, |items|, 0, id) == if Panics(items, id) then Panicked else Left(Skimmed(items, id))
  {
    var z := if items == [] then None else items[|items| - 1];
    assert Array([], items, z, 0) == items && [] + Skimmed(items, id) == Skimmed(items, id);
    LoopFrom([], items, z, 0, id);
  }

  // ------------------------------------------------------------------------------------------
  // What the timeout achieves
  // ------------------------------------------------------------------------------------------

  predicate Clear(items: seq<Item>, id: AckId) {
    forall j | 0 <= j < |items| :: !Matches(items[j], id)
  }

  predicate Adjacent(items: seq<Item>, id: AckId) {
    exists j | 0 <= j < |items| - 1 :: Matches(items[j], id) && Matches(items[j + 1], id)
  }

  lemma ClearTail(items: seq<Item>, id: AckId)
    requires items != []
    ensures Clear(items, id) <==> !Matches(items[0], id) && Clear(items[1..], id)
  {
    assert items == [items[0]] + items[1..];
  }

  lemma AdjacentTail(items: seq<Item>, id: AckId)
    requires |items| > 1
    ensures Adjacent(items, id) <==> (Matches(items[0], id) && Matches(items[1], id)) || Adjacent(items[1..], id)
  {
    var rest := items[1..];
    if Adjacent(rest, id) {
      var j :| 0 <= j < |rest| - 1 && Matches(rest[j], id) && Matches(rest[j + 1], id);
      assert Matches(items[j + 1], id) && Matches(items[j + 2], id);
    }
    if Adjacent(items, id) && !(Matches(items[0], id) && Matches(items[1], id)) {
      var j :| 0 <= j < |items| - 1 && Matches(items[j], id) && Matches(items[j + 1], id);
      assert Matches(rest[j - 1], id) && Matches(rest[j], id);
    }
  }

  /** When it does not panic the timeout removes all items of its packet if and only if no two of them are adjacent. */
  lemma {:induction false} ClearedExactly(items: seq<Item>, id: AckId)
    ensures Clear(Skimmed(items, id), id) <==> !Adjacent(items, id)
    decreases |items|
  {
    if |items| > 1 {
      AdjacentTail(items, id);
      ClearTail(Skimmed(items, id), id);
      if Matches(items[0], id) {
        assert Skimmed(items, id)[1..] == Skimmed(items[2..], id);
        ClearedExactly(items[2..], id);
        if |items| > 2 {
          AdjacentTail(items[1..], id);
          assert items[1..][1..] == items[2..];
        }
      } else {
        assert Skimmed(items, id)[1..] == Skimmed(items[1..], id);
        ClearedExactly(items[1..], id);
      }
    } else if |items| == 1 && !Matches(items[0], id) {
      assert Skimmed(items[1..], id) == [];
    }
  }

  /** The frames of one packet, as _sendBuffers stores them. */
  function Frames(id: AckId, k: nat): seq<Item> {
    seq(k, i => Some(id))
  }

  lemma FramesHead(id: AckId, k: nat, after: seq<Item>)
    requires k > 0
    ensures (Frames(id, k) + after)[0] == Some(id) && (Frames(id, k) + after)[1..] == Frames(id, k - 1) + after
    ensures [Some(id)] + Frames(id, k - 1) == Frames(id, k)
  {
  }

  lemma {:induction false} SkimmedFrames(id: AckId, k: nat, after: seq<Item>)
    requires Clear(after, id) && after != []
    ensures Skimmed(Frames(id, k) + after, id) == Frames(id, k / 2) + after
    decreases k
  {
    var items := Frames(id, k) + after;
    if k == 0 {
      assert items == after;
      SkimmedClear(after, id);
    } else if k == 1 {
      FramesHead(id, 1, after);
      assert Frames(id, 0) + after == after;
      assert items[1] == after[0] && items[2..] == items[1..][1..] == after[1..];
      SkimmedClear(after, id);
      ClearTail(after, id);
      SkimmedClear(after[1..], id);
    } else {
      FramesHead(id, k, after);
      FramesHead(id, k - 1, after);
      assert items[1] == items[1..][0] && items[2..] == items[1..][1..];
      SkimmedFrames(id, k - 2, after);
      FramesHead(id, k / 2, after);
      Assoc([Some(id)], Frames(id, k / 2 - 1), after);
    }
  }

  lemma {:induction false} SkimmedClear(items: seq<Item>, id: AckId)
    requires Clear(items, id)
    ensures Skimmed(items, id) == items
  {
    if items != [] {
      ClearTail(items, id);
      SkimmedClear(items[1..], id);
    }
  }

  lemma {:induction false} SkimmedBefore(before: seq<Item>, items: seq<Item>, id: AckId)
    requires Clear(before, id)
    ensures Skimmed(before + items, id) == before + Skimmed(items, id)
  {
    if before == [] {
      assert before + items == items;
    } else {
      ClearTail(before, id);
      assert (before + items)[0] == before[0] && (before + items)[1..] == before[1..] + items;
      SkimmedBefore(before[1..], items, id);
    }
  }

  /**
   * One packet of k frames among others: the timeout panics if and only if the packet has several frames and is the
   * last one; otherwise half of its frames, rounded down, stay in the buffer, so it is gone if and only if k <= 1.
   */
  lemma OnePacket(before: seq<Item>, id: AckId, k: nat, after: seq<Item>)
    requires Clear(before, id) && Clear(after, id)
    ensures var items := before + Frames(id, k) + after;
            && (Panics(items, id) <==> k >= 2 && after == [])
            && (!Panics(items, id) ==> Skimmed(items, id) == before + Frames(id, k / 2) + after)
  {
    PanicsOnPacket(before, id, k, after);
    Assoc(before, Frames(id, k), after);
    Assoc(before, Frames(id, k / 2), after);
    SkimmedBefore(before, Frames(id, k) + after, id);
    if after != [] {
      SkimmedFrames(id, k, after);
    } else {
      assert k <= 1 ==> Skimmed(Frames(id, k) + [], id) == [] == Frames(id, k / 2) + [];
    }
  }

  lemma PanicsOnPacket(before: seq<Item>, id: AckId, k: nat, after: seq<Item>)
    requires Clear(before, id) && Clear(after, id)
    ensures Panics(before + Frames(id, k) + after, id) <==> k >= 2 && after == []
  {
    var items := before + Frames(id, k) + after;
    if after != [] {
      assert items[|items| - 1] == after[|after| - 1];
    } else if k >= 2 {
      assert Matches(items[|before|], id) && Matches(items[|items| - 1], id);
    } else {
      forall j | 0 <= j < |items| - 1 ensures !Matches(items[j], id) {
        assert j < |before| && items[j] == before[j];
      }
      assert k == 0 && items != [] ==> items[|items| - 1] == before[|before| - 1];
    }
  }
}
