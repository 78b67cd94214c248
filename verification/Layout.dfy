/**
 The layout of aggregate types: bases, the pointer to the virtual table, members, padding.
 */
module Layout {
  import opened Bits
  import opened Aligning

  const VPTR_SIZE: nat := 8

  /** An item takes size bytes at a multiple of alignment. */
  datatype Item = Item(size: nat, alignment: nat)

  datatype Field = Field(fieldType: Type, offset: nat, alignment: nat)

  /** The fields of an aggregate are its bases, the pointer to its virtual table if it brings one,
      and its members. */
  datatype Type =
    | Scalar(scalarSize: nat, scalarAlignment: nat)
    | Array(element: Type, count: nat)
    | Aggregate(aggregateSize: nat, aggregateAlignment: nat, fields: seq<Field>)

  const VPTR: Type := Scalar(VPTR_SIZE, VPTR_SIZE)

  function Size(t: Type): nat {
    match t
    case Scalar(size, _) => size
    case Array(element, count) => if count == 0 then 0 else Size(element) * count
    case Aggregate(size, _, _) => size
  }

  function Alignment(t: Type): nat {
    match t
    case Scalar(_, alignment) => alignment
    case Array(element, _) => Alignment(element)
    case Aggregate(_, alignment, _) => alignment
  }

  // ----- What the code computes, in 64 bits -----

  function Sum(x: nat, y: nat): nat {
    (x + y) % SIZE_T
  }

  /** The end of the items, each put at the aligned end of those before it. */
  function EndAt(items: seq<Item>): nat {
    if items == [] then 0
    else Sum(Aligned(EndAt(items[..|items| - 1]), items[|items| - 1].alignment), items[|items| - 1].size)
  }

  function OffsetAt(items: seq<Item>, i: nat): nat
    requires i < |items|
  {
    Aligned(EndAt(items[..i]), items[i].alignment)
  }

  function Larger(a: nat, b: nat): nat {
    if a < b then b else a
  }

  function MaxAlignment(items: seq<Item>, alignment: nat): nat {
    if items == [] then alignment
    else Larger(MaxAlignment(items[..|items| - 1], alignment), items[|items| - 1].alignment)
  }

  // ----- What is wanted: every item at the least multiple at or after the end of the one before -----

  ghost predicate Powers(items: seq<Item>) {
    forall i :: 0 <= i < |items| ==> IsPow2(items[i].alignment)
  }

  ghost function TightEnd(items: seq<Item>): nat
    requires Powers(items)
  {
    if items == [] then 0
    else RoundUp(TightEnd(items[..|items| - 1]), items[|items| - 1].alignment) + items[|items| - 1].size
  }

  ghost function TightOffset(items: seq<Item>, i: nat): nat
    requires Powers(items) && i < |items|
  {
    RoundUp(TightEnd(items[..i]), items[i].alignment)
  }

  /** Every alignment, and the end rounded up to the largest, fits in 32 bits. */
  ghost predicate Fits(items: seq<Item>, alignment: nat)
    requires Powers(items)
  {
    0 < MaxAlignment(items, alignment) < WORD && RoundUp(TightEnd(items), MaxAlignment(items, alignment)) < WORD
  }

  lemma {:induction false} TightEnds(items: seq<Item>, i: nat, j: nat)
    requires Powers(items) && i <= j <= |items|
    ensures TightEnd(items[..i]) <= TightEnd(items[..j])
    ensures i < j ==> TightOffset(items, i) + items[i].size <= TightEnd(items[..j])
    decreases j - i
  {
    if i < j {
      TightEnds(items, i, j - 1);
      assert items[..j][..j - 1] == items[..j - 1];
    }
  }

  /** The alignment of the whole is at least that of every item ... */
  lemma {:induction false} AlignmentsBelow(items: seq<Item>, alignment: nat, i: nat)
    requires i <= |items|
    ensures MaxAlignment(items[..i], alignment) <= MaxAlignment(items, alignment)
    ensures i < |items| ==> items[i].alignment <= MaxAlignment(items, alignment)
    decreases |items| - i
  {
    if i < |items| {
      AlignmentsBelow(items, alignment, i + 1);
      assert items[..i + 1][..i] == items[..i];
    } else {
      assert items[..i] == items;
    }
  }

  /** ... and is that of an item, or the one given. */
  lemma {:induction false} AlignmentTaken(items: seq<Item>, alignment: nat)
    ensures var a := MaxAlignment(items, alignment);
            alignment <= a && (a == alignment || exists i :: 0 <= i < |items| && items[i].alignment == a)
  {
    if items != [] {
      AlignmentTaken(items[..|items| - 1], alignment);
    }
  }

  lemma ItemIsTight(end: nat, item: Item)
    requires IsPow2(item.alignment) && item.alignment < WORD && RoundUp(end, item.alignment) + item.size < WORD
    ensures Aligned(end, item.alignment) == RoundUp(end, item.alignment)
    ensures Sum(Aligned(end, item.alignment), item.size) == RoundUp(end, item.alignment) + item.size
  {
    AlignedIsRoundUp(end, item.alignment);
  }

  /** As long as nothing overflows the code puts everything where it is wanted. */
  lemma {:induction false} CodeIsTight(items: seq<Item>, alignment: nat, i: nat)
    requires Powers(items) && Fits(items, alignment) && i <= |items|
    ensures EndAt(items[..i]) == TightEnd(items[..i]) < WORD
    ensures i < |items| ==> OffsetAt(items, i) == TightOffset(items, i) < WORD
  {
    if i > 0 {
      CodeIsTight(items, alignment, i - 1);
      NextIsTight(items, alignment, i - 1);
    }
    TightEndFits(items, alignment, i);
    if i < |items| {
      NextFits(items, alignment, i);
      ItemIsTight(TightEnd(items[..i]), items[i]);
    }
  }

  lemma TightEndFits(items: seq<Item>, alignment: nat, i: nat)
    requires Powers(items) && Fits(items, alignment) && i <= |items|
    ensures TightEnd(items[..i]) < WORD
  {
    TightEnds(items, i, |items|);
    assert items[..|items|] == items;
  }

  lemma NextFits(items: seq<Item>, alignment: nat, i: nat)
    requires Powers(items) && Fits(items, alignment) && i < |items|
    ensures items[i].alignment < WORD && RoundUp(TightEnd(items[..i]), items[i].alignment) + items[i].size < WORD
  {
    AlignmentsBelow(items, alignment, i);
    TightEnds(items, i, i + 1);
    TightEnds(items, i + 1, |items|);
    assert items[..|items|] == items;
  }

  lemma NextIsTight(items: seq<Item>, alignment: nat, i: nat)
    requires Powers(items) && Fits(items, alignment) && i < |items| && EndAt(items[..i]) == TightEnd(items[..i])
    ensures EndAt(items[..i + 1]) == TightEnd(items[..i + 1])
  {
    NextFits(items, alignment, i);
    ItemIsTight(TightEnd(items[..i]), items[i]);
    assert items[..i + 1][..i] == items[..i];
  }

  // ----- Tightness -----

  /** The offsets obey the alignments and the order of the items. */
  ghost predicate Lawful(items: seq<Item>, offsets: seq<nat>) {
    && |offsets| == |items|
    && (forall i :: 0 <= i < |items| ==> Multiple(offsets[i], items[i].alignment))
    && (forall i, j :: 0 <= i < j < |items| ==> offsets[i] + items[i].size <= offsets[j])
  }

  /** The wanted offsets are lawful ... */
  lemma TightIsLawful(items: seq<Item>, offsets: seq<nat>)
    requires Powers(items) && |offsets| == |items|
    requires forall i :: 0 <= i < |items| ==> offsets[i] == TightOffset(items, i)
    ensures Lawful(items, offsets)
  {
    forall i | 0 <= i < |items| ensures Multiple(offsets[i], items[i].alignment) {
      RoundUpIsLeast(TightEnd(items[..i]), items[i].alignment);
    }
    forall i, j | 0 <= i < j < |items| ensures offsets[i] + items[i].size <= offsets[j] {
      TightEnds(items, i, j);
    }
  }

  /** ... and no lawful offset is smaller. */
  lemma {:induction false} NothingIsTighter(items: seq<Item>, offsets: seq<nat>, i: nat)
    requires Powers(items) && Lawful(items, offsets) && i < |items|
    ensures TightOffset(items, i) <= offsets[i]
  {
    if i > 0 {
      NothingIsTighter(items, offsets, i - 1);
      assert items[..i][..i - 1] == items[..i - 1];
    }
    RoundUpIsLeast(TightEnd(items[..i]), items[i].alignment);
    LeastIsLeast(TightOffset(items, i), offsets[i], TightEnd(items[..i]), items[i].alignment);
  }

  /** Nor is there room for the items in a smaller multiple of the alignment. */
  lemma NothingIsSmaller(items: seq<Item>, offsets: seq<nat>, alignment: nat, size: nat, tight: nat)
    requires Powers(items) && Lawful(items, offsets) && LeastMultiple(tight, TightEnd(items), alignment)
    requires Multiple(size, alignment) && forall i :: 0 <= i < |items| ==> offsets[i] + items[i].size <= size
    ensures tight <= size
  {
    if items != [] {
      NothingIsTighter(items, offsets, |items| - 1);
    }
    LeastIsLeast(tight, size, TightEnd(items), alignment);
  }

  // ----- Order, whatever the alignments -----

  ghost predicate ItemInRange(items: seq<Item>, i: nat)
    requires i < |items|
  {
    EndAt(items[..i]) + items[i].alignment <= SIZE_T && OffsetAt(items, i) + items[i].size < SIZE_T
  }

  /** Nothing wraps around. */
  ghost predicate InRange(items: seq<Item>) {
    forall i {:trigger ItemInRange(items, i)} :: 0 <= i < |items| ==> ItemInRange(items, i)
  }

  /** Each item ends before those after it begin. */
  ghost predicate InSequence(items: seq<Item>) {
    forall i, j {:trigger OffsetAt(items, i), OffsetAt(items, j)} ::
      0 <= i < j < |items| ==> OffsetAt(items, i) + items[i].size <= OffsetAt(items, j)
  }

  /** No item of alignment 0 comes after one that takes room. */
  predicate ResetsNothing(items: seq<Item>) {
    forall i, j :: 0 <= i < j < |items| && items[j].alignment == 0 ==> items[i].size == 0
  }

  lemma AlignedRaises(offset: nat, alignment: nat)
    requires 0 < alignment && offset + alignment <= SIZE_T
    ensures Aligned(offset, alignment) >= offset
  {
    if offset > 0 {
      OrBounds(offset - 1, alignment - 1);
    }
  }

  lemma AlignedFromZero(alignment: nat)
    requires alignment <= SIZE_T
    ensures Aligned(0, alignment) == 0
  {
    var k := WordBits();
    OrOnes(k, Decrement(alignment));
  }

  lemma EndAfter(items: seq<Item>, i: nat)
    requires i < |items| && ItemInRange(items, i)
    ensures EndAt(items[..i + 1]) == OffsetAt(items, i) + items[i].size
  {
    assert items[..i + 1][..i] == items[..i];
  }

  lemma {:induction false} EndOfNothing(items: seq<Item>, n: nat)
    requires InRange(items) && n <= |items| && forall i :: 0 <= i < n ==> items[i].size == 0
    ensures EndAt(items[..n]) == 0
  {
    if n > 0 {
      EndOfNothing(items, n - 1);
      assert ItemInRange(items, n - 1);
      AlignedFromZero(items[n - 1].alignment);
      EndAfter(items, n - 1);
    }
  }

  predicate NoRoomFrom(items: seq<Item>, k: nat) {
    forall i :: k <= i < |items| ==> items[i].size == 0
  }

  /** From some item on none takes room; that one is the first, or has alignment 0. */
  ghost predicate NoRoom(items: seq<Item>) {
    NoRoomFrom(items, 0) || exists k {:trigger NoRoomFrom(items, k)} ::
      0 <= k < |items| && items[k].alignment == 0 && NoRoomFrom(items, k)
  }

  lemma NoRoomStep(front: seq<Item>, item: Item)
    ensures NoRoom(front + [item]) <==> item.size == 0 && (item.alignment == 0 || NoRoom(front))
  {
    var items, n := front + [item], |front|;
    forall k | 0 <= k <= n ensures NoRoomFrom(items, k) <==> item.size == 0 && NoRoomFrom(front, k) {
      NoRoomFromStep(front, item, k);
    }
    if item.size == 0 && item.alignment == 0 {
      assert items[n] == item && NoRoomFrom(items, n);
    }
    forall k | 0 <= k < n ensures items[k] == front[k] {
    }
  }

  lemma NoRoomFromStep(front: seq<Item>, item: Item, k: nat)
    requires k <= |front|
    ensures NoRoomFrom(front + [item], k) <==> item.size == 0 && NoRoomFrom(front, k)
  {
    var items := front + [item];
    assert items[|front|] == item;
    assert forall i :: k <= i < |front| ==> items[i] == front[i];
  }

  lemma AlignedIsZero(offset: nat, alignment: nat)
    requires offset < SIZE_T && offset + alignment <= SIZE_T
    ensures Aligned(offset, alignment) == 0 <==> alignment == 0 || offset == 0
  {
    if alignment == 0 {
      AlignedToNothing(offset);
    } else if offset == 0 {
      AlignedFromZero(alignment);
    } else {
      AlignedRaises(offset, alignment);
    }
  }

  lemma InRangeFront(items: seq<Item>)
    requires InRange(items) && items != []
    ensures InRange(items[..|items| - 1]) && ItemInRange(items, |items| - 1)
  {
    var front := items[..|items| - 1];
    forall i | 0 <= i < |front| ensures ItemInRange(front, i) {
      assert front[..i] == items[..i] && ItemInRange(items, i);
    }
  }

  /** The items end at 0 if and only if they take no room, or only such that one of alignment 0 makes up for. */
  lemma {:induction false} EndIsZeroExactly(items: seq<Item>)
    requires InRange(items)
    ensures EndAt(items) == 0 <==> NoRoom(items)
  {
    if items != [] {
      var front, item := items[..|items| - 1], items[|items| - 1];
      assert items == front + [item];
      InRangeFront(items);
      EndIsZeroExactly(front);
      EndIsWord(front);
      AlignedIsZero(EndAt(front), item.alignment);
      NoRoomStep(front, item);
    }
  }

  /** An item is not put before the end of those in front of it, unless these take no room. */
  lemma OffsetAfterEnd(items: seq<Item>, j: nat)
    requires InRange(items) && ResetsNothing(items) && j < |items|
    ensures EndAt(items[..j]) <= OffsetAt(items, j)
  {
    assert ItemInRange(items, j);
    if items[j].alignment == 0 {
      EndOfNothing(items, j);
    } else {
      AlignedRaises(EndAt(items[..j]), items[j].alignment);
    }
  }

  lemma EndsRiseOnce(items: seq<Item>, j: nat)
    requires InRange(items) && ResetsNothing(items) && j < |items|
    ensures EndAt(items[..j]) <= EndAt(items[..j + 1])
  {
    assert ItemInRange(items, j);
    OffsetAfterEnd(items, j);
    EndAfter(items, j);
  }

  lemma {:induction false} EndsRise(items: seq<Item>, i: nat, k: nat)
    requires InRange(items) && ResetsNothing(items) && i < k <= |items|
    ensures OffsetAt(items, i) + items[i].size <= EndAt(items[..k])
    decreases k
  {
    if k == i + 1 {
      assert ItemInRange(items, i);
      EndAfter(items, i);
    } else {
      EndsRise(items, i, k - 1);
      EndsRiseOnce(items, k - 1);
    }
  }

  /** The items are put in sequence if and only if none of alignment 0 comes after one that takes room. */
  lemma InSequenceExactly(items: seq<Item>)
    requires InRange(items)
    ensures InSequence(items) <==> ResetsNothing(items)
  {
    if ResetsNothing(items) {
      forall i, j | 0 <= i < j < |items| ensures OffsetAt(items, i) + items[i].size <= OffsetAt(items, j) {
        InSequenceAt(items, i, j);
      }
    }
    if InSequence(items) {
      forall i, j | 0 <= i < j < |items| && items[j].alignment == 0 ensures items[i].size == 0 {
        assert ItemInRange(items, j);
        EndIsWord(items[..j]);
        AlignedToNothing(EndAt(items[..j]));
        assert OffsetAt(items, i) + items[i].size <= OffsetAt(items, j);
      }
    }
  }

  lemma EndIsWord(items: seq<Item>)
    ensures EndAt(items) < SIZE_T
  {
  }

  lemma InSequenceAt(items: seq<Item>, i: nat, j: nat)
    requires InRange(items) && ResetsNothing(items) && i < j < |items|
    ensures OffsetAt(items, i) + items[i].size <= OffsetAt(items, j)
  {
    EndsRise(items, i, j);
    OffsetAfterEnd(items, j);
  }

  /** Where the layout is tight nothing wraps around. */
  lemma FitsInRange(items: seq<Item>, alignment: nat)
    requires Powers(items) && Fits(items, alignment)
    ensures InRange(items)
  {
    forall i | 0 <= i < |items| ensures ItemInRange(items, i) {
      CodeIsTight(items, alignment, i);
      NextFits(items, alignment, i);
    }
  }
}
