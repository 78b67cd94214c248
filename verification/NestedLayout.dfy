/**
 What the layout of aggregates means for types nested to any depth: where every scalar has its own place,
 and where that place is aligned.
 */
module NestedLayout {
  import opened Bits
  import opened Aligning
  import opened Layout
  import opened Aggregates

  // ----- The scalars of a type -----

  /** A scalar at an address. */
  datatype Leaf = Leaf(address: nat, size: nat, alignment: nat)

  /** The scalars of a type of which an instance is at an address, in order. */
  function Leaves(t: Type, at: nat): seq<Leaf>
    decreases t, 1, 0
  {
    match t
    case Scalar(size, alignment) => [Leaf(at, size, alignment)]
    case Array(element, count) => ElementLeaves(t, count, at)
    case Aggregate(_, _, fields) => FieldLeaves(t, |fields|, at)
  }

  function ElementLeaves(t: Type, n: nat, at: nat): seq<Leaf>
    requires t.Array?
    decreases t, 0, n
  {
    if n == 0 then [] else ElementLeaves(t, n - 1, at) + Leaves(t.element, at + Size(t.element) * (n - 1))
  }

  function FieldLeaves(t: Type, n: nat, at: nat): seq<Leaf>
    requires t.Aggregate? && n <= |t.fields|
    decreases t, 0, n
  {
    if n == 0 then []
    else FieldLeaves(t, n - 1, at) + Leaves(t.fields[n - 1].fieldType, at + t.fields[n - 1].offset)
  }

  /** The leaves lie between low and high, and one after the other. */
  predicate Inside(ls: seq<Leaf>, low: nat, high: nat) {
    && (forall i :: 0 <= i < |ls| ==> low <= ls[i].address && ls[i].address + ls[i].size <= high)
    && (forall i, j :: 0 <= i < j < |ls| ==> ls[i].address + ls[i].size <= ls[j].address)
  }

  ghost predicate AllAligned(ls: seq<Leaf>) {
    forall i :: 0 <= i < |ls| ==> Multiple(ls[i].address, ls[i].alignment)
  }

  lemma InsideBoth(a: seq<Leaf>, low: nat, middle: nat, from: nat, b: seq<Leaf>, high: nat)
    requires Inside(a, low, middle) && low <= middle <= from <= high && Inside(b, from, high)
    ensures Inside(a + b, low, high)
  {
  }

  /** Another element lies where the array ended, and the array then ends with it; one of none takes no room. */
  lemma ArrayGrows(element: Type, n: nat, at: nat)
    ensures Size(Array(element, 0)) == 0 && Leaves(Array(element, 0), at) == []
    ensures var t := Array(element, n);
            && Size(Array(element, n + 1)) == Size(t) + Size(element)
            && Leaves(Array(element, n + 1), at) == Leaves(t, at) + Leaves(element, at + Size(t))
  {
    SameElements(element, n, n + 1, n, at);
  }

  lemma {:induction false} SameElements(element: Type, c: nat, d: nat, n: nat, at: nat)
    ensures ElementLeaves(Array(element, c), n, at) == ElementLeaves(Array(element, d), n, at)
  {
    if n > 0 {
      SameElements(element, c, d, n - 1, at);
    }
  }

  // ----- Order -----

  function FieldEnd(f: Field): nat {
    f.offset + Size(f.fieldType)
  }

  /** Each field ends before those after it begin, and before the aggregate ends. */
  predicate FieldsInOrder(t: Type)
    requires t.Aggregate?
  {
    && (forall i, j :: 0 <= i < j < |t.fields| ==> FieldEnd(t.fields[i]) <= t.fields[j].offset)
    && (forall i :: 0 <= i < |t.fields| ==> FieldEnd(t.fields[i]) <= t.aggregateSize)
  }

  /** The fields are in order at every depth; whatever their alignments. */
  predicate InOrder(t: Type) {
    match t
    case Scalar(_, _) => true
    case Array(element, _) => InOrder(element)
    case Aggregate(_, _, fields) =>
      FieldsInOrder(t) && forall i :: 0 <= i < |fields| ==> InOrder(fields[i].fieldType)
  }

  /** Wherever an instance of a type in order lies, its scalars, however deep, lie within it, one after the
      other. */
  lemma {:induction false} LeavesInside(t: Type, at: nat)
    requires InOrder(t)
    ensures Inside(Leaves(t, at), at, at + Size(t))
    decreases t, 1, 0
  {
    match t
    case Scalar(_, _) =>
    case Array(element, count) =>
      ElementsInside(t, count, at);
    case Aggregate(_, _, fields) =>
      FieldsInside(t, |fields|, at);
  }

  lemma {:induction false} ElementsInside(t: Type, n: nat, at: nat)
    requires t.Array? && InOrder(t)
    ensures Inside(ElementLeaves(t, n, at), at, at + Size(t.element) * n)
    decreases t, 0, n
  {
    if n > 0 {
      var from, end := OneMore(at, Size(t.element), n);
      ElementsInside(t, n - 1, at);
      LeavesInside(t.element, from);
      InsideBoth(ElementLeaves(t, n - 1, at), at, from, from, Leaves(t.element, from), end);
    }
  }

  lemma OneMore(at: nat, size: nat, n: nat) returns (from: nat, end: nat)
    requires n > 0
    ensures at <= from == at + size * (n - 1) && end == at + size * n && end == from + size
  {
    from := at + size * (n - 1);
    end := from + size;
  }

  /** The end of the first n fields. */
  function End(t: Type, n: nat): nat
    requires t.Aggregate? && n <= |t.fields|
  {
    if n == 0 then 0 else FieldEnd(t.fields[n - 1])
  }

  lemma {:induction false} FieldsInside(t: Type, n: nat, at: nat)
    requires t.Aggregate? && n <= |t.fields| && InOrder(t)
    ensures Inside(FieldLeaves(t, n, at), at, at + End(t, n))
    ensures n == |t.fields| ==> Inside(FieldLeaves(t, n, at), at, at + t.aggregateSize)
    decreases t, 0, n
  {
    if n > 0 {
      var from := at + t.fields[n - 1].offset;
      FieldsInside(t, n - 1, at);
      LeavesInside(t.fields[n - 1].fieldType, from);
      InsideBoth(FieldLeaves(t, n - 1, at), at, at + End(t, n - 1), from,
                 Leaves(t.fields[n - 1].fieldType, from), at + End(t, n));
    }
  }

  // ----- Alignment -----

  /** The type holds no scalar. */
  predicate Bare(t: Type) {
    match t
    case Scalar(_, _) => false
    case Array(element, count) => count == 0 || Bare(element)
    case Aggregate(_, _, fields) => forall i :: 0 <= i < |fields| ==> Bare(fields[i].fieldType)
  }

  /** Field i lies at a multiple of its alignment, which is that of its type at least. */
  ghost predicate FieldAligned(t: Type, i: nat)
    requires t.Aggregate? && i < |t.fields|
  {
    var f := t.fields[i];
    Bare(f.fieldType) ||
    (IsPow2(f.alignment) && Alignment(f.fieldType) <= f.alignment <= t.aggregateAlignment && Multiple(f.offset, f.alignment))
  }

  /** Every scalar, however deep, is aligned in an aligned instance; whatever the order of the fields. */
  ghost predicate WellAligned(t: Type) {
    Bare(t) ||
    (IsPow2(Alignment(t)) &&
     match t
     case Scalar(size, alignment) => Multiple(size, alignment)
     case Array(element, _) => WellAligned(element)
     case Aggregate(size, alignment, fields) =>
       && Multiple(size, alignment)
       && forall i {:trigger FieldAligned(t, i)} :: 0 <= i < |fields| ==> FieldAligned(t, i) && WellAligned(fields[i].fieldType))
  }

  lemma {:induction false} BareExactly(t: Type, at: nat)
    ensures Bare(t) <==> Leaves(t, at) == []
    decreases t, 1, 0
  {
    match t
    case Scalar(_, _) =>
    case Array(element, count) =>
      BareElements(t, count, at);
    case Aggregate(_, _, fields) =>
      BareFields(t, |fields|, at);
  }

  lemma {:induction false} BareElements(t: Type, n: nat, at: nat)
    requires t.Array?
    ensures n == 0 || Bare(t.element) <==> ElementLeaves(t, n, at) == []
    decreases t, 0, n
  {
    if n > 0 {
      BareElements(t, n - 1, at);
      BareExactly(t.element, at + Size(t.element) * (n - 1));
    }
  }

  lemma {:induction false} BareFields(t: Type, n: nat, at: nat)
    requires t.Aggregate? && n <= |t.fields|
    ensures (forall i :: 0 <= i < n ==> Bare(t.fields[i].fieldType)) <==> FieldLeaves(t, n, at) == []
    decreases t, 0, n
  {
    if n > 0 {
      BareFields(t, n - 1, at);
      BareExactly(t.fields[n - 1].fieldType, at + t.fields[n - 1].offset);
    }
  }

  lemma {:induction false} SizeIsMultiple(t: Type)
    requires WellAligned(t) && !Bare(t)
    ensures Multiple(Size(t), Alignment(t))
  {
    match t
    case Array(element, count) =>
      SizeIsMultiple(element);
      MultipleTimes(Size(element), Alignment(element), count);
    case _ =>
  }

  /** Wherever an instance of a well-aligned type lies aligned, so do all its scalars, however deep. */
  lemma {:induction false} LeavesAligned(t: Type, at: nat)
    requires WellAligned(t) && (Bare(t) || Multiple(at, Alignment(t)))
    ensures AllAligned(Leaves(t, at))
    decreases t, 1, 0
  {
    if Bare(t) {
      BareExactly(t, at);
    } else {
      match t
      case Scalar(_, _) =>
      case Array(element, count) =>
        ElementsAligned(t, count, at);
      case Aggregate(_, _, fields) =>
        FieldsAligned(t, |fields|, at);
    }
  }

  lemma {:induction false} ElementsAligned(t: Type, n: nat, at: nat)
    requires t.Array? && WellAligned(t.element) && !Bare(t.element) && Multiple(at, Alignment(t))
    ensures AllAligned(ElementLeaves(t, n, at))
    decreases t, 0, n
  {
    if n > 0 {
      ElementsAligned(t, n - 1, at);
      SizeIsMultiple(t.element);
      MultipleTimes(Size(t.element), Alignment(t), n - 1);
      MultipleSum(at, Size(t.element) * (n - 1), Alignment(t));
      LeavesAligned(t.element, at + Size(t.element) * (n - 1));
    }
  }

  lemma {:induction false} FieldsAligned(t: Type, n: nat, at: nat)
    requires t.Aggregate? && n <= |t.fields| && WellAligned(t) && !Bare(t) && Multiple(at, Alignment(t))
    ensures AllAligned(FieldLeaves(t, n, at))
    decreases t, 0, n
  {
    if n > 0 {
      FieldsAligned(t, n - 1, at);
      assert FieldAligned(t, n - 1);
      FieldAtMultiple(t, n - 1, at);
      LeavesAligned(t.fields[n - 1].fieldType, at + t.fields[n - 1].offset);
    }
  }

  lemma FieldAtMultiple(t: Type, i: nat, at: nat)
    requires t.Aggregate? && i < |t.fields| && WellAligned(t) && !Bare(t) && Multiple(at, Alignment(t))
    ensures Bare(t.fields[i].fieldType) || Multiple(at + t.fields[i].offset, Alignment(t.fields[i].fieldType))
  {
    var f := t.fields[i];
    assert FieldAligned(t, i);
    if !Bare(f.fieldType) {
      Pow2Multiple(Alignment(f.fieldType), f.alignment);
      Pow2Multiple(Alignment(f.fieldType), Alignment(t));
      MultipleOfMultiple(f.offset, f.alignment, Alignment(f.fieldType));
      MultipleOfMultiple(at, Alignment(t), Alignment(f.fieldType));
      MultipleSum(at, f.offset, Alignment(f.fieldType));
    }
  }

  // ----- Making aggregates: order -----

  /** The items of an aggregate, and the padding at its end. */
  function Padded(p: Params): (items: seq<Item>)
    ensures |items| == |Items(p)| + 1
  {
    Items(p) + [Item(0, MaxAlignment(Items(p), p.alignment))]
  }

  /** Nothing wraps around, and the offsets fit in 32 bits. */
  ghost predicate Regular(p: Params) {
    InRange(Padded(p)) && forall i :: 0 <= i < |Items(p)| ==> OffsetAt(Items(p), i) < WORD
  }

  lemma ItemSize(p: Params, i: nat)
    requires i < |Items(p)|
    ensures Items(p)[i].size == Size(FieldTypes(p)[i])
  {
    if i < |p.bases| {
      BaseAt(p, i);
    } else if i < |p.bases| + |VptrItems(p)| {
      VptrAt(p);
    } else {
      MemberAt(p, i - |p.bases| - |VptrItems(p)|);
    }
  }

  /** Part i of the aggregate t, or its end, lies where item i is put. */
  predicate LiesAt(t: Type, items: seq<Item>, i: nat)
    requires t.Aggregate? && i <= |t.fields| && |items| == |t.fields| + 1
  {
    if i == |t.fields| then t.aggregateSize == OffsetAt(items, i)
    else t.fields[i].offset == OffsetAt(items, i) && FieldEnd(t.fields[i]) == OffsetAt(items, i) + items[i].size
  }

  lemma LaidAt(p: Params, i: nat)
    requires Regular(p) && i <= |Items(p)|
    ensures LiesAt(Laid(p), Padded(p), i)
  {
    assert Padded(p)[..i] == Items(p)[..i];
    if i == |Items(p)| {
      assert Items(p)[..i] == Items(p);
    } else {
      ItemSize(p, i);
      NarrowSmall(OffsetAt(Items(p), i));
    }
  }

  lemma NarrowSmall(x: nat)
    ensures x < WORD ==> Narrow(x) == x
  {
  }

  /** The parts of an aggregate are in order if and only if nothing of alignment 0 comes after a part that takes
      room. */
  lemma LaidInOrderExactly(p: Params)
    requires Regular(p) && forall i :: 0 <= i < |Items(p)| ==> InOrder(FieldTypes(p)[i])
    ensures InOrder(Laid(p)) <==> ResetsNothing(Padded(p))
  {
    InSequenceExactly(Padded(p));
    forall i | 0 <= i <= |Items(p)| ensures LiesAt(Laid(p), Padded(p), i) {
      LaidAt(p, i);
    }
    OrderIsSequence(Laid(p), Padded(p));
  }

  lemma OrderIsSequence(t: Type, items: seq<Item>)
    requires t.Aggregate? && |items| == |t.fields| + 1
    requires forall i {:trigger LiesAt(t, items, i)} :: 0 <= i <= |t.fields| ==> LiesAt(t, items, i)
    ensures FieldsInOrder(t) <==> InSequence(items)
  {
    assert LiesAt(t, items, |t.fields|);
    if InSequence(items) {
      forall i, j | 0 <= i < j < |t.fields| ensures FieldEnd(t.fields[i]) <= t.fields[j].offset {
        assert LiesAt(t, items, i) && LiesAt(t, items, j);
      }
      forall i | 0 <= i < |t.fields| ensures FieldEnd(t.fields[i]) <= t.aggregateSize {
        assert LiesAt(t, items, i);
      }
    }
    if FieldsInOrder(t) {
      forall i, j | 0 <= i < j < |items| ensures OffsetAt(items, i) + items[i].size <= OffsetAt(items, j) {
        assert LiesAt(t, items, i) && LiesAt(t, items, j);
      }
    }
  }

  /** Then all its scalars, however deep, lie within it, one after the other. */
  lemma AggregateKeepsInside(p: Params, at: nat)
    requires Regular(p) && ResetsNothing(Padded(p))
    requires forall i :: 0 <= i < |Items(p)| ==> InOrder(FieldTypes(p)[i])
    ensures Inside(Leaves(Laid(p), at), at, at + Size(Laid(p)))
  {
    LaidInOrderExactly(p);
    LeavesInside(Laid(p), at);
  }

  // ----- Making aggregates: alignment -----

  ghost predicate ZeroOrPow2(a: nat) {
    a == 0 || IsPow2(a)
  }

  /** Part i is well-aligned, and unless it is bare no less aligned than its type. */
  ghost predicate Suits(p: Params, i: nat)
    requires i < |Items(p)|
  {
    var item, t := Items(p)[i], FieldTypes(p)[i];
    && ZeroOrPow2(item.alignment) && WellAligned(t)
    && (Bare(t) || Alignment(t) <= item.alignment)
  }

  ghost predicate AllSuit(p: Params) {
    ZeroOrPow2(p.alignment) && forall i {:trigger Suits(p, i)} :: 0 <= i < |Items(p)| ==> Suits(p, i)
  }

  lemma {:induction false} MaxIsZeroOrPow2(items: seq<Item>, alignment: nat)
    requires ZeroOrPow2(alignment) && forall i :: 0 <= i < |items| ==> ZeroOrPow2(items[i].alignment)
    ensures ZeroOrPow2(MaxAlignment(items, alignment))
  {
    if items != [] {
      MaxIsZeroOrPow2(items[..|items| - 1], alignment);
    }
  }

  lemma OffsetIsMultiple(items: seq<Item>, i: nat)
    requires i < |items| && ItemInRange(items, i) && IsPow2(items[i].alignment)
    ensures Multiple(OffsetAt(items, i), items[i].alignment)
  {
    EndIsWord(items[..i]);
    if items[i].alignment < SIZE_T {
      AlignedIsLeast(EndAt(items[..i]), items[i].alignment);
    } else {
      AlignedFromZero(SIZE_T);
      assert 0 == SIZE_T * 0;
    }
  }

  lemma PartIsAligned(p: Params, i: nat)
    requires Regular(p) && AllSuit(p) && i < |Items(p)|
    ensures FieldAligned(Laid(p), i) && WellAligned(Laid(p).fields[i].fieldType)
  {
    assert Suits(p, i);
    if !Bare(FieldTypes(p)[i]) {
      LaidAt(p, i);
      AlignmentsBelow(Items(p), p.alignment, i);
      assert ItemInRange(Padded(p), i);
      OffsetIsMultiple(Padded(p), i);
    }
  }

  /** An aggregate of well-aligned parts, none less aligned than its type, is well-aligned. */
  lemma LaidIsAligned(p: Params)
    requires Regular(p) && AllSuit(p)
    ensures WellAligned(Laid(p))
  {
    var t, n := Laid(p), |Items(p)|;
    forall i | 0 <= i < n ensures FieldAligned(t, i) && WellAligned(t.fields[i].fieldType) {
      PartIsAligned(p, i);
    }
    forall i | 0 <= i < n ensures ZeroOrPow2(Items(p)[i].alignment) {
      assert Suits(p, i);
    }
    MaxIsZeroOrPow2(Items(p), p.alignment);
    if !Bare(t) {
      AlignmentInUse(p);
      LaidAt(p, n);
      assert ItemInRange(Padded(p), n);
      OffsetIsMultiple(Padded(p), n);
    }
  }

  lemma AlignmentInUse(p: Params)
    requires AllSuit(p) && !Bare(Laid(p))
    ensures MaxAlignment(Items(p), p.alignment) > 0
  {
    var i :| 0 <= i < |Items(p)| && !Bare(Laid(p).fields[i].fieldType);
    assert Suits(p, i);
    AlignmentsBelow(Items(p), p.alignment, i);
  }

  /** So an aggregate of such parts in order keeps all its scalars, however deep, aligned and apart. */
  lemma AggregateKeepsApart(p: Params, at: nat)
    requires Regular(p) && ResetsNothing(Padded(p)) && AllSuit(p) && Multiple(at, Alignment(Laid(p)))
    requires forall i :: 0 <= i < |Items(p)| ==> InOrder(FieldTypes(p)[i])
    ensures Inside(Leaves(Laid(p), at), at, at + Size(Laid(p))) && AllAligned(Leaves(Laid(p), at))
  {
    AggregateKeepsInside(p, at);
    LaidIsAligned(p);
    LeavesAligned(Laid(p), at);
  }

  // ----- Making aggregates: room -----

  /** All alignments are powers of two, and nothing overflows. */
  ghost predicate Packs(p: Params) {
    Powers(Items(p)) && ZeroOrPow2(p.alignment) && Fits(Items(p), p.alignment)
  }

  /** Where all alignments are powers of two, whatever those of the types, fields are put at the least multiples of
      their alignments, and the size is the least multiple of the largest. */
  lemma LaidIsTight(p: Params)
    requires Packs(p)
    ensures var t := Laid(p);
            && IsPow2(t.aggregateAlignment) && |t.fields| == |Items(p)|
            && LeastMultiple(t.aggregateSize, TightEnd(Items(p)), t.aggregateAlignment)
            && forall i :: 0 <= i < |t.fields| ==> t.fields[i].offset == TightOffset(Items(p), i)
  {
    LaidSize(p);
    forall i | 0 <= i < |Items(p)| ensures Laid(p).fields[i].offset == TightOffset(Items(p), i) {
      CodeIsTight(Items(p), p.alignment, i);
      NarrowSmall(OffsetAt(Items(p), i));
    }
  }

  lemma LaidSize(p: Params)
    requires Packs(p)
    ensures var t := Laid(p);
            IsPow2(t.aggregateAlignment) && LeastMultiple(t.aggregateSize, TightEnd(Items(p)), t.aggregateAlignment)
  {
    var items := Items(p);
    MaxIsZeroOrPow2(items, p.alignment);
    CodeIsTight(items, p.alignment, |items|);
    assert items[..|items|] == items;
    AlignedIsLeast(EndAt(items), MaxAlignment(items, p.alignment));
  }

  /** Every field lies at the least multiple of its alignment from the end of the one before on, and the size is the
      least multiple of the alignment from the end of the last on. */
  ghost predicate IsTight(t: Type)
    requires t.Aggregate?
  {
    && (forall i {:trigger End(t, i)} ::
          0 <= i < |t.fields| ==> LeastMultiple(t.fields[i].offset, End(t, i), t.fields[i].alignment))
    && LeastMultiple(t.aggregateSize, End(t, |t.fields|), t.aggregateAlignment)
  }

  /** The same said of the type alone. */
  lemma LaidHasNoGaps(p: Params)
    requires Packs(p)
    ensures IsTight(Laid(p))
  {
    var t, items := Laid(p), Items(p);
    forall i | 0 <= i < |items| ensures LeastMultiple(t.fields[i].offset, End(t, i), t.fields[i].alignment) {
      NoGapBefore(p, i);
    }
    LaidEnd(p, |items|);
    assert items[..|items|] == items;
    LaidSize(p);
  }

  lemma NoGapBefore(p: Params, i: nat)
    requires Packs(p) && i < |Items(p)|
    ensures var t := Laid(p); LeastMultiple(t.fields[i].offset, End(t, i), t.fields[i].alignment)
  {
    LaidIsTight(p);
    LaidEnd(p, i);
    LaidField(p, i);
    RoundUpIsLeast(TightEnd(Items(p)[..i]), Items(p)[i].alignment);
  }

  lemma LaidEnd(p: Params, n: nat)
    requires Packs(p) && n <= |Items(p)|
    ensures End(Laid(p), n) == TightEnd(Items(p)[..n])
  {
    if n > 0 {
      LaidIsTight(p);
      LaidField(p, n - 1);
      ItemSize(p, n - 1);
      TightEndAfter(Items(p), n - 1);
    }
  }

  lemma TightEndAfter(items: seq<Item>, i: nat)
    requires Powers(items) && i < |items|
    ensures TightEnd(items[..i + 1]) == TightOffset(items, i) + items[i].size
  {
    assert items[..i + 1][..i] == items[..i];
  }

  lemma PacksIsRegular(p: Params)
    requires Packs(p)
    ensures Regular(p) && ResetsNothing(Padded(p))
  {
    var items, a := Items(p), MaxAlignment(Items(p), p.alignment);
    FitsInRange(items, p.alignment);
    CodeIsTight(items, p.alignment, |items|);
    MaxIsZeroOrPow2(items, p.alignment);
    assert items[..|items|] == items;
    AlignedIsRoundUp(EndAt(items), a);
    forall i | 0 <= i <= |items| ensures ItemInRange(Padded(p), i) {
      assert Padded(p)[..i] == items[..i];
      assert i < |items| ==> ItemInRange(items, i);
    }
    forall i | 0 <= i < |items| ensures OffsetAt(items, i) < WORD {
      CodeIsTight(items, p.alignment, i);
    }
  }

  /** Nothing that keeps the parts aligned and in that order is smaller. */
  lemma AggregateIsSmallest(p: Params, offsets: seq<nat>, size: nat)
    requires Packs(p) && Lawful(Items(p), offsets) && Multiple(size, Alignment(Laid(p)))
    requires forall i :: 0 <= i < |offsets| ==> offsets[i] + Items(p)[i].size <= size
    ensures Size(Laid(p)) <= size
    ensures forall i :: 0 <= i < |offsets| ==> Laid(p).fields[i].offset <= offsets[i]
  {
    LaidIsTight(p);
    NothingIsSmaller(Items(p), offsets, Alignment(Laid(p)), size, Size(Laid(p)));
    forall i | 0 <= i < |offsets| ensures Laid(p).fields[i].offset <= offsets[i] {
      NothingIsTighter(Items(p), offsets, i);
    }
  }

  // ----- A part of alignment 0 -----

  const INT: Type := Scalar(4, 4)

  /** An aggregate without alignment, bases and members has alignment 0; as a member it sends the offset back
      to 0, and the next member lies where the first does. */
  lemma EmptyMemberOverlaps()
    ensures var empty := Laid(Params(false, 0, [], []));
            var p := Params(false, 0, [], [Member(INT, 0), Member(empty, 0), Member(INT, 0)]);
            Alignment(empty) == 0 && Laid(p).fields[0] == Laid(p).fields[2] == Field(INT, 0, 4)
  {
    var empty := Laid(Params(false, 0, [], []));
    AlignedToNothing(0);
    var p := Params(false, 0, [], [Member(INT, 0), Member(empty, 0), Member(INT, 0)]);
    var items := Items(p);
    assert items == [Item(4, 4), Item(0, 0), Item(4, 4)];
    assert Pow2(2) == 4;
    AlignedIsRoundUp(0, 4);
    AlignedToNothing(4);
    assert items[..1] == [Item(4, 4)] && items[..2] == [Item(4, 4), Item(0, 0)];
    assert items[..1][..0] == [] && items[..2][..1] == items[..1];
    assert EndAt(items[..0]) == 0 && EndAt(items[..1]) == 4 && EndAt(items[..2]) == 0;
  }
}
