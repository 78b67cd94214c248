/**
 The construction of aggregate types, and what it makes of nested ones.
 */
module Aggregates {
  import opened Bits
  import opened Aligning
  import opened Layout

  /** A member's own alignment, unless it is 0, replaces that of its type. */
  datatype Member = Member(memberType: Type, override: nat)

  datatype Params = Params(isVirtual: bool, alignment: nat, bases: seq<Type>, members: seq<Member>)

  function BaseItem(t: Type): Item {
    Item(Size(t), Alignment(t))
  }

  function MemberItem(m: Member): Item {
    Item(Size(m.memberType), if m.override != 0 then m.override else Alignment(m.memberType))
  }

  function BaseItems(p: Params): (r: seq<Item>)
    ensures |r| == |p.bases|
  {
    seq(|p.bases|, i requires 0 <= i < |p.bases| => BaseItem(p.bases[i]))
  }

  function MemberItems(p: Params): (r: seq<Item>)
    ensures |r| == |p.members|
  {
    seq(|p.members|, i requires 0 <= i < |p.members| => MemberItem(p.members[i]))
  }

  /** A virtual aggregate has a pointer to its virtual table, unless its bases take any room. */
  function VptrItems(p: Params): seq<Item> {
    if p.isVirtual && EndAt(BaseItems(p)) == 0 then [Item(VPTR_SIZE, VPTR_SIZE)] else []
  }

  function Items(p: Params): seq<Item> {
    BaseItems(p) + VptrItems(p) + MemberItems(p)
  }

  function FieldTypes(p: Params): (r: seq<Type>)
    ensures |r| == |Items(p)|
  {
    p.bases + (if VptrItems(p) != [] then [VPTR] else [])
      + seq(|p.members|, i requires 0 <= i < |p.members| => p.members[i].memberType)
  }

  /** What 32 bits keep of a number. */
  function Narrow(x: nat): nat {
    x % WORD
  }

  /** The fields for the first n items; offsets are kept in 32 bits. */
  function FieldsOf(items: seq<Item>, types: seq<Type>, n: nat): (r: seq<Field>)
    requires n <= |items| == |types|
    ensures |r| == n
  {
    seq(n, i requires 0 <= i < n => Field(types[i], Narrow(OffsetAt(items, i)), items[i].alignment))
  }

  /** The aggregate that the constructor makes. */
  function Laid(p: Params): Type {
    var alignment := MaxAlignment(Items(p), p.alignment);
    Aggregate(Aligned(EndAt(Items(p)), alignment), alignment, FieldsOf(Items(p), FieldTypes(p), |Items(p)|))
  }

  // ----- What the constructor makes, by its parts -----

  /** The bases in order, then the pointer to the virtual table at the front if there is one, then the members in
      order; each of its own type, aligned as its type, or as the member asks for. */
  predicate HasParts(fields: seq<Field>, p: Params, hasVptr: bool) {
    var v := if hasVptr then 1 else 0;
    && |fields| == |p.bases| + v + |p.members|
    && (forall i :: 0 <= i < |p.bases| ==> IsBase(fields[i], p.bases[i]))
    && (hasVptr ==> fields[|p.bases|] == Field(VPTR, 0, VPTR_SIZE))
    && (forall i :: 0 <= i < |p.members| ==> IsMember(fields[|p.bases| + v + i], p.members[i]))
  }

  predicate IsBase(f: Field, base: Type) {
    f.fieldType == base && f.alignment == Alignment(base)
  }

  predicate IsMember(f: Field, m: Member) {
    && f.fieldType == m.memberType
    && (m.override != 0 ==> f.alignment == m.override)
    && (m.override == 0 ==> f.alignment == Alignment(m.memberType))
  }

  /** The alignment is the largest of those of the fields and the one asked for. */
  ghost predicate HasLargest(t: Type, alignment: nat)
    requires t.Aggregate?
  {
    && alignment <= t.aggregateAlignment
    && (forall i :: 0 <= i < |t.fields| ==> t.fields[i].alignment <= t.aggregateAlignment)
    && (t.aggregateAlignment == alignment
        || exists i :: 0 <= i < |t.fields| && t.fields[i].alignment == t.aggregateAlignment)
  }

  predicate NoRoomFromBase(bases: seq<Type>, k: nat) {
    forall i :: k <= i < |bases| ==> Size(bases[i]) == 0
  }

  /** From some base on none takes room; that one is the first, or has alignment 0. */
  ghost predicate BasesTakeNoRoom(bases: seq<Type>) {
    NoRoomFromBase(bases, 0) || exists k {:trigger NoRoomFromBase(bases, k)} ::
      0 <= k < |bases| && Alignment(bases[k]) == 0 && NoRoomFromBase(bases, k)
  }

  lemma BasesTakeNoRoomExactly(p: Params)
    requires InRange(BaseItems(p))
    ensures EndAt(BaseItems(p)) == 0 <==> BasesTakeNoRoom(p.bases)
  {
    EndIsZeroExactly(BaseItems(p));
    BasesFrom(p, 0);
    forall k | 0 <= k < |p.bases|
      ensures NoRoomFrom(BaseItems(p), k) <==> NoRoomFromBase(p.bases, k)
      ensures BaseItems(p)[k].alignment == Alignment(p.bases[k])
    {
      BasesFrom(p, k);
    }
  }

  lemma BasesFrom(p: Params, k: nat)
    ensures NoRoomFrom(BaseItems(p), k) <==> NoRoomFromBase(p.bases, k)
  {
    var items := BaseItems(p);
    forall i | k <= i < |p.bases| ensures items[i].size == Size(p.bases[i]) {
    }
  }

  /** Where the bases do not wrap around, an aggregate brings a pointer to its virtual table if and only if it is
      virtual and its bases take no room. */
  lemma LaidHasParts(p: Params)
    ensures HasParts(Laid(p).fields, p, p.isVirtual && EndAt(BaseItems(p)) == 0)
    ensures InRange(BaseItems(p)) ==> HasParts(Laid(p).fields, p, p.isVirtual && BasesTakeNoRoom(p.bases))
    ensures HasLargest(Laid(p), p.alignment)
  {
    if InRange(BaseItems(p)) {
      BasesTakeNoRoomExactly(p);
    }
    LaidParts(p);
    LaidLargest(p);
  }

  lemma LaidField(p: Params, i: nat)
    requires i < |Items(p)|
    ensures Laid(p).fields[i] == Field(FieldTypes(p)[i], Narrow(OffsetAt(Items(p), i)), Items(p)[i].alignment)
  {
  }

  /** The fields have the types and alignments of the plan. */
  predicate Follows(fields: seq<Field>, plan: Plan) {
    && |fields| == |plan.items| == |plan.types|
    && forall n :: 0 <= n < |fields| ==>
         fields[n].fieldType == plan.types[n] && fields[n].alignment == plan.items[n].alignment
  }

  lemma LaidParts(p: Params)
    ensures HasParts(Laid(p).fields, p, VptrItems(p) != [])
  {
    var fields := FieldsOf(Items(p), FieldTypes(p), |Items(p)|);
    PlanServes(p);
    if VptrItems(p) != [] {
      VptrOffset(p);
    }
    FieldsAreParts(p, PlanOf(p), fields);
  }

  lemma VptrOffset(p: Params)
    requires VptrItems(p) != []
    ensures OffsetAt(Items(p), |p.bases|) == 0
  {
    VptrAt(p);
    BasesDone(p);
    AlignedToPointer();
  }

  lemma FieldsAreParts(p: Params, plan: Plan, fields: seq<Field>)
    requires Serves(plan, p) && Follows(fields, plan)
    requires plan.start > |p.bases| ==> fields[|p.bases|].offset == 0
    ensures HasParts(fields, p, plan.start > |p.bases|)
  {
    forall i | 0 <= i < |p.bases| ensures IsBase(fields[i], p.bases[i]) {
      assert ServesBase(plan, p, i);
    }
    forall i | 0 <= i < |p.members| ensures IsMember(fields[plan.start + i], p.members[i]) {
      assert ServesMember(plan, p, i);
    }
  }

  lemma LaidLargest(p: Params)
    ensures HasLargest(Laid(p), p.alignment)
  {
    var items, t := Items(p), Laid(p);
    AlignmentTaken(items, p.alignment);
    forall i | 0 <= i < |items| ensures t.fields[i].alignment == items[i].alignment <= t.aggregateAlignment {
      AlignmentsBelow(items, p.alignment, i);
    }
    if t.aggregateAlignment != p.alignment {
      var i :| 0 <= i < |items| && items[i].alignment == t.aggregateAlignment;
      assert t.fields[i].alignment == t.aggregateAlignment;
    }
  }

  // ----- The constructor -----

  /** The items to place, with their types; the members are those from start on. */
  datatype Plan = Plan(items: seq<Item>, types: seq<Type>, start: nat)

  function PlanOf(p: Params): Plan {
    Plan(Items(p), FieldTypes(p), |p.bases| + |VptrItems(p)|)
  }

  predicate ServesBase(plan: Plan, p: Params, i: nat)
    requires i < |p.bases| <= |plan.items| == |plan.types|
  {
    plan.items[i] == BaseItem(p.bases[i]) && plan.types[i] == p.bases[i]
  }

  predicate ServesMember(plan: Plan, p: Params, i: nat)
    requires i < |p.members| && |plan.items| == |plan.types| == plan.start + |p.members|
  {
    plan.items[plan.start + i] == MemberItem(p.members[i]) && plan.types[plan.start + i] == p.members[i].memberType
  }

  /** The plan lists what is to be placed. */
  predicate Serves(plan: Plan, p: Params) {
    var n := |p.bases|;
    && |plan.items| == |plan.types| == plan.start + |p.members| && n <= plan.start <= n + 1
    && (plan.start > n <==> p.isVirtual && EndAt(plan.items[..n]) == 0)
    && (plan.start > n ==> plan.items[n] == BaseItem(VPTR) && plan.types[n] == VPTR)
    && (forall i {:trigger ServesBase(plan, p, i)} :: 0 <= i < n ==> ServesBase(plan, p, i))
    && (forall i {:trigger ServesMember(plan, p, i)} :: 0 <= i < |p.members| ==> ServesMember(plan, p, i))
  }

  lemma PlanServes(p: Params)
    ensures Serves(PlanOf(p), p)
  {
    BasesDone(p);
    if VptrItems(p) != [] {
      VptrAt(p);
    }
    forall i | 0 <= i < |p.bases| ensures ServesBase(PlanOf(p), p, i) {
      BaseAt(p, i);
    }
    forall i | 0 <= i < |p.members| ensures ServesMember(PlanOf(p), p, i) {
      MemberAt(p, i);
    }
  }

  /** All alignments are words. */
  predicate InWords(p: Params) {
    && p.alignment < SIZE_T
    && (forall t :: t in p.bases ==> Alignment(t) < SIZE_T)
    && forall m :: m in p.members ==> MemberItem(m).alignment < SIZE_T
  }

  /** The state of the construction after n items. */
  predicate Placed(plan: Plan, p: Params, n: nat, offset: nat, alignment: nat, fields: seq<Field>)
    requires |plan.items| == |plan.types|
  {
    && n <= |plan.items| && offset == EndAt(plan.items[..n]) < SIZE_T
    && alignment == MaxAlignment(plan.items[..n], p.alignment) < SIZE_T
    && fields == FieldsOf(plan.items, plan.types, n)
  }

  lemma PlacedNext(plan: Plan, p: Params, n: nat, offset: nat, alignment: nat, fields: seq<Field>, item: Item, t: Type)
    requires |plan.items| == |plan.types| && n < |plan.items| && Placed(plan, p, n, offset, alignment, fields)
    requires plan.items[n] == item && plan.types[n] == t && item.alignment < SIZE_T
    ensures Placed(plan, p, n + 1, Sum(Aligned(offset, item.alignment), item.size), Larger(alignment, item.alignment),
                   fields + [Field(t, Narrow(Aligned(offset, item.alignment)), item.alignment)])
  {
    assert plan.items[..n + 1][..n] == plan.items[..n];
  }

  method UpdateAlignment(alignment: nat, newAlign: nat) returns (r: nat)
    ensures r == Larger(alignment, newAlign)
  {
    r := if alignment < newAlign then newAlign else alignment;
  }

  /** Puts a base or member of type t after the others. */
  method PlaceField(offset: nat, alignment: nat, t: Type, fieldAlignment: nat)
    returns (newOffset: nat, newAlignment: nat, field: Field)
    requires offset < SIZE_T && fieldAlignment < SIZE_T
    ensures newOffset == Sum(Aligned(offset, fieldAlignment), Size(t))
    ensures newAlignment == Larger(alignment, fieldAlignment)
    ensures field == Field(t, Narrow(Aligned(offset, fieldAlignment)), fieldAlignment)
  {
    newOffset := AlignOffset(offset, fieldAlignment);
    field := Field(t, Narrow(newOffset), fieldAlignment);
    newOffset := (newOffset + Size(t)) % SIZE_T;
    newAlignment := UpdateAlignment(alignment, fieldAlignment);
  }

  method MakeAggregate(p: Params) returns (t: Type)
    requires InWords(p)
    ensures t == Laid(p) && HasLargest(t, p.alignment)
    ensures InRange(BaseItems(p)) ==> HasParts(t.fields, p, p.isVirtual && BasesTakeNoRoom(p.bases))
  {
    LaidHasParts(p);
    PlanServes(p);
    var offset, alignment, fields := PlaceParts(p, PlanOf(p));
    AllPlaced(p, offset, alignment, fields);
    var size := AlignOffset(offset, alignment);
    t := Aggregate(size, alignment, fields);
  }

  lemma AllPlaced(p: Params, offset: nat, alignment: nat, fields: seq<Field>)
    requires Placed(PlanOf(p), p, |Items(p)|, offset, alignment, fields)
    ensures offset == EndAt(Items(p)) && alignment == MaxAlignment(Items(p), p.alignment)
    ensures fields == FieldsOf(Items(p), FieldTypes(p), |Items(p)|)
  {
    assert Items(p)[..|Items(p)|] == Items(p);
  }

  method PlaceParts(p: Params, ghost plan: Plan) returns (offset: nat, alignment: nat, fields: seq<Field>)
    requires InWords(p) && Serves(plan, p)
    ensures Placed(plan, p, |plan.items|, offset, alignment, fields)
  {
    offset, alignment, fields := PlaceBases(p, plan);
    offset, alignment, fields := PlaceVptr(p, plan, offset, alignment, fields);
    offset, alignment, fields := PlaceMembers(p, plan, offset, alignment, fields);
  }

  method PlaceBases(p: Params, ghost plan: Plan) returns (offset: nat, alignment: nat, fields: seq<Field>)
    requires InWords(p) && Serves(plan, p)
    ensures Placed(plan, p, |p.bases|, offset, alignment, fields)
  {
    offset, alignment, fields := 0, p.alignment, [];
    for i := 0 to |p.bases|
      invariant Placed(plan, p, i, offset, alignment, fields)
    {
      assert ServesBase(plan, p, i);
      PlacedNext(plan, p, i, offset, alignment, fields, BaseItem(p.bases[i]), p.bases[i]);
      var field;
      offset, alignment, field := PlaceField(offset, alignment, p.bases[i], Alignment(p.bases[i]));
      fields := fields + [field];
    }
  }

  method PlaceVptr(p: Params, ghost plan: Plan, offset: nat, alignment: nat, fields: seq<Field>)
    returns (newOffset: nat, newAlignment: nat, newFields: seq<Field>)
    requires Serves(plan, p) && Placed(plan, p, |p.bases|, offset, alignment, fields)
    ensures Placed(plan, p, plan.start, newOffset, newAlignment, newFields)
  {
    newOffset, newAlignment, newFields := offset, alignment, fields;
    if p.isVirtual && offset == 0 {
      PlacedNext(plan, p, |p.bases|, offset, alignment, fields, BaseItem(VPTR), VPTR);
      AlignedToPointer();
      newOffset := newOffset + VPTR_SIZE;
      newAlignment := UpdateAlignment(alignment, VPTR_SIZE);
      newFields := newFields + [Field(VPTR, 0, VPTR_SIZE)];
    }
  }

  method PlaceMember(p: Params, ghost plan: Plan, i: nat, ghost n: nat, offset: nat, alignment: nat, fields: seq<Field>)
    returns (newOffset: nat, newAlignment: nat, newFields: seq<Field>)
    requires InWords(p) && Serves(plan, p) && i < |p.members| && n == plan.start + i
    requires Placed(plan, p, n, offset, alignment, fields)
    ensures Placed(plan, p, n + 1, newOffset, newAlignment, newFields)
  {
    var m := p.members[i];
    assert ServesMember(plan, p, i);
    PlacedNext(plan, p, n, offset, alignment, fields, MemberItem(m), m.memberType);
    var memberAlignment := if m.override != 0 then m.override else Alignment(m.memberType);
    var field;
    newOffset, newAlignment, field := PlaceField(offset, alignment, m.memberType, memberAlignment);
    newFields := fields + [field];
  }

  method PlaceMembers(p: Params, ghost plan: Plan, offset: nat, alignment: nat, fields: seq<Field>)
    returns (newOffset: nat, newAlignment: nat, newFields: seq<Field>)
    requires InWords(p) && Serves(plan, p) && Placed(plan, p, plan.start, offset, alignment, fields)
    ensures Placed(plan, p, |plan.items|, newOffset, newAlignment, newFields)
  {
    newOffset, newAlignment, newFields := offset, alignment, fields;
    ghost var n := plan.start;
    for i := 0 to |p.members|
      invariant n == plan.start + i && Placed(plan, p, n, newOffset, newAlignment, newFields)
    {
      newOffset, newAlignment, newFields := PlaceMember(p, plan, i, n, newOffset, newAlignment, newFields);
      n := n + 1;
    }
    SamePlace(plan, p, n, |plan.items|, newOffset, newAlignment, newFields);
  }

  lemma SamePlace(plan: Plan, p: Params, n: nat, m: nat, offset: nat, alignment: nat, fields: seq<Field>)
    requires |plan.items| == |plan.types| && n == m && Placed(plan, p, n, offset, alignment, fields)
    ensures Placed(plan, p, m, offset, alignment, fields)
  {
  }

  lemma BaseAt(p: Params, i: nat)
    requires i < |p.bases|
    ensures Items(p)[i] == BaseItem(p.bases[i]) && FieldTypes(p)[i] == p.bases[i]
  {
  }

  lemma BasesDone(p: Params)
    ensures Items(p)[..|p.bases|] == BaseItems(p)
  {
  }

  lemma VptrAt(p: Params)
    requires VptrItems(p) != []
    ensures Items(p)[|p.bases|] == BaseItem(VPTR) && FieldTypes(p)[|p.bases|] == VPTR
  {
  }

  lemma MemberAt(p: Params, i: nat)
    requires i < |p.members|
    ensures var n := |p.bases| + |VptrItems(p)| + i;
            n < |Items(p)| && Items(p)[n] == MemberItem(p.members[i]) && FieldTypes(p)[n] == p.members[i].memberType
  {
  }

  lemma AlignedToPointer()
    ensures Aligned(0, VPTR_SIZE) == 0
  {
    assert Pow2(3) == VPTR_SIZE;
    AlignedIsRoundUp(0, VPTR_SIZE);
  }
}
