/** C-style layout of structs and vectors. */
module StructLayout {
  import opened Wrappers
  import opened Alignment

  /** Zero size or alignment: not known. */
  datatype Layout = Layout(size: nat, align: nat)

  predicate Known(l: Layout) { l.size > 0 && l.align > 0 }

  const UNKNOWN := Layout(0, 0)

  datatype Primitive = P8 | P16 | P32 | P64 | P128 | StrView | OtherPrimitive

  function PrimitiveLayout(p: Primitive): Layout {
    match p
    case P8 => Layout(1, 1)
    case P16 => Layout(2, 2)
    case P32 => Layout(4, 4)
    case P64 => Layout(8, 8)
    case P128 => Layout(16, 16)
    case StrView => Layout(16, 8)
    case OtherPrimitive => UNKNOWN
  }

  datatype Type = Prim(p: Primitive) | Named(name: string) | Vector(length: int, element: Type) | OtherType

  /** An embedded field, or one without a type, takes no space here. */
  datatype Field = Field(embed: bool, ty: Option<Type>)

  /** `nesting` bounds how deeply structs nest by value below this one. */
  datatype Struct = Struct(fields: seq<Field>, nesting: nat)

  type Structs = map<string, Struct>

  /** The structs that `t` holds by value nest less deeply than `bound`. */
  predicate Below(w: Structs, t: Type, bound: nat) {
    match t
    case Named(name) => name in w ==> w[name].nesting < bound
    case Vector(_, element) => Below(w, element, bound)
    case _ => true
  }

  predicate FieldsBelow(w: Structs, fields: seq<Field>, bound: nat) {
    forall f | f in fields :: f.ty.Some? ==> Below(w, f.ty.value, bound)
  }

  /** No struct holds itself by value, through any number of others. */
  predicate NoCycles(w: Structs) { forall s | s in w :: FieldsBelow(w, w[s].fields, w[s].nesting) }

  // ---------------------------------------------------------------- layouts

  datatype FieldLayout = FieldLayout(offset: nat, size: nat, align: nat)

  /** Where the last field ends. */
  function End(ls: seq<Layout>): nat {
    if ls == [] then 0
    else
      var n := |ls| - 1;
      AlignUp(End(ls[..n]), ls[n].align) + ls[n].size
  }

  function MaxAlign(ls: seq<Layout>): nat {
    if ls == [] then 0
    else
      var n := |ls| - 1;
      var m := MaxAlign(ls[..n]);
      if ls[n].align > m then ls[n].align else m
  }

  function Placed(ls: seq<Layout>): seq<FieldLayout> {
    if ls == [] then []
    else
      var n := |ls| - 1;
      Placed(ls[..n]) + [FieldLayout(AlignUp(End(ls[..n]), ls[n].align), ls[n].size, ls[n].align)]
  }

  function Whole(ls: seq<Layout>): Layout { Layout(AlignUp(End(ls), MaxAlign(ls)), MaxAlign(ls)) }

  predicate TakesSpace(f: Field) { !f.embed && f.ty.Some? }

  /** The layouts of the fields that take space, unless one of them is not known. */
  function FieldLayouts(w: Structs, fields: seq<Field>, bound: nat): Option<seq<Layout>>
    requires NoCycles(w) && FieldsBelow(w, fields, bound)
    decreases bound, fields, 0
  {
    if fields == [] then Some([])
    else
      var n := |fields| - 1;
      var r := FieldLayouts(w, fields[..n], bound);
      if r.None? || !TakesSpace(fields[n]) then r
      else
        var l := FieldTypeLayout(w, fields[n], bound);
        if Known(l) then Some(r.value + [l]) else None
  }

  function FieldTypeLayout(w: Structs, f: Field, bound: nat): Layout
    requires NoCycles(w) && f.ty.Some? && Below(w, f.ty.value, bound)
    decreases bound, f, 0
  {
    TypeLayout(w, f.ty.value, bound)
  }

  function TypeLayout(w: Structs, t: Type, bound: nat): Layout
    requires NoCycles(w) && Below(w, t, bound)
    decreases bound, t, 0
  {
    match t
    case Prim(p) => PrimitiveLayout(p)
    case Named(name) =>
      if name !in w then UNKNOWN
      else
        var r := FieldLayouts(w, w[name].fields, w[name].nesting);
        if r.None? then UNKNOWN else Whole(r.value)
    case Vector(length, element) =>
      if length <= 0 then UNKNOWN
      else
        var l := TypeLayout(w, element, bound);
        if Known(l) then Layout(length * l.size, l.align) else UNKNOWN
    case OtherType => UNKNOWN
  }

  // ------------------------------------------------------- one struct's fields

  predicate Sane(l: Layout) { Known(l) && PowerOfTwo(l.align) && Divides(l.align, l.size) }

  predicate AllSane(ls: seq<Layout>) { forall l | l in ls :: Sane(l) }

  lemma {:induction false} PlacedAt(ls: seq<Layout>, i: nat)
    requires i < |ls|
    ensures |Placed(ls)| == |ls|
    ensures Placed(ls)[i] == FieldLayout(AlignUp(End(ls[..i]), ls[i].align), ls[i].size, ls[i].align)
    decreases ls
  {
    var n := |ls| - 1;
    if n > 0 { PlacedAt(ls[..n], if i < n then i else 0); }
    if i < n { assert ls[..n][..i] == ls[..i]; }
  }

  /** Each field is aligned, starts where the one before it ends or at the next multiple of its
      own alignment, and no earlier place would do. */
  lemma FieldsPacked(ls: seq<Layout>, i: nat, k: nat)
    requires AllSane(ls) && i < |ls|
    ensures |Placed(ls)| == |ls|
    ensures var f, before := Placed(ls)[i], if i == 0 then 0 else Placed(ls)[i - 1].offset + ls[i - 1].size;
      && Divides(f.align, f.offset)
      && before <= f.offset < before + f.align
      && (before <= k * f.align ==> f.offset <= k * f.align)
  {
    PlacedAt(ls, i);
    assert ls[i] in ls;
    AlignUpLeast(End(ls[..i]), ls[i].align, k);
    if i > 0 {
      PlacedAt(ls, i - 1);
      assert ls[..i][..i - 1] == ls[..i - 1];
    }
  }

  /** Later fields lie behind earlier ones. */
  lemma {:induction false} FieldsOrdered(ls: seq<Layout>, i: nat, j: nat)
    requires AllSane(ls) && i < j < |ls|
    ensures |Placed(ls)| == |ls|
    ensures Placed(ls)[i].offset + Placed(ls)[i].size <= Placed(ls)[j].offset
    decreases j
  {
    PlacedAt(ls, i);
    PlacedAt(ls, j);
    FieldsPacked(ls, j, 0);
    if j > i + 1 {
      FieldsOrdered(ls, i, j - 1);
    }
  }

  lemma {:induction false} MaxAlignIs(ls: seq<Layout>)
    requires AllSane(ls) && ls != []
    ensures PowerOfTwo(MaxAlign(ls)) && exists l :: l in ls && l.align == MaxAlign(ls)
    ensures forall l | l in ls :: l.align <= MaxAlign(ls) && Divides(l.align, MaxAlign(ls))
    decreases ls
  {
    var n := |ls| - 1;
    assert ls[n] in ls;
    if n > 0 {
      MaxAlignIs(ls[..n]);
      assert ls == ls[..n] + [ls[n]];
    }
    forall l | l in ls
      ensures l.align <= MaxAlign(ls) && Divides(l.align, MaxAlign(ls))
    {
      assert l in ls[..n] || l == ls[n];
      SmallerDivides(l.align, MaxAlign(ls));
    }
  }

  /** The size is the least multiple of the alignment that covers the last field, and every
      field's alignment divides that of the struct. */
  lemma WholeCovers(ls: seq<Layout>, k: nat)
    requires AllSane(ls) && ls != []
    ensures |Placed(ls)| == |ls|
    ensures var w, last := Whole(ls), Placed(ls)[|ls| - 1]; var end := last.offset + last.size;
      && Sane(w) && end <= w.size < end + w.align
      && (end <= k * w.align ==> w.size <= k * w.align)
    ensures forall i | 0 <= i < |ls| :: Divides(ls[i].align, Whole(ls).align)
  {
    var n := |ls| - 1;
    PlacedAt(ls, n);
    MaxAlignIs(ls);
    AlignUpLeast(End(ls), MaxAlign(ls), k);
    assert ls[n] in ls;
  }

  // ------------------------------------------------------------ nested types

  /** Every known layout has a power of two as its alignment, which divides its size. */
  lemma {:induction false} TypeSane(w: Structs, t: Type, bound: nat)
    requires NoCycles(w) && Below(w, t, bound) && Known(TypeLayout(w, t, bound))
    ensures Sane(TypeLayout(w, t, bound))
    decreases bound, t, 1
  {
    match t {
      case Prim(_) =>
      case Named(name) =>
        var fields, nesting := w[name].fields, w[name].nesting;
        var ls := FieldLayouts(w, fields, nesting).value;
        FieldsSane(w, fields, nesting);
        if ls != [] { WholeCovers(ls, 0); }
      case Vector(length, element) =>
        TypeSane(w, element, bound);
        var l := TypeLayout(w, element, bound);
        DividesMultiple(l.align, l.size, length);
    }
  }

  lemma {:induction false} FieldsSane(w: Structs, fields: seq<Field>, bound: nat)
    requires NoCycles(w) && FieldsBelow(w, fields, bound) && FieldLayouts(w, fields, bound).Some?
    ensures AllSane(FieldLayouts(w, fields, bound).value)
    decreases bound, fields, 1
  {
    if fields != [] {
      var n := |fields| - 1;
      FieldsSane(w, fields[..n], bound);
      if TakesSpace(fields[n]) { FieldSane(w, fields[n], bound); }
    }
  }

  lemma {:induction false} FieldSane(w: Structs, f: Field, bound: nat)
    requires NoCycles(w) && f.ty.Some? && Below(w, f.ty.value, bound) && Known(FieldTypeLayout(w, f, bound))
    ensures Sane(FieldTypeLayout(w, f, bound))
    decreases bound, f, 1
  {
    TypeSane(w, f.ty.value, bound);
  }

  datatype Slot = Slot(address: nat, size: nat, align: nat)

  /** The scalars of a value of type `t` at address `at`, in order. */
  function Scalars(w: Structs, t: Type, bound: nat, at: nat): seq<Slot>
    requires NoCycles(w) && Below(w, t, bound) && Known(TypeLayout(w, t, bound))
    decreases bound, t, 0
  {
    match t
    case Prim(p) => [Slot(at, PrimitiveLayout(p).size, PrimitiveLayout(p).align)]
    case Named(name) => FieldScalars(w, w[name].fields, w[name].nesting, at)
    case Vector(length, element) => ElementScalars(w, element, bound, at, length)
    case OtherType => []
  }

  function ElementScalars(w: Structs, element: Type, bound: nat, at: nat, n: nat): seq<Slot>
    requires NoCycles(w) && Below(w, element, bound) && Known(TypeLayout(w, element, bound))
    decreases bound, element, 1, n
  {
    if n == 0 then []
    else
      ElementScalars(w, element, bound, at, n - 1)
      + Scalars(w, element, bound, at + (n - 1) * TypeLayout(w, element, bound).size)
  }

  function FieldScalars(w: Structs, fields: seq<Field>, bound: nat, at: nat): seq<Slot>
    requires NoCycles(w) && FieldsBelow(w, fields, bound) && FieldLayouts(w, fields, bound).Some?
    decreases bound, fields, 0
  {
    if fields == [] then []
    else
      var n := |fields| - 1;
      var first := FieldScalars(w, fields[..n], bound, at);
      if !TakesSpace(fields[n]) then first
      else
        var end := End(FieldLayouts(w, fields[..n], bound).value);
        first + FieldScalarsOf(w, fields[n], bound, at + AlignUp(end, FieldTypeLayout(w, fields[n], bound).align))
  }

  function FieldScalarsOf(w: Structs, f: Field, bound: nat, at: nat): seq<Slot>
    requires NoCycles(w) && f.ty.Some? && Below(w, f.ty.value, bound) && Known(FieldTypeLayout(w, f, bound))
    decreases bound, f, 0
  {
    Scalars(w, f.ty.value, bound, at)
  }

  /** Aligned, within the bounds, and each behind the one before it. */
  predicate Sound(slots: seq<Slot>, lo: nat, hi: nat) {
    && lo <= hi
    && (forall i | 0 <= i < |slots| ::
          lo <= slots[i].address && slots[i].address + slots[i].size <= hi && Divides(slots[i].align, slots[i].address))
    && forall i, j | 0 <= i < j < |slots| :: slots[i].address + slots[i].size <= slots[j].address
  }

  lemma SoundAppend(a: seq<Slot>, b: seq<Slot>, lo: nat, mid: nat, hi: nat)
    requires Sound(a, lo, mid) && Sound(b, mid, hi)
    ensures Sound(a + b, lo, hi)
  {
  }

  lemma SoundWider(a: seq<Slot>, lo: nat, lo1: nat, hi: nat, hi1: nat)
    requires Sound(a, lo, hi) && lo1 <= lo && hi <= hi1
    ensures Sound(a, lo1, hi1)
  {
  }

  /** At an address that fits the type, every scalar in it, through structs and vectors, is
      aligned; none overlap, and all lie within the size. */
  lemma {:induction false} ScalarsSound(w: Structs, t: Type, bound: nat, at: nat)
    requires NoCycles(w) && Below(w, t, bound) && Known(TypeLayout(w, t, bound))
    requires Divides(TypeLayout(w, t, bound).align, at)
    ensures Sound(Scalars(w, t, bound, at), at, at + TypeLayout(w, t, bound).size)
    decreases bound, t, 3
  {
    match t {
      case Prim(_) =>
      case Named(name) => StructSound(w, name, bound, at);
      case Vector(length, element) =>
        TypeSane(w, element, bound);
        ElementsSound(w, element, bound, at, length);
    }
  }

  lemma {:induction false} ElementsSound(w: Structs, element: Type, bound: nat, at: nat, n: nat)
    requires NoCycles(w) && Below(w, element, bound) && Sane(TypeLayout(w, element, bound))
    requires Divides(TypeLayout(w, element, bound).align, at)
    ensures Sound(ElementScalars(w, element, bound, at, n), at, at + n * TypeLayout(w, element, bound).size)
    decreases bound, element, 4, n
  {
    if n > 0 {
      var l := TypeLayout(w, element, bound);
      var before := (n - 1) * l.size;
      ElementsSound(w, element, bound, at, n - 1);
      DividesMultiple(l.align, l.size, n - 1);
      DividesSum(l.align, at, before);
      ScalarsSound(w, element, bound, at + before);
      assert n * l.size == before + l.size;
      SoundAppend(ElementScalars(w, element, bound, at, n - 1), Scalars(w, element, bound, at + before),
        at, at + before, at + n * l.size);
    }
  }

  lemma {:induction false} StructSound(w: Structs, name: string, bound: nat, at: nat)
    requires NoCycles(w) && name in w && w[name].nesting < bound && Known(TypeLayout(w, Named(name), bound))
    requires Divides(TypeLayout(w, Named(name), bound).align, at)
    ensures Sound(Scalars(w, Named(name), bound, at), at, at + TypeLayout(w, Named(name), bound).size)
    decreases bound, Named(name), 2
  {
    var fields, nesting := w[name].fields, w[name].nesting;
    var ls := FieldLayouts(w, fields, nesting).value;
    FieldsSane(w, fields, nesting);
    WholeCovers(ls, 0);
    PlacedAt(ls, |ls| - 1);
    FieldsSound(w, fields, nesting, at, MaxAlign(ls));
    AlignUpLeast(End(ls), MaxAlign(ls), 0);
    SoundWider(FieldScalars(w, fields, nesting, at), at, at, at + End(ls), at + Whole(ls).size);
  }

  lemma {:induction false} FieldsSound(w: Structs, fields: seq<Field>, bound: nat, at: nat, align: nat)
    requires NoCycles(w) && FieldsBelow(w, fields, bound) && FieldLayouts(w, fields, bound).Some?
    requires Divides(align, at) && forall l | l in FieldLayouts(w, fields, bound).value :: Divides(l.align, align)
    ensures Sound(FieldScalars(w, fields, bound, at), at, at + End(FieldLayouts(w, fields, bound).value))
    decreases bound, fields, 2
  {
    if fields != [] {
      var n := |fields| - 1;
      var before := FieldLayouts(w, fields[..n], bound).value;
      if TakesSpace(fields[n]) {
        var l := FieldTypeLayout(w, fields[n], bound);
        assert FieldLayouts(w, fields, bound).value == before + [l];
        FieldsSound(w, fields[..n], bound, at, align);
        FieldSound(w, fields[n], bound, at, align, End(before));
        var start := AlignUp(End(before), l.align);
        SoundAppend(FieldScalars(w, fields[..n], bound, at), FieldScalarsOf(w, fields[n], bound, at + start),
          at, at + End(before), at + start + l.size);
        assert (before + [l])[..|before|] == before;
      } else {
        FieldsSound(w, fields[..n], bound, at, align);
      }
    }
  }

  lemma {:induction false} FieldSound(w: Structs, f: Field, bound: nat, at: nat, align: nat, end: nat)
    requires NoCycles(w) && f.ty.Some? && Below(w, f.ty.value, bound) && Known(FieldTypeLayout(w, f, bound))
    requires Divides(align, at) && Divides(FieldTypeLayout(w, f, bound).align, align)
    ensures var l := FieldTypeLayout(w, f, bound); var start := AlignUp(end, l.align);
      end <= start && Sound(FieldScalarsOf(w, f, bound, at + start), at + end, at + start + l.size)
    decreases bound, f, 2
  {
    var l := FieldTypeLayout(w, f, bound);
    var start := AlignUp(end, l.align);
    AlignUpLeast(end, l.align, 0);
    DividesTrans(l.align, align, at);
    DividesSum(l.align, at, start);
    ScalarsSound(w, f.ty.value, bound, at + start);
    SoundWider(FieldScalarsOf(w, f, bound, at + start), at + start, at + end, at + start + l.size, at + start + l.size);
  }

  // ---------------------------------------------------------------- the walks

  method ComputeType(w: Structs, t: Type, ghost bound: nat) returns (l: Layout)
    requires NoCycles(w) && Below(w, t, bound)
    ensures l == TypeLayout(w, t, bound)
    decreases bound, 0, t
  {
    match t
    case Prim(p) => l := PrimitiveLayout(p);
    case Named(name) =>
      if name !in w { return UNKNOWN; }
      l := ComputeStruct(w, name);
    case Vector(length, element) =>
      if length <= 0 { return UNKNOWN; }
      var e := ComputeType(w, element, bound);
      if e.size == 0 || e.align == 0 { return UNKNOWN; }
      l := Layout(length * e.size, e.align);
    case OtherType => l := UNKNOWN;
  }

  /** `struct_layout`: a running size, rounded up for each field and once more at the end. */
  method ComputeStruct(w: Structs, name: string) returns (out: Layout)
    requires NoCycles(w) && name in w
    ensures var r := FieldLayouts(w, w[name].fields, w[name].nesting);
      out == if r.Some? then Whole(r.value) else UNKNOWN
    decreases w[name].nesting, 1
  {
    var fields := w[name].fields;
    ghost var bound := w[name].nesting;
    var size, align := 0, 0;
    for i := 0 to |fields|
      invariant var r := FieldLayouts(w, fields[..i], bound);
        r.Some? && size == End(r.value) && align == MaxAlign(r.value)
    {
      assert fields[..i + 1][..i] == fields[..i];
      ghost var before := FieldLayouts(w, fields[..i], bound).value;
      if fields[i].embed || fields[i].ty.None? { continue; }
      var l := ComputeType(w, fields[i].ty.value, bound);
      if l.size == 0 || l.align == 0 {
        UnknownStays(w, fields, i + 1, bound);
        return UNKNOWN;
      }
      assert (before + [l])[..|before|] == before;
      size := AlignUp(size, l.align) + l.size;
      if l.align > align { align := l.align; }
    }
    assert fields[..|fields|] == fields;
    if align > 0 { size := AlignUp(size, align); }
    out := Layout(size, align);
  }

  /** `struct_field_layouts`: no entries at all where one field is not known. */
  method ComputeFields(w: Structs, name: string) returns (out: seq<FieldLayout>)
    requires NoCycles(w) && name in w
    ensures var r := FieldLayouts(w, w[name].fields, w[name].nesting);
      out == if r.Some? then Placed(r.value) else []
  {
    var fields := w[name].fields;
    ghost var bound := w[name].nesting;
    var running := 0;
    out := [];
    for i := 0 to |fields|
      invariant var r := FieldLayouts(w, fields[..i], bound);
        r.Some? && running == End(r.value) && out == Placed(r.value)
    {
      assert fields[..i + 1][..i] == fields[..i];
      ghost var before := FieldLayouts(w, fields[..i], bound).value;
      if fields[i].embed || fields[i].ty.None? { continue; }
      var l := ComputeType(w, fields[i].ty.value, bound);
      if l.size == 0 || l.align == 0 {
        UnknownStays(w, fields, i + 1, bound);
        return [];
      }
      assert (before + [l])[..|before|] == before;
      var offset := AlignUp(running, l.align);
      out := out + [FieldLayout(offset, l.size, l.align)];
      running := offset + l.size;
    }
    assert fields[..|fields|] == fields;
  }

  lemma {:induction false} UnknownStays(w: Structs, fields: seq<Field>, n: nat, bound: nat)
    requires n <= |fields| && NoCycles(w) && FieldsBelow(w, fields, bound) && FieldLayouts(w, fields[..n], bound).None?
    ensures FieldLayouts(w, fields, bound).None?
    decreases |fields|
  {
    if n == |fields| {
      assert fields[..n] == fields;
    } else {
      var m := |fields| - 1;
      assert fields[..m][..n] == fields[..n];
      UnknownStays(w, fields[..m], n, bound);
    }
  }
}
