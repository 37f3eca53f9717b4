/** Structures (src/primitives.rs): trees built from flavoured leaves, `()`,
    pairs, `OneOf` and `Untouched`, and the conversions that turn reference
    leaves into `NonNull` pointers and `NonNull` leaves into `GenRef`s.

    In Rust each conversion is a family of trait impls, one per node kind
    (two of the families generated by one macro); here a structure is one
    recursive datatype whose leaf type is the flavour, and the conversions
    are instances of one leaf-wise map. `Untouched` carries data of type `X`
    that no conversion looks into. */
module Structures {
  import opened Heap
  import opened MutabilityMarkers
  import opened GenRefs

  /** `OneOf<T, U>`: the two-variant enum used to encode enums. */
  datatype OneOf<T, U> = First(first: T) | Second(second: U)

  datatype Structure<L, X> =
    | Leaf(leaf: L)
    | Unit
    | Pair(left: Structure<L, X>, right: Structure<L, X>)
    | Choice(oneOf: OneOf<Structure<L, X>, Structure<L, X>>)
    | Untouched(data: X)

  /** The arrangement of a structure with its leaves and untouched data left out. */
  datatype Shape =
    | LeafShape
    | UnitShape
    | PairShape(left: Shape, right: Shape)
    | FirstShape(first: Shape)
    | SecondShape(second: Shape)
    | UntouchedShape

  function ShapeOf<L, X>(s: Structure<L, X>): Shape
  {
    match s
    case Leaf(_) => LeafShape
    case Unit => UnitShape
    case Pair(l, r) => PairShape(ShapeOf(l), ShapeOf(r))
    case Choice(First(t)) => FirstShape(ShapeOf(t))
    case Choice(Second(u)) => SecondShape(ShapeOf(u))
    case Untouched(_) => UntouchedShape
  }

  /** The flavoured leaves, left to right. */
  function Leaves<L, X>(s: Structure<L, X>): seq<L>
  {
    match s
    case Leaf(l) => [l]
    case Unit => []
    case Pair(l, r) => Leaves(l) + Leaves(r)
    case Choice(First(t)) => Leaves(t)
    case Choice(Second(u)) => Leaves(u)
    case Untouched(_) => []
  }

  /** The data inside `Untouched` nodes, left to right. */
  function UntouchedData<L, X>(s: Structure<L, X>): seq<X>
  {
    match s
    case Leaf(_) => []
    case Unit => []
    case Pair(l, r) => UntouchedData(l) + UntouchedData(r)
    case Choice(First(t)) => UntouchedData(t)
    case Choice(Second(u)) => UntouchedData(u)
    case Untouched(x) => [x]
  }

  /** The number of leaves a shape has room for. */
  function LeafCount(sh: Shape): nat
  {
    match sh
    case LeafShape => 1
    case UnitShape => 0
    case PairShape(l, r) => LeafCount(l) + LeafCount(r)
    case FirstShape(t) => LeafCount(t)
    case SecondShape(u) => LeafCount(u)
    case UntouchedShape => 0
  }

  /** `f` applied to every element, in order. */
  function MapSeq<A, B>(xs: seq<A>, f: A -> B): (ys: seq<B>)
    ensures |ys| == |xs|
    ensures forall i :: 0 <= i < |xs| ==> ys[i] == f(xs[i])
  {
    seq(|xs|, i requires 0 <= i < |xs| => f(xs[i]))
  }

  /** The leaf-wise conversion that every impl family performs: `()` to `()`,
      a pair component by component, `OneOf` variant by variant, `Untouched`
      as it is, and a leaf through `f`. */
  function MapLeaves<A, B, X>(s: Structure<A, X>, f: A -> B): (r: Structure<B, X>)
    ensures ShapeOf(r) == ShapeOf(s)
    ensures |Leaves(r)| == LeafCount(ShapeOf(s))
  {
    match s
    case Leaf(a) => Leaf(f(a))
    case Unit => Unit
    case Pair(l, r) => Pair(MapLeaves(l, f), MapLeaves(r, f))
    case Choice(First(t)) => Choice(First(MapLeaves(t, f)))
    case Choice(Second(u)) => Choice(Second(MapLeaves(u, f)))
    case Untouched(x) => Untouched(x)
  }

  /** The leaves of the converted structure are the converted leaves, in the
      same order. */
  lemma {:induction false} MapLeavesLeaves<A, B, X>(s: Structure<A, X>, f: A -> B)
    ensures Leaves(MapLeaves(s, f)) == MapSeq(Leaves(s), f)
  {
    match s
    case Leaf(_) =>
    case Unit =>
    case Pair(l, r) =>
      MapLeavesLeaves(l, f);
      MapLeavesLeaves(r, f);
      assert MapSeq(Leaves(l) + Leaves(r), f) == MapSeq(Leaves(l), f) + MapSeq(Leaves(r), f);
    case Choice(First(t)) => MapLeavesLeaves(t, f);
    case Choice(Second(u)) => MapLeavesLeaves(u, f);
    case Untouched(_) =>
  }

  /** The untouched data comes out of a conversion exactly as it went in. */
  lemma {:induction false} MapLeavesUntouched<A, B, X>(s: Structure<A, X>, f: A -> B)
    ensures UntouchedData(MapLeaves(s, f)) == UntouchedData(s)
  {
    match s
    case Leaf(_) =>
    case Unit =>
    case Pair(l, r) =>
      MapLeavesUntouched(l, f);
      MapLeavesUntouched(r, f);
    case Choice(First(t)) => MapLeavesUntouched(t, f);
    case Choice(Second(u)) => MapLeavesUntouched(u, f);
    case Untouched(_) =>
  }

  /** Converting twice is converting once with the composed leaf map. */
  lemma {:induction false} MapLeavesFusion<A, B, C, X>(s: Structure<A, X>, f: A -> B, g: B -> C)
    ensures MapLeaves(MapLeaves(s, f), g) == MapLeaves(s, (a: A) => g(f(a)))
  {
    match s
    case Leaf(_) =>
    case Unit =>
    case Pair(l, r) =>
      MapLeavesFusion(l, f, g);
      MapLeavesFusion(r, f, g);
    case Choice(First(t)) => MapLeavesFusion(t, f, g);
    case Choice(Second(u)) => MapLeavesFusion(u, f, g);
    case Untouched(_) =>
  }

  /** A structure is determined by its shape, its leaves and its untouched
      data: so the three lemmas above say all there is to say about a
      conversion. */
  lemma {:induction false} DeterminedByShapeLeavesData<L, X>(s: Structure<L, X>, t: Structure<L, X>)
    requires ShapeOf(s) == ShapeOf(t)
    requires Leaves(s) == Leaves(t)
    requires UntouchedData(s) == UntouchedData(t)
    ensures s == t
  {
    match s
    case Leaf(_) =>
    case Unit =>
    case Pair(l, r) =>
      var Pair(l', r') := t;
      LeavesCountIsShapeCount(l);
      LeavesCountIsShapeCount(l');
      UntouchedCountIsShapeCount(l);
      UntouchedCountIsShapeCount(l');
      assert Leaves(l) == Leaves(s)[..|Leaves(l)|] && Leaves(l') == Leaves(t)[..|Leaves(l')|];
      assert Leaves(r) == Leaves(s)[|Leaves(l)|..] && Leaves(r') == Leaves(t)[|Leaves(l')|..];
      assert UntouchedData(l) == UntouchedData(s)[..|UntouchedData(l)|];
      assert UntouchedData(l') == UntouchedData(t)[..|UntouchedData(l')|];
      assert UntouchedData(r) == UntouchedData(s)[|UntouchedData(l)|..];
      assert UntouchedData(r') == UntouchedData(t)[|UntouchedData(l')|..];
      DeterminedByShapeLeavesData(l, l');
      DeterminedByShapeLeavesData(r, r');
    case Choice(First(u)) =>
      var Choice(First(u')) := t;
      DeterminedByShapeLeavesData(u, u');
    case Choice(Second(u)) =>
      var Choice(Second(u')) := t;
      DeterminedByShapeLeavesData(u, u');
    case Untouched(_) =>
  }

  /** The number of leaves is fixed by the shape. */
  lemma {:induction false} LeavesCountIsShapeCount<L, X>(s: Structure<L, X>)
    ensures |Leaves(s)| == LeafCount(ShapeOf(s))
  {
    match s
    case Leaf(_) =>
    case Unit =>
    case Pair(l, r) =>
      LeavesCountIsShapeCount(l);
      LeavesCountIsShapeCount(r);
    case Choice(First(t)) => LeavesCountIsShapeCount(t);
    case Choice(Second(u)) => LeavesCountIsShapeCount(u);
    case Untouched(_) =>
  }

  /** The number of untouched nodes, fixed by the shape. */
  function UntouchedCount(sh: Shape): nat
  {
    match sh
    case LeafShape => 0
    case UnitShape => 0
    case PairShape(l, r) => UntouchedCount(l) + UntouchedCount(r)
    case FirstShape(t) => UntouchedCount(t)
    case SecondShape(u) => UntouchedCount(u)
    case UntouchedShape => 1
  }

  /** The amount of untouched data is fixed by the shape. */
  lemma {:induction false} UntouchedCountIsShapeCount<L, X>(s: Structure<L, X>)
    ensures |UntouchedData(s)| == UntouchedCount(ShapeOf(s))
  {
    match s
    case Leaf(_) =>
    case Unit =>
    case Pair(l, r) =>
      UntouchedCountIsShapeCount(l);
      UntouchedCountIsShapeCount(r);
    case Choice(First(t)) => UntouchedCountIsShapeCount(t);
    case Choice(Second(u)) => UntouchedCountIsShapeCount(u);
    case Untouched(_) =>
  }

  // ---------------------------------------------------------------------
  // The three conversions

  /** `StructureMutIntoNonNull::into_nonnull_structure`: every `&mut T` leaf
      becomes the pointer to its referent; everything else keeps its place. */
  function MutIntoNonNull<X>(s: Structure<MutRef, X>): (r: Structure<Address, X>)
    ensures ShapeOf(r) == ShapeOf(s)
    ensures |Leaves(r)| == |Leaves(s)|
    ensures forall i :: 0 <= i < |Leaves(s)| ==> Leaves(r)[i] == Leaves(s)[i].addr
    ensures UntouchedData(r) == UntouchedData(s)
  {
    var f := (p: MutRef) => p.addr;
    MapLeavesLeaves(s, f);
    MapLeavesUntouched(s, f);
    MapLeaves(s, f)
  }

  /** `StructureImmutIntoNonNull::into_nonnull_structure`: every `&T` leaf
      becomes the pointer to its referent; everything else keeps its place. */
  function ImmutIntoNonNull<X>(s: Structure<SharedRef, X>): (r: Structure<Address, X>)
    ensures ShapeOf(r) == ShapeOf(s)
    ensures |Leaves(r)| == |Leaves(s)|
    ensures forall i :: 0 <= i < |Leaves(s)| ==> Leaves(r)[i] == Leaves(s)[i].addr
    ensures UntouchedData(r) == UntouchedData(s)
  {
    var f := (p: SharedRef) => p.addr;
    MapLeavesLeaves(s, f);
    MapLeavesUntouched(s, f);
    MapLeaves(s, f)
  }

  /** `StructureNonNullIntoGenRef::into_genref_structure` (unsafe) at marker
      `m`: every pointer leaf becomes `GenRef::new` of it, so every `GenRef`
      in the result carries the same `m`. */
  function NonNullIntoGenRef<X>(m: Mutability, s: Structure<Address, X>): (r: Structure<GenRef, X>)
    ensures ShapeOf(r) == ShapeOf(s)
    ensures |Leaves(r)| == |Leaves(s)|
    ensures forall i :: 0 <= i < |Leaves(s)| ==> Leaves(r)[i].m == m && AsPtr(Leaves(r)[i]) == Leaves(s)[i]
    ensures UntouchedData(r) == UntouchedData(s)
  {
    var f := (p: Address) => New(m, p);
    MapLeavesLeaves(s, f);
    MapLeavesUntouched(s, f);
    MapLeaves(s, f)
  }

  /** Converting with two leaf maps that agree on every leaf gives the same structure. */
  lemma {:induction false} MapLeavesPointwise<A, B, X>(s: Structure<A, X>, f: A -> B, g: A -> B)
    requires forall a :: f(a) == g(a)
    ensures MapLeaves(s, f) == MapLeaves(s, g)
  {
    match s
    case Leaf(_) =>
    case Unit =>
    case Pair(l, r) =>
      MapLeavesPointwise(l, f, g);
      MapLeavesPointwise(r, f, g);
    case Choice(First(t)) => MapLeavesPointwise(t, f, g);
    case Choice(Second(u)) => MapLeavesPointwise(u, f, g);
    case Untouched(_) =>
  }

  /** The whole pipeline from a mutable reference-structure: the result is
      the structure with each `&mut T` leaf replaced by a `GenRef` to the same
      referent at marker `m` (`toGenRef` being that leaf map). */
  lemma MutPipeline<X>(m: Mutability, s: Structure<MutRef, X>, toGenRef: MutRef -> GenRef)
    requires forall r :: toGenRef(r) == New(m, r.addr)
    ensures NonNullIntoGenRef(m, MutIntoNonNull(s)) == MapLeaves(s, toGenRef)
  {
    var f := (p: MutRef) => p.addr;
    var g := (p: Address) => New(m, p);
    MapLeavesFusion(s, f, g);
    MapLeavesPointwise(s, (a: MutRef) => g(f(a)), toGenRef);
  }

  /** The same for an immutable reference-structure. */
  lemma ImmutPipeline<X>(m: Mutability, s: Structure<SharedRef, X>, toGenRef: SharedRef -> GenRef)
    requires forall r :: toGenRef(r) == New(m, r.addr)
    ensures NonNullIntoGenRef(m, ImmutIntoNonNull(s)) == MapLeaves(s, toGenRef)
  {
    var f := (p: SharedRef) => p.addr;
    var g := (p: Address) => New(m, p);
    MapLeavesFusion(s, f, g);
    MapLeavesPointwise(s, (a: SharedRef) => g(f(a)), toGenRef);
  }
}
