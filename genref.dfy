/** `GenRef<'s, M, T>` (src/genref.rs): a reference whose mutability is the
    marker `M`. It is a pointer plus the marker; the lifetime and the pointee
    type are not modelled, so a `GenRef` here is the pair `(m, ptr)`.

    The concrete instantiations `GenRef<'_, Shared, T>` and
    `GenRef<'_, Mutable, T>` are the subset types `SharedGenRef` and
    `MutableGenRef`: what Rust offers only at one marker takes that subset
    type. Projection closures passed to `map` and `dispatch` are total
    functions on native references. */
module GenRefs {
  import opened Heap
  import opened Wrappers
  import opened MutabilityMarkers
  import ErasedMutability

  datatype GenRef = GenRef(m: Mutability, ptr: Address)

  /** `GenRef<'_, Shared, T>`. */
  type SharedGenRef = g: GenRef | g.m == Shared witness GenRef(Shared, 1)

  /** `GenRef<'_, Mutable, T>`. */
  type MutableGenRef = g: GenRef | g.m == Mutable witness GenRef(Mutable, 1)

  /** A `GenRef` is usable in `mem` when its cell is readable and, if it
      carries `Mutable`, also writable. */
  ghost predicate ValidIn<V>(g: GenRef, mem: Memory<V>)
    reads mem
  {
    g.ptr in mem.cells && (g.m == Mutable ==> g.ptr in mem.writable)
  }

  // ---------------------------------------------------------------------
  // Construction and access to the pointer

  /** `from_erased_unchecked` (unsafe): takes the erased pointer at marker `m`. */
  function FromErasedUnchecked(m: Mutability, erased: ErasedMutability.ErasedMutabilityRef): (g: GenRef)
    ensures g.m == m && AsPtr(g) == ErasedMutability.AsPtr(erased)
  {
    GenRef(m, ErasedMutability.AsPtr(erased))
  }

  /** `into_erased`: forgets the marker, keeping the pointer. */
  function IntoErased(g: GenRef): (erased: ErasedMutability.ErasedMutabilityRef)
    ensures ErasedMutability.AsPtr(erased) == AsPtr(g)
  {
    ErasedMutability.NewUnchecked(g.ptr)
  }

  /** Erasing and re-taking at the same marker gives back the same `GenRef`. */
  lemma ErasedRoundTrip(g: GenRef)
    ensures FromErasedUnchecked(g.m, IntoErased(g)) == g
  {
  }

  /** `as_ptr`: the stored pointer; the `GenRef` is only borrowed. */
  function AsPtr(g: GenRef): (p: Address)
    ensures g == GenRef(g.m, p)
  {
    g.ptr
  }

  /** `GenRef::new` (unsafe), used by the structure conversions and by
      `try_from`: the pointer taken at marker `m`, as `from_erased_unchecked`
      does for a freshly wrapped pointer. */
  function New(m: Mutability, ptr: Address): (g: GenRef)
    ensures g.m == m && AsPtr(g) == ptr
  {
    FromErasedUnchecked(m, ErasedMutability.NewUnchecked(ptr))
  }

  // ---------------------------------------------------------------------
  // Conversions from and into native references

  /** `gen_from_mut_downgrading`: a `&mut T` taken at any marker, without proof. */
  function GenFromMutDowngrading(m: Mutability, r: MutRef): (g: GenRef)
    ensures g.m == m && AsPtr(g) == r.addr
  {
    FromErasedUnchecked(m, ErasedMutability.FromMut(r))
  }

  /** `gen_into_shared_downgrading`: a `&T` from a `GenRef` of any marker, without proof. */
  function GenIntoSharedDowngrading(g: GenRef): (r: SharedRef)
    ensures r.addr == AsPtr(g)
  {
    ErasedMutability.IntoRef(IntoErased(g))
  }

  /** `gen_into_mut`: needs a proof that the `GenRef`'s own marker is `Mutable`. */
  function GenIntoMut(g: GenRef, proof: IsMutable): (r: MutRef)
    requires proof == g.m
    ensures r.addr == AsPtr(g)
  {
    ErasedMutability.IntoMut(IntoErased(g))
  }

  /** `gen_from_mut`: with a proof that `M` is `Mutable`, a `&mut T` becomes a `GenRef<M>`. */
  function GenFromMut(r: MutRef, proof: IsMutable): (g: GenRef)
    ensures g.m == proof && g.m == Mutable && AsPtr(g) == r.addr
  {
    FromErasedUnchecked(proof, ErasedMutability.FromMut(r))
  }

  /** `gen_into_shared`: needs a proof that the `GenRef`'s own marker is `Shared`. */
  function GenIntoShared(g: GenRef, proof: IsShared): (r: SharedRef)
    requires proof == g.m
    ensures r.addr == AsPtr(g)
  {
    ErasedMutability.IntoRef(IntoErased(g))
  }

  /** `gen_from_shared`: with a proof that `M` is `Shared`, a `&T` becomes a `GenRef<M>`. */
  function GenFromShared(r: SharedRef, proof: IsShared): (g: GenRef)
    ensures g.m == proof && g.m == Shared && AsPtr(g) == r.addr
  {
    FromErasedUnchecked(proof, ErasedMutability.FromShared(r))
  }

  /** `gen_from_mut` then `gen_into_mut` returns the same `&mut T`, and the
      converse round trip returns the same `GenRef`. */
  lemma MutRoundTrips(r: MutRef, g: GenRef, proof: IsMutable)
    requires proof == g.m
    ensures GenIntoMut(GenFromMut(r, proof), proof) == r
    ensures GenFromMut(GenIntoMut(g, proof), proof) == g
  {
  }

  /** `gen_from_shared` then `gen_into_shared` returns the same `&T`, and the
      converse round trip returns the same `GenRef`. */
  lemma SharedRoundTrips(r: SharedRef, g: GenRef, proof: IsShared)
    requires proof == g.m
    ensures GenIntoShared(GenFromShared(r, proof), proof) == r
    ensures GenFromShared(GenIntoShared(g, proof), proof) == g
  {
  }

  /** The downgrading conversions agree with the proof-carrying ones where
      both apply, and keep the address at the other marker too. */
  lemma DowngradingAgrees(r: MutRef, g: GenRef)
    ensures GenFromMutDowngrading(Mutable, r) == GenFromMut(r, Mutable)
    ensures g.m == Shared ==> GenIntoSharedDowngrading(g) == GenIntoShared(g, Shared)
    ensures GenIntoSharedDowngrading(GenFromMutDowngrading(Shared, r)) == SharedRef(r.addr)
  {
  }

  // ---------------------------------------------------------------------
  // The concrete markers

  /** `GenRef<'_, Shared, T>::into_shared`: no proof needed. */
  function IntoShared(g: SharedGenRef): (r: SharedRef)
    ensures r.addr == AsPtr(g)
  {
    GenIntoShared(g, SharedProof())
  }

  /** `GenRef<'_, Mutable, T>::into_mut`: no proof needed. */
  function IntoMut(g: MutableGenRef): (r: MutRef)
    ensures r.addr == AsPtr(g)
  {
    GenIntoMut(g, MutableProof())
  }

  /** `From<&T>`: a `Shared` `GenRef` to the referent. */
  function FromShared(r: SharedRef): (g: SharedGenRef)
    ensures IntoShared(g) == r
  {
    GenFromShared(r, SharedProof())
  }

  /** `From<&mut T>`: a `Mutable` `GenRef` to the referent. */
  function FromMut(r: MutRef): (g: MutableGenRef)
    ensures IntoMut(g) == r
  {
    GenFromMut(r, MutableProof())
  }

  // ---------------------------------------------------------------------
  // Reborrowing, dispatching and mapping

  /** `reborrow`: the same pointer at the same marker (only the lifetime,
      which is not modelled, is shorter). */
  function Reborrow(g: GenRef): (r: GenRef)
    ensures r.m == g.m && AsPtr(r) == AsPtr(g)
  {
    FromErasedUnchecked(g.m, ErasedMutability.NewUnchecked(g.ptr))
  }

  /** `dispatch`: hands the pointee to `fMut` as a `&mut T` when the marker is
      `Mutable`, and to `fShared` as a `&T` when it is `Shared`. */
  function Dispatch<U>(g: GenRef, fMut: MutRef -> U, fShared: SharedRef -> U): (u: U)
    ensures g.m == Mutable ==> u == fMut(MutRef(g.ptr))
    ensures g.m == Shared ==> u == fShared(SharedRef(g.ptr))
  {
    match MutabilityOf(g.m)
    case MutableCase(proof) => fMut(GenIntoMut(g, proof))
    case SharedCase(proof) => fShared(GenIntoShared(g, proof))
  }

  /** `map`: projects through `fMut` when the marker is `Mutable` and through
      `fShared` when it is `Shared`; the result keeps the marker and points
      where the chosen closure's reference points. */
  function Map(g: GenRef, fMut: MutRef -> MutRef, fShared: SharedRef -> SharedRef): (r: GenRef)
    ensures r.m == g.m
    ensures g.m == Mutable ==> AsPtr(r) == fMut(MutRef(g.ptr)).addr
    ensures g.m == Shared ==> AsPtr(r) == fShared(SharedRef(g.ptr)).addr
  {
    match MutabilityOf(g.m)
    case MutableCase(proof) => GenFromMut(fMut(GenIntoMut(g, proof)), proof)
    case SharedCase(proof) => GenFromShared(fShared(GenIntoShared(g, proof)), proof)
  }

  /** Only one closure of `map` is ever used: at `Mutable` the result does not
      depend on `fShared`, at `Shared` it does not depend on `fMut`. */
  lemma MapUsesOneClosure(g: GenRef, fMut: MutRef -> MutRef, fMut': MutRef -> MutRef,
                          fShared: SharedRef -> SharedRef, fShared': SharedRef -> SharedRef)
    ensures g.m == Mutable ==> Map(g, fMut, fShared) == Map(g, fMut, fShared')
    ensures g.m == Shared ==> Map(g, fMut, fShared) == Map(g, fMut', fShared)
  {
  }

  /** Mapping with the identity projections changes nothing, and mapping twice
      is mapping once with the composed projections. */
  lemma MapIdentityAndComposition(g: GenRef, f1: MutRef -> MutRef, s1: SharedRef -> SharedRef,
                                  f2: MutRef -> MutRef, s2: SharedRef -> SharedRef)
    ensures Map(g, (r: MutRef) => r, (r: SharedRef) => r) == g
    ensures Map(Map(g, f1, s1), f2, s2) == Map(g, (r: MutRef) => f2(f1(r)), (r: SharedRef) => s2(s1(r)))
  {
  }

  /** `as_deref`: `map` with `DerefMut::deref_mut` and `Deref::deref`; for
      the pointee at `p` these lead to `targetMut(p)` and `targetShared(p)`,
      which Rust does not force to agree. */
  function AsDeref(g: GenRef, targetMut: Address -> Address, targetShared: Address -> Address): (r: GenRef)
    ensures r.m == g.m
    ensures g.m == Mutable ==> AsPtr(r) == targetMut(AsPtr(g))
    ensures g.m == Shared ==> AsPtr(r) == targetShared(AsPtr(g))
  {
    Map(g, (r: MutRef) => MutRef(targetMut(r.addr)), (r: SharedRef) => SharedRef(targetShared(r.addr)))
  }

  // ---------------------------------------------------------------------
  // Deref, DerefMut, Clone

  /** `Deref::deref`, at any marker: a shared view of the pointee. */
  function Deref(g: GenRef): (r: SharedRef)
    ensures r.addr == AsPtr(g)
  {
    ErasedMutability.AsRef(ErasedMutability.NewUnchecked(g.ptr))
  }

  /** `DerefMut::deref_mut`, only at `Mutable`: `into_mut(reborrow(self))`. */
  function DerefMut(g: MutableGenRef): (r: MutRef)
    ensures r.addr == AsPtr(g)
  {
    IntoMut(Reborrow(g))
  }

  /** `Clone::clone`, only at `Shared`: copies the reference, not the pointee. */
  function Clone(g: SharedGenRef): (c: SharedGenRef)
    ensures c == g
  {
    g
  }

  /** Reading through a `GenRef` of either marker reads the same cell as the
      native reference it was built from. */
  lemma ReadTransparency<V>(mem: Memory<V>, r: SharedRef, w: MutRef, m: Mutability)
    requires r.addr in mem.cells && w.addr in mem.cells
    ensures mem.Load(Deref(FromShared(r)).addr) == mem.Load(r.addr)
    ensures mem.Load(Deref(FromMut(w)).addr) == mem.Load(w.addr)
    ensures mem.Load(Deref(GenFromMutDowngrading(m, w)).addr) == mem.Load(w.addr)
  {
  }

  /** A write through `deref_mut` is what the next `deref` reads, and no other
      cell changes. */
  method AssignThroughDerefMut<V>(mem: Memory<V>, g: MutableGenRef, v: V)
    requires mem.Valid() && ValidIn(g, mem)
    modifies mem
    ensures mem.Valid() && mem.writable == old(mem.writable) && ValidIn(g, mem)
    ensures mem.Load(Deref(g).addr) == v
    ensures mem.cells == old(mem.cells)[AsPtr(g) := v]
  {
    var r := DerefMut(g);
    mem.Store(r, v);
  }

  /** Round trip through `gen_from_mut` and `gen_into_mut`: a write through
      the `&mut T` that comes back is seen by the original reference's owner. */
  method WriteAfterMutRoundTrip<V>(mem: Memory<V>, r: MutRef, v: V)
    requires mem.Valid() && r.addr in mem.writable
    modifies mem
    ensures mem.Valid() && mem.writable == old(mem.writable)
    ensures r.addr in mem.cells && mem.Load(r.addr) == v
    ensures mem.cells == old(mem.cells)[r.addr := v]
  {
    var proof := MutableProof();
    var g := GenFromMut(r, proof);
    var back := GenIntoMut(g, proof);
    mem.Store(back, v);
  }

  /** Downgrading a `Mutable` `GenRef` after a write: the shared reference it
      downgrades to points at the same cell and reads the latest write. */
  method WriteThenDowngrade<V>(mem: Memory<V>, g: MutableGenRef, v: V) returns (r: SharedRef)
    requires mem.Valid() && ValidIn(g, mem)
    modifies mem
    ensures mem.Valid() && mem.writable == old(mem.writable)
    ensures r.addr == AsPtr(g) && mem.Load(r.addr) == v
    ensures mem.cells == old(mem.cells)[AsPtr(g) := v]
  {
    AssignThroughDerefMut(mem, g, v);
    r := GenIntoSharedDowngrading(g);
  }

  // ---------------------------------------------------------------------
  // Comparison between GenRefs of any mutabilities

  datatype Ordering = Less | Equal | Greater

  /** `PartialEq` between `GenRef<MT, T>` and `GenRef<MU, U>`: the pointees'
      own `eq`, which need not be reflexive (a NaN float is not equal to
      itself); the markers and the addresses play no part. */
  function Eq<V>(mem: Memory<V>, a: GenRef, b: GenRef, eq: (V, V) -> bool): (equal: bool)
    reads mem
    requires a.ptr in mem.cells && b.ptr in mem.cells
    ensures equal == eq(mem.Load(Deref(a).addr), mem.Load(Deref(b).addr))
  {
    eq(mem.cells[a.ptr], mem.cells[b.ptr])
  }

  /** `PartialOrd` between `GenRef`s of any mutabilities: the pointees'
      `partial_cmp`. */
  function PartialCmp<V>(mem: Memory<V>, a: GenRef, b: GenRef, partialCmp: (V, V) -> Option<Ordering>): (o: Option<Ordering>)
    reads mem
    requires a.ptr in mem.cells && b.ptr in mem.cells
    ensures o == partialCmp(mem.Load(Deref(a).addr), mem.Load(Deref(b).addr))
  {
    partialCmp(mem.cells[a.ptr], mem.cells[b.ptr])
  }

  /** `Ord` between two `GenRef`s of the same type and marker: the pointees' `cmp`. */
  function Cmp<V>(mem: Memory<V>, a: GenRef, b: GenRef, cmp: (V, V) -> Ordering): (o: Ordering)
    reads mem
    requires a.m == b.m
    requires a.ptr in mem.cells && b.ptr in mem.cells
    ensures o == cmp(mem.Load(Deref(a).addr), mem.Load(Deref(b).addr))
  {
    cmp(mem.cells[a.ptr], mem.cells[b.ptr])
  }

  /** Comparisons depend only on the pointees: re-pointing either side, at
      any marker, at a cell holding the same value changes no comparison. */
  lemma ComparisonsSeeOnlyPointees<V>(mem: Memory<V>, a: GenRef, b: GenRef, a': GenRef, b': GenRef,
                                      eq: (V, V) -> bool, partialCmp: (V, V) -> Option<Ordering>,
                                      cmp: (V, V) -> Ordering)
    requires a.ptr in mem.cells && b.ptr in mem.cells && a'.ptr in mem.cells && b'.ptr in mem.cells
    requires mem.Load(a.ptr) == mem.Load(a'.ptr) && mem.Load(b.ptr) == mem.Load(b'.ptr)
    ensures Eq(mem, a, b, eq) == Eq(mem, a', b', eq)
    ensures PartialCmp(mem, a, b, partialCmp) == PartialCmp(mem, a', b', partialCmp)
    ensures a.m == b.m && a'.m == b'.m ==> Cmp(mem, a, b, cmp) == Cmp(mem, a', b', cmp)
  {
  }
}
