/** `GenStruct<M, Sh, Mut>` (src/gen_struct.rs): a value that holds an `Sh`
    when `M` is `Shared` and a `Mut` when `M` is `Mutable`, stored in a
    union whose active field only `M` tells.

    The union is the field `inner`, whose datatype constructor records which
    union field was written; reading the other one is not expressible. The
    field `state` follows the value's life: `Live` after construction,
    `MovedOut` once `into_shared`/`into_mut` took the payload (its destructor
    suppressed), `Destroyed(field)` once `Drop` destroyed `field`. */
module GenStructs {
  import opened Heap
  import opened MutabilityMarkers
  import opened GenRefs

  /** `GenStructInner`: the `shared` or the `mutable` field is the written one. */
  datatype Inner<Sh, Mut> = SharedField(shared: Sh) | MutableField(mutable: Mut)

  datatype Lifecycle<Sh, Mut> = Live | MovedOut | Destroyed(field: Inner<Sh, Mut>)

  class GenStruct<Sh, Mut> {
    const m: Mutability
    var inner: Inner<Sh, Mut>
    var state: Lifecycle<Sh, Mut>

    /** The active union field is the one the marker selects. */
    ghost predicate Valid()
      reads this
    {
      inner.SharedField? <==> m == Shared
    }

    /** `from_shared`: needs a proof that `M` is `Shared`; writes `shared`. */
    constructor FromShared(from: Sh, proof: IsShared)
      ensures Valid() && m == proof
      ensures inner == SharedField(from) && state == Live
    {
      m := proof;
      inner := SharedField(from);
      state := Live;
    }

    /** `from_mut`: needs a proof that `M` is `Mutable`; writes `mutable`. */
    constructor FromMut(from: Mut, proof: IsMutable)
      ensures Valid() && m == proof
      ensures inner == MutableField(from) && state == Live
    {
      m := proof;
      inner := MutableField(from);
      state := Live;
    }

    /** `into_shared`: with a proof that `M` is `Shared`, moves the payload
        out of `shared`; the `GenStruct`'s destructor does not run. */
    method IntoShared(proof: IsShared) returns (payload: Sh)
      requires Valid() && state == Live && proof == m
      modifies this
      ensures Valid() && inner == old(inner)
      ensures old(inner) == SharedField(payload)
      ensures state == MovedOut
    {
      payload := inner.shared;
      state := MovedOut;
    }

    /** `into_mut`: with a proof that `M` is `Mutable`, moves the payload out
        of `mutable`; the `GenStruct`'s destructor does not run. */
    method IntoMut(proof: IsMutable) returns (payload: Mut)
      requires Valid() && state == Live && proof == m
      modifies this
      ensures Valid() && inner == old(inner)
      ensures old(inner) == MutableField(payload)
      ensures state == MovedOut
    {
      payload := inner.mutable;
      state := MovedOut;
    }

    /** `Drop::drop`: destroys the field `switch_shared_mut!` selects, which is
        `shared` under `Shared` and `mutable` under `Mutable`: the active one.
        A value already moved out or destroyed cannot be dropped again. */
    method Drop()
      requires Valid() && state == Live
      modifies this
      ensures Valid() && inner == old(inner)
      ensures state == Destroyed(old(inner))
      ensures state.field.SharedField? <==> m == Shared
    {
      match MutabilityOf(m)
      case SharedCase(_) =>
        state := Destroyed(SharedField(inner.shared));
      case MutableCase(_) =>
        state := Destroyed(MutableField(inner.mutable));
    }
  }

  /** `from_shared` followed by `into_shared` gives back the value put in. */
  method SharedRoundTrip<Sh, Mut>(x: Sh) returns (y: Sh)
    ensures y == x
  {
    var s := new GenStruct<Sh, Mut>.FromShared(x, SharedProof());
    y := s.IntoShared(SharedProof());
  }

  /** `from_mut` followed by `into_mut` gives back the value put in. */
  method MutRoundTrip<Sh, Mut>(x: Mut) returns (y: Mut)
    ensures y == x
  {
    var s := new GenStruct<Sh, Mut>.FromMut(x, MutableProof());
    y := s.IntoMut(MutableProof());
  }

  // ---------------------------------------------------------------------
  // Projections through a GenRef to a GenStruct

  /** `GenStructAsRef<GenRef<'_, MOuter, GenStruct<MInner, Sh, Mut>>>`: the
      reference to the `GenStruct`, together with the struct's own marker. */
  datatype GenStructAsRef = GenStructAsRef(innerM: Mutability, genref: GenRef)

  /** `GenStruct::as_ref`: wraps the reference to a `GenStruct` of marker
      `innerM` without changing it. */
  function AsRef(innerM: Mutability, g: GenRef): (a: GenStructAsRef)
    ensures a.genref == g && a.innerM == innerM
  {
    GenStructAsRef(innerM, g)
  }

  /** The target of `ManuallyDrop<T>`'s `Deref` and `DerefMut` alike: the
      wrapper is `#[repr(transparent)]`, so the same address. */
  function ManuallyDropTarget(p: Address): Address
  {
    p
  }

  /** `field!(&gen {g}.inner.<field>)` followed by `map_deref`. Neither
      `GenStruct` nor its union has a fixed representation, so where a union
      field lies inside the struct at `p` is the parameter `fieldAddr(p)`. */
  function ProjectUnionField(g: GenRef, fieldAddr: Address -> Address): (r: GenRef)
    ensures r.m == g.m
    ensures AsPtr(r) == ManuallyDropTarget(fieldAddr(AsPtr(g)))
  {
    var field := Map(g, (r: MutRef) => MutRef(fieldAddr(r.addr)),
                        (r: SharedRef) => SharedRef(fieldAddr(r.addr)));
    AsDeref(field, ManuallyDropTarget, ManuallyDropTarget)
  }

  /** `GenStructAsRef::into_shared`: with a proof that the struct's marker is
      `Shared`, a `GenRef` carrying the outer marker to the payload of the
      `shared` field, which lies at `sharedAddr` of the struct's address. */
  function AsRefIntoShared(a: GenStructAsRef, proof: IsShared, sharedAddr: Address -> Address): (r: GenRef)
    requires proof == a.innerM
    ensures r.m == a.genref.m && AsPtr(r) == sharedAddr(AsPtr(a.genref))
  {
    ProjectUnionField(a.genref, sharedAddr)
  }

  /** `GenStructAsRef::into_mut`: with a proof that the struct's marker is
      `Mutable`, a `GenRef` carrying the outer marker to the payload of the
      `mutable` field, which lies at `mutableAddr` of the struct's address. */
  function AsRefIntoMut(a: GenStructAsRef, proof: IsMutable, mutableAddr: Address -> Address): (r: GenRef)
    requires proof == a.innerM
    ensures r.m == a.genref.m && AsPtr(r) == mutableAddr(AsPtr(a.genref))
  {
    ProjectUnionField(a.genref, mutableAddr)
  }
}
