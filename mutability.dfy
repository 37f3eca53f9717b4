/** The mutability markers and their proof tokens (src/mutability.rs).

    In Rust the markers are two uninhabited types and `M: Mutability` is a
    type parameter; here the marker is a value of a two-constructor datatype,
    so the "sealed" trait becomes a closed sum type. A proof token
    `IsMutable<M>` is modelled as the marker `M` itself, restricted by a
    subset type to the one marker it certifies: a value of type `IsMutable`
    can only exist when it equals `Mutable`. Operations that demand an
    `IsMutable<M>` take such a token and require it to be the very `M` they
    are instantiated at. */
module MutabilityMarkers {

  /** `Shared` (the mutability of `&T`) and `Mutable` (that of `&mut T`). */
  datatype Mutability = Shared | Mutable

  /** `IsMutable<M>`: certifies that `M` is `Mutable`. */
  type IsMutable = m: Mutability | m == Mutable witness Mutable

  /** `IsShared<M>`: certifies that `M` is `Shared`. */
  type IsShared = m: Mutability | m == Shared witness Shared

  /** `MutabilityEnum<M>`: a match over `M` that hands out the proof. */
  datatype MutabilityEnum = MutableCase(isMutable: IsMutable) | SharedCase(isShared: IsShared)

  /** The marker `M` that a `MutabilityEnum<M>` speaks about. */
  function EnumMarker(e: MutabilityEnum): Mutability
  {
    match e
    case MutableCase(p) => p
    case SharedCase(p) => p
  }

  /** The private supertrait `Sealed` is implemented for exactly two types,
      so no third mutability can ever be introduced. */
  lemma Sealed(m: Mutability)
    ensures m == Shared || m == Mutable
  {
  }

  /** `IsMutable::new`, crate-private and unsafe: `M` must be `Mutable`. */
  function NewIsMutable(m: Mutability): (proof: IsMutable)
    requires m == Mutable
    ensures proof == m
  {
    m
  }

  /** `IsShared::new`, crate-private and unsafe: `M` must be `Shared`. */
  function NewIsShared(m: Mutability): (proof: IsShared)
    requires m == Shared
    ensures proof == m
  {
    m
  }

  /** The inherent `Shared::mutability()`: the proof that `Shared` is shared. */
  function SharedProof(): (proof: IsShared)
    ensures proof == Shared
  {
    NewIsShared(Shared)
  }

  /** The inherent `Mutable::mutability()`: the proof that `Mutable` is mutable. */
  function MutableProof(): (proof: IsMutable)
    ensures proof == Mutable
  {
    NewIsMutable(Mutable)
  }

  /** `<M as Mutability>::mutability()`: the `MutabilityEnum` variant that
      matches `M`, wrapping the proof returned by the inherent method. */
  function MutabilityOf(m: Mutability): (e: MutabilityEnum)
    ensures e.MutableCase? <==> m == Mutable
    ensures e.SharedCase? <==> m == Shared
    ensures EnumMarker(e) == m
  {
    match m
    case Shared => SharedCase(SharedProof())
    case Mutable => MutableCase(MutableProof())
  }

  /** `M::IS_MUTABLE`: the static answer to "is `M` the mutable marker". */
  function IsMutableFlag(m: Mutability): (isMutable: bool)
    ensures isMutable <==> MutabilityOf(m).MutableCase?
  {
    m == Mutable
  }

  /** The only value of `MutabilityEnum<Shared>` is `Shared(IsShared)`, and
      the only value of `MutabilityEnum<Mutable>` is `Mutable(IsMutable)`. */
  lemma OnlyEnumValue(e: MutabilityEnum, m: Mutability)
    requires EnumMarker(e) == m
    ensures e == MutabilityOf(m)
  {
  }
}
