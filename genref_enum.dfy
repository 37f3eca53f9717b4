/** `GenRefEnum` (src/genref_enum.rs): a runtime-tagged union of `&mut T` and
    `&T`, the escape hatch for code where the marker is not known statically,
    with the always-successful conversion from a `GenRef` and the fallible
    conversion back. */
module GenRefEnums {
  import opened Heap
  import opened Wrappers
  import opened MutabilityMarkers
  import opened GenRefs

  datatype GenRefEnum = MutableRef(mutRef: MutRef) | ImmutableRef(sharedRef: SharedRef)

  /** The error of a failed `try_from`: which variant the target marker wanted. */
  datatype IncorrectMutability = IncorrectMutability(targetMutable: bool)

  /** The address the enum's reference points at. */
  function EnumAddr(e: GenRefEnum): Address
  {
    match e
    case MutableRef(r) => r.addr
    case ImmutableRef(r) => r.addr
  }

  /** `From<GenRef<M, T>>`: `dispatch` wraps the `&mut T` in `Mutable` when `M`
      is `Mutable` and the `&T` in `Immutable` otherwise. */
  function FromGenRef(g: GenRef): (e: GenRefEnum)
    ensures e.MutableRef? <==> g.m == Mutable
    ensures EnumAddr(e) == AsPtr(g)
  {
    Dispatch(g, (r: MutRef) => MutableRef(r), (r: SharedRef) => ImmutableRef(r))
  }

  /** `TryFrom<GenRefEnum>` for `GenRef<M, T>`: succeeds exactly when the
      variant agrees with `M::IS_MUTABLE`, building the `GenRef` with
      `GenRef::new` on the enum's pointer; otherwise reports the target. */
  function TryFrom(m: Mutability, e: GenRefEnum): (r: Result<GenRef, IncorrectMutability>)
    ensures r.Ok? <==> (e.MutableRef? <==> IsMutableFlag(m))
    ensures r.Ok? ==> r.value.m == m && AsPtr(r.value) == EnumAddr(e)
    ensures r.Err? ==> r.error.targetMutable == IsMutableFlag(m)
  {
    match (IsMutableFlag(m), e)
    case (true, MutableRef(r)) => Ok(New(m, r.addr))
    case (false, ImmutableRef(r)) => Ok(New(m, r.addr))
    case (targetMutable, _) => Err(IncorrectMutability(targetMutable))
  }

  /** `From` followed by `TryFrom` at the same marker succeeds and gives back
      the same `GenRef`. */
  lemma FromThenTryFrom(g: GenRef)
    ensures TryFrom(g.m, FromGenRef(g)) == Ok(g)
  {
  }

  /** `TryFrom` followed by `From` gives back the same enum value. */
  lemma TryFromThenFrom(m: Mutability, e: GenRefEnum)
    requires TryFrom(m, e).Ok?
    ensures FromGenRef(TryFrom(m, e).value) == e
  {
  }

  /** Converting to the other marker always fails, naming the target. */
  lemma OtherMarkerRejected(g: GenRef, m: Mutability)
    requires m != g.m
    ensures TryFrom(m, FromGenRef(g)) == Err(IncorrectMutability(m == Mutable))
  {
  }

  /** A `Mutable` variant is refused at the `Shared` marker, although that
      conversion would be sound. */
  lemma MutableIntoSharedRejected(r: MutRef)
    ensures TryFrom(Shared, MutableRef(r)) == Err(IncorrectMutability(false))
  {
  }

  // ---------------------------------------------------------------------
  // Debug and Display of the error

  /** The name of the enum variant for a mutable (`true`) or shared reference. */
  function VariantName(isMutable: bool): string
  {
    if isMutable then "Mutable" else "Immutable"
  }

  /** The short names `Debug` uses. */
  function ShortName(isMutable: bool): string
  {
    if isMutable then "mut" else "immut"
  }

  /** `Debug`: `IncorrectMutability(<found> -> <target>)`, where the found
      kind is the opposite of the target. */
  function DebugText(err: IncorrectMutability): (s: string)
    ensures s == "IncorrectMutability(" + ShortName(!err.targetMutable) + " -> " + ShortName(err.targetMutable) + ")"
  {
    match err.targetMutable
    case true => "IncorrectMutability(immut -> mut)"
    case false => "IncorrectMutability(mut -> immut)"
  }

  /** The message `Display` fills in with the target and the found variant. */
  function DisplayMessage(target: string, source: string): string
  {
    "Failed to convert GenRefEnum<'_, T> into GenRef<'_, " + target + ", T>:\n"
    + "Mutability of target differs from source\n\n"
    + "Expected enum variant GenRefEnum::" + target + "\n"
    + "   Found enum variant GenRefEnum::" + source
  }

  /** `Display`: names the target variant from `target_mutable` and, as the
      found variant, the other one, so the two names always differ. */
  function DisplayText(err: IncorrectMutability): (s: string)
    ensures s == DisplayMessage(VariantName(err.targetMutable), VariantName(!err.targetMutable))
    ensures VariantName(err.targetMutable) != VariantName(!err.targetMutable)
  {
    var target := match err.targetMutable
      case true => "Mutable"
      case false => "Immutable";
    var source := match !err.targetMutable
      case true => "Mutable"
      case false => "Immutable";
    DisplayMessage(target, source)
  }

  /** The error of a failed `try_from` describes the failure truly: the
      message's target is the marker's variant and its found variant is the
      enum's actual variant. */
  lemma ErrorNamesActualVariants(m: Mutability, e: GenRefEnum)
    requires TryFrom(m, e).Err?
    ensures DisplayText(TryFrom(m, e).error) == DisplayMessage(VariantName(m == Mutable), VariantName(e.MutableRef?))
    ensures DebugText(TryFrom(m, e).error) == "IncorrectMutability(" + ShortName(e.MutableRef?) + " -> " + ShortName(m == Mutable) + ")"
  {
  }

  /** Both texts tell the two possible errors apart. */
  lemma TextsDistinguishErrors(a: IncorrectMutability, b: IncorrectMutability)
    ensures DebugText(a) == DebugText(b) ==> a == b
    ensures DisplayText(a) == DisplayText(b) ==> a == b
  {
  }
}
