/** `ErasedMutabilityRef` (src/erased_mutability_ref.rs): a pointer valid for
    reads whose mutability is not recorded in its type. Reading through it is
    safe; writing through it is `unsafe` and is sound only when the pointer
    came from a unique reference, which here means that its cell is writable. */
module ErasedMutability {
  import opened Heap

  datatype ErasedMutabilityRef = ErasedMutabilityRef(ptr: Address)

  /** `new_unchecked`: wraps the pointer as it is. */
  function NewUnchecked(ptr: Address): (e: ErasedMutabilityRef)
    ensures AsPtr(e) == ptr
  {
    ErasedMutabilityRef(ptr)
  }

  /** `as_ptr`: the stored pointer; the wrapper is only borrowed. */
  function AsPtr(e: ErasedMutabilityRef): (p: Address)
    ensures e == ErasedMutabilityRef(p)
  {
    e.ptr
  }

  /** `new_unchecked` and `as_ptr` are inverse to each other. */
  lemma NewUncheckedAsPtr(e: ErasedMutabilityRef)
    ensures NewUnchecked(AsPtr(e)) == e
  {
  }

  /** `as_ref`: a shared reference to the stored address. */
  function AsRef(e: ErasedMutabilityRef): (r: SharedRef)
    ensures r.addr == AsPtr(e)
  {
    SharedRef(e.ptr)
  }

  /** `as_mut` (unsafe): a unique reference to the stored address. */
  function AsMut(e: ErasedMutabilityRef): (r: MutRef)
    ensures r.addr == AsPtr(e)
  {
    MutRef(e.ptr)
  }

  /** `into_ref`: consumes the wrapper into a shared reference to its address. */
  function IntoRef(e: ErasedMutabilityRef): (r: SharedRef)
    ensures r.addr == AsPtr(e)
  {
    SharedRef(e.ptr)
  }

  /** `into_mut` (unsafe): consumes the wrapper into a unique reference to its address. */
  function IntoMut(e: ErasedMutabilityRef): (r: MutRef)
    ensures r.addr == AsPtr(e)
  {
    MutRef(e.ptr)
  }

  /** `From<&mut T>`: wraps the address of the referent. */
  function FromMut(r: MutRef): (e: ErasedMutabilityRef)
    ensures AsPtr(e) == r.addr
  {
    NewUnchecked(r.addr)
  }

  /** `From<&T>`: wraps the address of the referent. */
  function FromShared(r: SharedRef): (e: ErasedMutabilityRef)
    ensures AsPtr(e) == r.addr
  {
    NewUnchecked(r.addr)
  }

  /** A write through the `&mut T` from `as_mut` is what a later `as_ref` of
      the same wrapper reads, and no other cell changes. The requirement that
      the cell be writable is the caller's obligation for the unsafe call. */
  method WriteThroughAsMut<V>(mem: Memory<V>, e: ErasedMutabilityRef, v: V)
    requires mem.Valid() && AsPtr(e) in mem.writable
    modifies mem
    ensures mem.Valid() && mem.writable == old(mem.writable)
    ensures AsRef(e).addr in mem.cells && mem.Load(AsRef(e).addr) == v
    ensures mem.cells == old(mem.cells)[AsPtr(e) := v]
  {
    var r := AsMut(e);
    mem.Store(r, v);
  }

  /** The same for the reference that `into_mut` hands out: a reader holding
      the shared reference `into_ref` would give sees the write. */
  method WriteThroughIntoMut<V>(mem: Memory<V>, e: ErasedMutabilityRef, v: V)
    requires mem.Valid() && AsPtr(e) in mem.writable
    modifies mem
    ensures mem.Valid() && mem.writable == old(mem.writable)
    ensures IntoRef(e).addr in mem.cells && mem.Load(IntoRef(e).addr) == v
    ensures mem.cells == old(mem.cells)[AsPtr(e) := v]
  {
    var r := IntoMut(e);
    mem.Store(r, v);
  }
}
