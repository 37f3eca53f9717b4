/** `ErasedMutRef` (src/erased_mut_ref.rs): the same erased pointer as
    `ErasedMutabilityRef`, with the same operations except `as_ptr`. */
module ErasedMut {
  import opened Heap

  datatype ErasedMutRef = ErasedMutRef(ptr: Address)

  /** `new_unchecked`: wraps the pointer as it is; `as_ref` then refers to it. */
  function NewUnchecked(ptr: Address): (e: ErasedMutRef)
    ensures AsRef(e).addr == ptr && IntoMut(e).addr == ptr
  {
    ErasedMutRef(ptr)
  }

  /** `as_ref`: a shared reference to the stored address. */
  function AsRef(e: ErasedMutRef): (r: SharedRef)
    ensures e == ErasedMutRef(r.addr)
  {
    SharedRef(e.ptr)
  }

  /** `as_mut` (unsafe): a unique reference to the same address `as_ref` reads. */
  function AsMut(e: ErasedMutRef): (r: MutRef)
    ensures r.addr == AsRef(e).addr
  {
    MutRef(e.ptr)
  }

  /** `into_ref`: consumes the wrapper into a shared reference to the same address. */
  function IntoRef(e: ErasedMutRef): (r: SharedRef)
    ensures r == AsRef(e)
  {
    SharedRef(e.ptr)
  }

  /** `into_mut` (unsafe): consumes the wrapper into a unique reference to the same address. */
  function IntoMut(e: ErasedMutRef): (r: MutRef)
    ensures r == AsMut(e)
  {
    MutRef(e.ptr)
  }

  /** `From<&mut T>`: wraps the address of the referent. */
  function FromMut(r: MutRef): (e: ErasedMutRef)
    ensures IntoMut(e) == r
  {
    NewUnchecked(r.addr)
  }

  /** `From<&T>`: wraps the address of the referent. */
  function FromShared(r: SharedRef): (e: ErasedMutRef)
    ensures IntoRef(e) == r
  {
    NewUnchecked(r.addr)
  }

  /** A write through the `&mut T` from `as_mut` is seen by a later `as_ref`,
      and no other cell changes. */
  method WriteThroughAsMut<V>(mem: Memory<V>, e: ErasedMutRef, v: V)
    requires mem.Valid() && AsMut(e).addr in mem.writable
    modifies mem
    ensures mem.Valid() && mem.writable == old(mem.writable)
    ensures AsRef(e).addr in mem.cells && mem.Load(AsRef(e).addr) == v
    ensures mem.cells == old(mem.cells)[AsRef(e).addr := v]
  {
    var r := AsMut(e);
    mem.Store(r, v);
  }

  /** A write through the `&mut T` from `into_mut` is seen through the
      reference `into_ref` would give, and no other cell changes. */
  method WriteThroughIntoMut<V>(mem: Memory<V>, e: ErasedMutRef, v: V)
    requires mem.Valid() && IntoMut(e).addr in mem.writable
    modifies mem
    ensures mem.Valid() && mem.writable == old(mem.writable)
    ensures IntoRef(e).addr in mem.cells && mem.Load(IntoRef(e).addr) == v
    ensures mem.cells == old(mem.cells)[IntoRef(e).addr := v]
  {
    var r := IntoMut(e);
    mem.Store(r, v);
  }
}
