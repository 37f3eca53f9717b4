# Generic mutability references, modelled in Dafny

This project models the core of the Rust crate `generic_mutability`. The crate
lets one function body serve both `&T` and `&mut T` callers. It does this with
`GenRef<'s, M, T>`, a reference whose mutability is a type parameter `M`. That
parameter is one of two marker types, `Shared` or `Mutable`. The model covers:

- the two markers and their sealed trait;
- the proof tokens `IsMutable<M>` / `IsShared<M>`, and `MutabilityEnum`;
- the erased pointer wrappers `ErasedMutabilityRef` and `ErasedMutRef`;
- `GenRef` with its conversions, `reborrow`, `dispatch`, `map`, `as_deref`,
  `Deref`/`DerefMut`/`Clone`, and comparisons;
- the runtime-tagged `GenRefEnum` with its fallible downcast and the
  `IncorrectMutability` error texts;
- the structure conversions over trees of references, `()`, pairs, `OneOf`
  and `Untouched`;
- the union-backed `GenStruct` with its drop behaviour.

Memory is a heap of cells (`Heap.Memory`). Every pointer is a positive address
(`NonNull`) into it. A cell is readable when it is in `cells`, and writable
when it is also in `writable`. A `&T` is `SharedRef(addr)` and a `&mut T` is
`MutRef(addr)`. Only a `MutRef` can be passed to `Store`, so the safe
operations of the erased wrappers, which hand out `SharedRef`s, give read
access only. A `GenRef` is the pair
`(m, ptr)`. A marker is a value of the two-constructor datatype `Mutability`.
A proof token is that marker restricted by a subset type to the one value it
certifies. An operation that takes an `IsMutable<M>` takes such a token and
requires it to equal the `GenRef`'s own marker. This is the requirement that
Rust's type checker enforces. Methods that write to the heap (`Store` and the
write-through scenarios) are imperative and state the whole new heap. `GenStruct`
is a class whose union field and lifecycle change in place.

Some names are used by the code but not defined in it. The model gives them
these contracts:

- `GenRef::new(p)` is `from_erased_unchecked` of a freshly wrapped `p`.
- `dispatch` calls its first closure exactly when `M` is `Mutable`.
- `M::IS_MUTABLE` is `M == Mutable`.
- `switch_shared_mut!` picks its shared operand under `Shared`. This mirrors
  `switch_mut_shared!` in src/macros.rs.
- `map_deref` is `as_deref`.
- `field!` projects a `GenRef` to a struct onto a field, at the field's address and the same marker.

## Model

| member | source | states |
|---|---|---|
| MutabilityMarkers.Sealed | src/mutability.rs:3-9 | every mutability is `Shared` or `Mutable`; no third exists |
| MutabilityMarkers.NewIsMutable | src/mutability.rs:92-97 | an `IsMutable` can only be made when the marker is `Mutable`, and it certifies that marker |
| MutabilityMarkers.NewIsShared | src/mutability.rs:107-112 | an `IsShared` can only be made when the marker is `Shared`, and it certifies that marker |
| MutabilityMarkers.SharedProof | src/mutability.rs:44-54 | the inherent `Shared::mutability()` is the proof that `Shared` is shared |
| MutabilityMarkers.MutableProof | src/mutability.rs:72-82 | the inherent `Mutable::mutability()` is the proof that `Mutable` is mutable |
| MutabilityMarkers.MutabilityOf | src/mutability.rs:35-71 | `mutability()` returns the `Mutable` variant exactly for `Mutable` and the `Shared` variant exactly for `Shared`; the proof it wraps is about the same marker |
| MutabilityMarkers.IsMutableFlag | src/genref_enum.rs:85 | `IS_MUTABLE` is true exactly when `mutability()` yields the `Mutable` variant |
| MutabilityMarkers.OnlyEnumValue | src/mutability.rs:114-128 | the only `MutabilityEnum<Shared>` is `Shared(proof)` and the only `MutabilityEnum<Mutable>` is `Mutable(proof)` |
| ErasedMutability.NewUnchecked | src/erased_mutability_ref.rs:14-19 | the pointer is stored unchanged: `as_ptr` returns it |
| ErasedMutability.AsPtr | src/erased_mutability_ref.rs:20-22 | returns the stored pointer: the wrapper is exactly that pointer |
| ErasedMutability.NewUncheckedAsPtr | src/erased_mutability_ref.rs:14-22 | re-wrapping the pointer that `as_ptr` returns gives the same wrapper |
| ErasedMutability.AsRef | src/erased_mutability_ref.rs:23-27 | `as_ref` refers to the stored address |
| ErasedMutability.AsMut | src/erased_mutability_ref.rs:28-32 | `as_mut` refers to the stored address |
| ErasedMutability.IntoRef | src/erased_mutability_ref.rs:33-37 | `into_ref` refers to the stored address |
| ErasedMutability.IntoMut | src/erased_mutability_ref.rs:38-42 | `into_mut` refers to the stored address |
| ErasedMutability.FromMut | src/erased_mutability_ref.rs:45-51 | `From<&mut T>` wraps the referent's address |
| ErasedMutability.FromShared | src/erased_mutability_ref.rs:52-58 | `From<&T>` wraps the referent's address |
| ErasedMutability.WriteThroughAsMut | src/erased_mutability_ref.rs:28-32 | a write through `as_mut` (allowed only on a writable cell) is read by a later `as_ref`; the new heap is the old one with exactly that cell set |
| ErasedMutability.WriteThroughIntoMut | src/erased_mutability_ref.rs:38-42 | a write through `into_mut` is read through `into_ref`'s reference; the new heap is the old one with exactly that cell set |
| ErasedMut.NewUnchecked | src/erased_mut_ref.rs:11-16 | the pointer is stored unchanged: `as_ref` and `into_mut` refer to it |
| ErasedMut.AsRef | src/erased_mut_ref.rs:17-21 | a shared reference to the stored pointer: the wrapper is exactly that address |
| ErasedMut.AsMut | src/erased_mut_ref.rs:22-26 | `as_mut` refers to the address `as_ref` reads |
| ErasedMut.IntoRef | src/erased_mut_ref.rs:27-31 | `into_ref` gives the same reference as `as_ref` |
| ErasedMut.IntoMut | src/erased_mut_ref.rs:32-36 | `into_mut` gives the same reference as `as_mut` |
| ErasedMut.FromMut | src/erased_mut_ref.rs:39-45 | `From<&mut T>` then `into_mut` gives back the same reference |
| ErasedMut.FromShared | src/erased_mut_ref.rs:46-52 | `From<&T>` then `into_ref` gives back the same reference |
| ErasedMut.WriteThroughAsMut | src/erased_mut_ref.rs:22-26 | a write through `as_mut` is read by a later `as_ref`; the new heap is the old one with exactly that cell set |
| ErasedMut.WriteThroughIntoMut | src/erased_mut_ref.rs:32-36 | a write through `into_mut` is read through `into_ref`'s reference; the new heap is the old one with exactly that cell set |
| GenRefs.FromErasedUnchecked | src/genref.rs:96-102 | the `GenRef` carries the requested marker and the erased pointer |
| GenRefs.IntoErased | src/genref.rs:103-107 | erasing keeps the pointer |
| GenRefs.ErasedRoundTrip | src/genref.rs:96-107 | erasing, then re-taking at the same marker, gives back the same `GenRef` |
| GenRefs.AsPtr | src/genref.rs:115-117 | returns the stored pointer: a `GenRef` is exactly its marker plus that pointer |
| GenRefs.New | src/genref_enum.rs:91 | `GenRef::new(p)` at marker `m` is `(m, p)` |
| GenRefs.GenFromMutDowngrading | src/genref.rs:123-129 | works at any marker without proof; keeps the address |
| GenRefs.GenIntoSharedDowngrading | src/genref.rs:135-137 | works at any marker without proof; keeps the address |
| GenRefs.DowngradingAgrees | src/genref.rs:119-137 | the downgrading conversions coincide with `gen_from_mut` at `Mutable` and `gen_into_shared` at `Shared`; a downgraded `&mut T` read back as `&T` is the same address |
| GenRefs.GenIntoMut | src/genref.rs:146-152 | needs an `IsMutable` for the `GenRef`'s own marker; returns the `&mut T` to its address |
| GenRefs.GenFromMut | src/genref.rs:160-165 | with an `IsMutable<M>`, the result is at `M` (necessarily `Mutable`) and points at the referent |
| GenRefs.GenIntoShared | src/genref.rs:176-178 | needs an `IsShared` for the `GenRef`'s own marker; returns the `&T` to its address |
| GenRefs.GenFromShared | src/genref.rs:184-189 | with an `IsShared<M>`, the result is at `M` (necessarily `Shared`) and points at the referent |
| GenRefs.MutRoundTrips | src/genref.rs:146-165 | `gen_from_mut`/`gen_into_mut` round-trip in both directions |
| GenRefs.SharedRoundTrips | src/genref.rs:176-189 | `gen_from_shared`/`gen_into_shared` round-trip in both directions |
| GenRefs.WriteAfterMutRoundTrip | src/genref.rs:146-165 | a write through the `&mut T` that the round trip returns lands in the original referent's cell and in no other |
| GenRefs.IntoShared | src/genref.rs:245-247 | `into_shared` on a `Shared` `GenRef` needs no proof and keeps the address |
| GenRefs.IntoMut | src/genref.rs:255-257 | `into_mut` on a `Mutable` `GenRef` needs no proof and keeps the address |
| GenRefs.FromShared | src/genref.rs:265-268 | `From<&T>` gives a `Shared` `GenRef` whose `into_shared` is the same reference |
| GenRefs.FromMut | src/genref.rs:275-278 | `From<&mut T>` gives a `Mutable` `GenRef` whose `into_mut` is the same reference |
| GenRefs.Reborrow | src/genref.rs:195-202 | same pointer, same marker |
| GenRefs.Dispatch | src/genref_enum.rs:19-22 | the `&mut T` goes to the first closure exactly at `Mutable`; the `&T` goes to the second exactly at `Shared` |
| GenRefs.Map | src/genref.rs:210-228 | the result keeps the marker and points where `f_mut`'s result points at `Mutable`, or where `f_shared`'s result points at `Shared` |
| GenRefs.MapUsesOneClosure | src/genref.rs:217-227 | at `Mutable` the result does not depend on `f_shared`; at `Shared` it does not depend on `f_mut` |
| GenRefs.MapIdentityAndComposition | src/genref.rs:210-228 | mapping with identities is the identity; mapping twice is mapping once with the composed closures |
| GenRefs.AsDeref | src/genref.rs:232-236 | same marker; points at the pointee's `deref_mut` target at `Mutable` and its `deref` target at `Shared` |
| GenRefs.Deref | src/genref.rs:282-289 | at any marker, a shared view of the stored address |
| GenRefs.DerefMut | src/genref.rs:294-298 | only for `Mutable`: a `&mut T` to the stored address |
| GenRefs.Clone | src/genref.rs:301-308 | only for `Shared`: the copy is the same reference |
| GenRefs.ReadTransparency | src/genref.rs:282-289 | reading through a `GenRef` made from a native reference, at any marker, reads what the native reference reads |
| GenRefs.AssignThroughDerefMut | src/genref.rs:294-298 | a write through `deref_mut` is read by the next `deref`; the new heap is the old one with exactly the `GenRef`'s cell set |
| GenRefs.WriteThenDowngrade | src/genref.rs:131-137 | after a write, the downgraded shared reference points at the `GenRef`'s cell and reads the written value; no other cell changes |
| GenRefs.Eq | src/genref.rs:388-394 | the pointees' own `eq` applied to the two loaded values, whatever the markers |
| GenRefs.PartialCmp | src/genref.rs:400-406 | the pointees' `partial_cmp` |
| GenRefs.Cmp | src/genref.rs:408-414 | the pointees' `cmp`, for two `GenRef`s of one marker |
| GenRefs.ComparisonsSeeOnlyPointees | src/genref.rs:388-414 | markers and addresses do not affect `eq`, `partial_cmp` or `cmp`; only the pointed-to values do |
| GenRefEnums.FromGenRef | src/genref_enum.rs:17-24 | the `Mutable` variant exactly when `M` is `Mutable`, otherwise `Immutable`; same address |
| GenRefEnums.TryFrom | src/genref_enum.rs:82-106 | `Ok` exactly when the variant matches `IS_MUTABLE`; the `GenRef` is at `M` on the enum's address; on failure `target_mutable` is `IS_MUTABLE` |
| GenRefEnums.FromThenTryFrom | src/genref_enum.rs:17-101 | `From` then `TryFrom` at the same marker succeeds with the original `GenRef` |
| GenRefEnums.TryFromThenFrom | src/genref_enum.rs:85-101 | a successful `TryFrom` then `From` gives back the enum value |
| GenRefEnums.OtherMarkerRejected | src/genref_enum.rs:102-104 | `TryFrom` at the other marker always fails, naming the target |
| GenRefEnums.MutableIntoSharedRejected | src/genref_enum.rs:80-104 | the `Mutable` variant is refused at `Shared`, although that conversion would be sound |
| GenRefEnums.DebugText | src/genref_enum.rs:40-47 | `IncorrectMutability(<found> -> <target>)`, where found is the opposite of the target |
| GenRefEnums.DisplayText | src/genref_enum.rs:49-66 | the message names the target variant from `target_mutable` and, as found, the other variant, so the two always differ |
| GenRefEnums.ErrorNamesActualVariants | src/genref_enum.rs:49-66 | for a failed `try_from`, `Display` names the marker's variant as target and the enum's actual variant as found; `Debug` does the same |
| GenRefEnums.TextsDistinguishErrors | src/genref_enum.rs:40-66 | `Debug` and `Display` each give different texts for the two errors |
| Structures.MapLeaves | src/primitives.rs:113-176 | a conversion preserves the tree's shape (pairs, `OneOf` variants, units, `Untouched`) |
| Structures.MapLeavesLeaves | src/primitives.rs:128-166 | the converted leaves are the original leaves, each converted, in the same order |
| Structures.MapLeavesUntouched | src/primitives.rs:168-174 | `Untouched` data comes out unchanged, even if it holds references |
| Structures.MapLeavesFusion | src/primitives.rs:9-13 | converting twice is converting once with the composed leaf conversion |
| Structures.DeterminedByShapeLeavesData | src/primitives.rs:15-21 | a structure is determined by its shape, its leaves and its untouched data |
| Structures.MutIntoNonNull | src/primitives.rs:113-182 | each `&mut T` leaf becomes its referent's pointer; shape and untouched data are kept |
| Structures.ImmutIntoNonNull | src/primitives.rs:113-183 | each `&T` leaf becomes its referent's pointer; shape and untouched data are kept |
| Structures.NonNullIntoGenRef | src/primitives.rs:190-246 | each pointer leaf becomes a `GenRef` to it at the one requested marker; shape and untouched data are kept |
| Structures.MutPipeline | src/primitives.rs:28-47 | reference-structure → `NonNull` → `GenRef` replaces each `&mut T` leaf with `GenRef::new(m, addr)` and nothing else |
| Structures.ImmutPipeline | src/primitives.rs:49-59 | the same for a structure of `&T` leaves |
| GenStructs.GenStruct.FromShared | src/gen_struct.rs:76-83 | needs `IsShared<M>`; the active field is `shared`, holding the value |
| GenStructs.GenStruct.FromMut | src/gen_struct.rs:84-91 | needs `IsMutable<M>`; the active field is `mutable`, holding the value |
| GenStructs.GenStruct.IntoShared | src/gen_struct.rs:37-44 | moves the `shared` payload out; the struct is marked moved-out, so it can no longer be dropped |
| GenStructs.GenStruct.IntoMut | src/gen_struct.rs:45-52 | moves the `mutable` payload out; the struct is marked moved-out, so it can no longer be dropped |
| GenStructs.GenStruct.Drop | src/gen_struct.rs:15-23 | destroys exactly the active field: `shared` under `Shared`, `mutable` under `Mutable`; only a live value can be dropped |
| GenStructs.SharedRoundTrip | src/gen_struct.rs:37-44 | `from_shared` then `into_shared` returns the value put in |
| GenStructs.MutRoundTrip | src/gen_struct.rs:45-52 | `from_mut` then `into_mut` returns the value put in |
| GenStructs.AsRef | src/gen_struct.rs:26-30 | wraps the `GenRef` unchanged |
| GenStructs.ProjectUnionField | src/gen_struct.rs:64-71 | a field projection then `map_deref` keeps the outer marker and lands on the union field's payload, at the field's address inside the struct (`ManuallyDrop` adds no offset) |
| GenStructs.AsRefIntoShared | src/gen_struct.rs:63-67 | needs `IsShared` for the struct's own marker; gives a `GenRef` at the outer marker to the `shared` payload, wherever that field lies in the struct |
| GenStructs.AsRefIntoMut | src/gen_struct.rs:68-72 | needs `IsMutable` for the struct's own marker; gives a `GenRef` at the outer marker to the `mutable` payload, wherever that field lies in the struct |

## Left out

- Lifetimes and the borrow checker. This covers the `'s` parameters, `PhantomData` variance, and the negative tests in src/compile_fail_tests.rs. These are compile-time guarantees. So the model does not rule out two live `Mutable` `GenRef`s to one cell, or use after `reborrow`'s borrow ends. `as_ref` and `into_ref` (and `as_mut` and `into_mut`) differ only in lifetime, so they coincide here.
- The pointee type. All pointers index one `Memory<V>`. `map` and `as_deref` change the address, not the value type. Alignment, provenance and unsized `T` are not modelled.
- `Send`/`Sync` (src/genref.rs:328-337). These are thread-safety markers.
- Pass-through trait impls. This covers `fmt` (including `fmt::Pointer`), `Hash`, `Borrow`/`BorrowMut`, `ToSocketAddrs`, `fmt::Write`, the iterator traits, `io::Read`/`Write`/`Seek`/`BufRead` (src/genref.rs:310-386, 416-524) and src/genref/impl_traits.rs. They delegate to the pointee's own impls, which the crate does not define. Comparison with native references (src/genref.rs:362-385) is left out too. It behaves like `GenRefs.Eq` with a native reference on one side.
- The macros `gen_mut!` and `switch_mut_shared!` (src/macros.rs) and `gen_ref!` (src/genref_macro.rs). `field!` is used by src/gen_struct.rs but defined in no source file; it gets the contract given above. The macros appear here only through their uses (`Drop`'s branch, the union-field projection). `split` and `map_with_move` are defined in no source file, so the model has no `split`.
- src/genref/genref_methods.rs. It only forwards to `GenRef`. Its `map` (line 90) passes `(f_shared, f_mut)` to a function that takes `(f_mut, f_shared)`. It also calls a `map_deref` that src/genref.rs does not define. It belongs to another iteration of the design.
- src/conv_traits.rs, src/lib.rs and tests/test.rs. The first two are trait signatures and module wiring. The tests use a type, `MaybeMut`, that no source file defines.
- GenRefs.Map: the closures are pure functions on references. A closure's own writes are not modelled. "Exactly one closure runs" is stated as: the result does not depend on the other closure.
- GenRefs.Dispatch: the same abstraction as `map`. It is given the contract "the first closure exactly at `Mutable`", since the code never defines it.
- Structures.Structure: one type parameter `X` stands for the data of every `Untouched` node. In Rust, one structure may hold `Untouched` nodes of different types; here `X` is the union of those types. No conversion looks at that data, so no behaviour is lost.
- GenStructs.GenStruct.Drop: Rust runs `drop` implicitly at the end of scope. Here it is an explicit call, allowed only while the value is live.
- GenStructs.ProjectUnionField: neither `GenStruct` nor `GenStructInner` has a fixed representation, so the offset of a union field inside the struct is a parameter, not a known value. Only `ManuallyDrop`, which is `#[repr(transparent)]`, is taken to add no offset. The model does not link a `GenStruct` object to a heap cell.
- The `Display` text calls the target `GenRef<'_, Immutable, T>`, but the shared marker type is named `Shared`. The model reproduces the text as written.
