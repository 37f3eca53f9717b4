/** The memory that references point into.

    Every pointer of the crate (`NonNull<T>`, `&T`, `&mut T`, the pointer
    inside `GenRef`) is modelled as an address into one `Memory`. A cell is
    valid for reads when its address is in `cells`, and valid for writes when
    it is also in `writable`. A shared reference gives only `Load`; only a
    mutable reference can be passed to `Store`. */
module Heap {

  /** `NonNull<T>`: a pointer that is never null. */
  type Address = p: int | p > 0 witness 1

  /** A native shared reference `&'s T`. */
  datatype SharedRef = SharedRef(addr: Address)

  /** A native unique reference `&'s mut T`. */
  datatype MutRef = MutRef(addr: Address)

  class Memory<V> {
    var cells: map<Address, V>
    var writable: set<Address>

    ghost predicate Valid()
      reads this
    {
      writable <= cells.Keys
    }

    constructor (cells: map<Address, V>, writable: set<Address>)
      requires writable <= cells.Keys
      ensures Valid()
      ensures this.cells == cells && this.writable == writable
    {
      this.cells := cells;
      this.writable := writable;
    }

    /** Reading `*r` through any reference to a readable cell. */
    function Load(addr: Address): V
      reads this
      requires addr in cells
    {
      cells[addr]
    }

    /** `*r = v` through a `&mut T`: only that cell changes. */
    method Store(r: MutRef, v: V)
      requires Valid() && r.addr in writable
      modifies this
      ensures Valid()
      ensures cells == old(cells)[r.addr := v]
      ensures writable == old(writable)
    {
      cells := cells[r.addr := v];
    }
  }
}
