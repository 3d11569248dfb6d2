/** The temporary storage quota of internal/bridge/temp_store.go: its counter and its allocations. */
module TempStore {
  import opened Text

  /** What release leaves of the counter; it never goes below zero. */
  function Released(used: int, size: int): int {
    if used - size < 0 then 0 else used - size
  }

  /** What settle leaves of the counter when a charge of size turns out to be actual. */
  function Settled(used: int, size: int, actual: int): int {
    if size - actual > 0 then Released(used, size - actual)
    else if size - actual < 0 then used + (actual - size)
    else used
  }

  class Store {
    const maxBytes: int
    var usedBytes: int

    constructor (maxBytes: int)
      ensures this.maxBytes == maxBytes && usedBytes == 0
    {
      this.maxBytes := maxBytes;
      usedBytes := 0;
    }

    method Release(size: int)
      modifies this
      ensures usedBytes == Released(old(usedBytes), size)
      ensures usedBytes == if old(usedBytes) < size then 0 else old(usedBytes) - size
    {
      usedBytes := usedBytes - size;
      if usedBytes < 0 {
        usedBytes := 0;
      }
    }

    method ReserveExtra(size: int)
      modifies this
      ensures usedBytes == old(usedBytes) + size
    {
      usedBytes := usedBytes + size;
    }

    /** allocate, with made telling whether the directory and the file could be created. */
    method Allocate(size: int, made: bool) returns (allocation: Option<Allocation>)
      modifies this
      ensures allocation.Some? <==> 0 <= size <= maxBytes - old(usedBytes) && made
      ensures allocation.Some? ==> usedBytes == old(usedBytes) + size
      ensures allocation.Some? ==> fresh(allocation.value) && allocation.value.Holds(this, size)
      ensures allocation.None? && old(usedBytes) >= 0 ==> usedBytes == old(usedBytes)
    {
      if size < 0 { return None; }
      if size > maxBytes - usedBytes { return None; }
      usedBytes := usedBytes + size;
      if !made {
        Release(size);
        return None;
      }
      var a := new Allocation(this, size);
      allocation := Some(a);
    }

    /** prepareDownload: the same for an unknown size, charged at the most it may be. */
    method PrepareDownload(reserve: int, made: bool) returns (allocation: Option<Allocation>)
      modifies this
      ensures allocation.Some? <==> 0 < reserve <= maxBytes - old(usedBytes) && made
      ensures allocation.Some? ==> usedBytes == old(usedBytes) + reserve
      ensures allocation.Some? ==> fresh(allocation.value) && allocation.value.Holds(this, reserve)
      ensures allocation.None? && old(usedBytes) >= 0 ==> usedBytes == old(usedBytes)
    {
      if reserve <= 0 { return None; }
      if reserve > maxBytes - usedBytes { return None; }
      usedBytes := usedBytes + reserve;
      if !made {
        Release(reserve);
        return None;
      }
      var a := new Allocation(this, reserve);
      allocation := Some(a);
    }
  }

  class Allocation {
    const store: Store
    var size: int
    var released: bool

    constructor (store: Store, size: int)
      ensures this.store == store && this.size == size && !released
    {
      this.store, this.size, released := store, size, false;
    }

    predicate Holds(store: Store, size: int)
      reads this
    {
      this.store == store && this.size == size && !released
    }

    /** settle: a released allocation has already given its charge back. */
    method Settle(actual: int)
      modifies this, store
      ensures released == old(released)
      ensures released ==> size == old(size) && store.usedBytes == old(store.usedBytes)
      ensures !released ==> size == actual && store.usedBytes == Settled(old(store.usedBytes), old(size), actual)
      ensures !released && old(size) - actual <= old(store.usedBytes) ==>
        store.usedBytes == old(store.usedBytes) - old(size) + actual
    {
      if released { return; }
      var delta := size - actual;
      if delta > 0 {
        store.Release(delta);
      } else if delta < 0 {
        store.ReserveExtra(-delta);
      }
      size := actual;
    }

    /** close: the first call gives the charge back, later ones nothing. */
    method Close()
      requires released ==> size == 0
      modifies this, store
      ensures released && size == 0
      ensures store.usedBytes == if old(released) then old(store.usedBytes) else Released(old(store.usedBytes), old(size))
    {
      if released { return; }
      var charge := size;
      size, released := 0, true;
      store.Release(charge);
    }
  }
}
