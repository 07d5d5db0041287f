/** The pool of blocks orders and levels are allocated from (src/include/runtime/memory_pool.hpp). */
module MemoryPool {
  import opened Types

  /** How many steps round a pool of `n` blocks lead from block `i` to block `j`. */
  function Steps(i: nat, j: nat, n: nat): int {
    if j >= i then j - i else j + n - i
  }

  class MemoryPool<T> {
    const store: array<T>
    const isFree: array<bool>
    var nextFreeIndex: nat

    /** The blocks handed out and not given back. */
    ghost var inUse: set<nat>

    ghost predicate Kept()
      reads this, isFree
    {
      && 0 < store.Length == isFree.Length && store as object != isFree
      && (forall i :: i in inUse ==> 0 <= i < isFree.Length)
      && (forall i :: 0 <= i < isFree.Length ==> (isFree[i] <==> i !in inUse))
    }

    /** The next block to hand out is free. */
    ghost predicate Valid()
      reads this, isFree
    {
      Kept() && nextFreeIndex < isFree.Length && isFree[nextFreeIndex]
    }

    constructor (store: array<T>)
      requires 0 < store.Length
      ensures Valid() && inUse == {} && this.store == store && fresh(isFree)
    {
      this.store := store;
      isFree := new bool[store.Length](_ => true);
      nextFreeIndex, inUse := 0, {};
    }

    /** A block other than `i` is free. */
    ghost predicate FreeBeside(i: nat)
      reads isFree
    {
      exists j :: 0 <= j < isFree.Length && j != i && isFree[j]
    }

    /** Searches on from the block just taken, round the pool; false is the ASSERT that ends the program. */
    method UpdateNextFreeIndex() returns (found: bool)
      requires Kept() && nextFreeIndex < isFree.Length && !isFree[nextFreeIndex]
      modifies this`nextFreeIndex
      ensures nextFreeIndex < isFree.Length
      ensures found <==> FreeBeside(old(nextFreeIndex))
      ensures found ==> isFree[nextFreeIndex]
      ensures found ==> forall j: nat :: j < isFree.Length && isFree[j] ==>
                Steps(old(nextFreeIndex), nextFreeIndex, isFree.Length) <= Steps(old(nextFreeIndex), j, isFree.Length)
    {
      var initial := nextFreeIndex;
      ghost var searched := 0;
      while !isFree[nextFreeIndex]
        invariant nextFreeIndex < isFree.Length && searched < isFree.Length
        invariant nextFreeIndex == (if initial + searched < isFree.Length then initial + searched
                                    else initial + searched - isFree.Length)
        invariant forall j: nat :: j < isFree.Length && isFree[j] ==> searched <= Steps(initial, j, isFree.Length)
        decreases isFree.Length - searched
      {
        nextFreeIndex := nextFreeIndex + 1;
        searched := searched + 1;
        if nextFreeIndex == isFree.Length {
          nextFreeIndex := 0;
        }
        if initial == nextFreeIndex {
          return false;
        }
      }
      found := true;
    }

    /** Hands out the next free block, which is in no one's use. Allocation goes on exactly as long as another block
        is still free: a pool of n blocks hands out n - 1. */
    method Allocate(value: T) returns (ok: bool, index: nat)
      requires Valid()
      modifies this, store, isFree
      ensures index == old(nextFreeIndex) && index !in old(inUse) && inUse == old(inUse) + {index}
      ensures store[..] == old(store[..])[index := value] && Kept()
      ensures ok <==> |inUse| < isFree.Length
      ensures ok ==> Valid()
    {
      index := nextFreeIndex;
      store[index] := value;
      isFree[index] := false;
      inUse := inUse + {index};
      ok := UpdateNextFreeIndex();
      InUseCounts(index);
    }

    method Deallocate(index: nat)
      requires Valid() && index in inUse
      modifies this`inUse, isFree
      ensures Valid() && inUse == old(inUse) - {index}
    {
      isFree[index] := true;
      inUse := inUse - {index};
    }

    /** No block is free beside one in use exactly when all are in use. */
    lemma InUseCounts(index: nat)
      requires Kept() && index in inUse
      ensures FreeBeside(index) <==> |inUse| < isFree.Length
    {
      var all := Upto(isFree.Length);
      if FreeBeside(index) {
        var j :| 0 <= j < isFree.Length && j != index && isFree[j];
        assert inUse < all;
        Smaller(inUse, all);
      } else {
        assert inUse == all;
      }
    }
  }

  lemma Smaller(a: set<nat>, b: set<nat>)
    requires a < b
    ensures |a| < |b|
  {
    assert |b| == |a| + |b - a|;
  }
}
