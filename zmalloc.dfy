/**
 * The allocator, reduced to the set of blocks it currently has handed out.
 * Blocks are Dafny objects; no addresses or sizes are modelled.  An
 * allocation that succeeds is a `new` followed by `Track`; whether a
 * `zmalloc` succeeds is decided by the caller of the model.
 */
module Zmalloc {

  function Min(a: int, b: int): int { if a <= b then a else b }

  class Heap {
    /** The blocks allocated and not yet freed. */
    var live: set<object>

    constructor ()
      ensures live == {}
    {
      live := {};
    }

    /** A successful `zmalloc` handed out the freshly allocated `o`. */
    method Track(o: object)
      requires o !in live
      modifies this
      ensures live == old(live) + {o}
    {
      live := live + {o};
    }

    /** `zfree`. */
    method Zfree(o: object)
      requires o in live
      modifies this
      ensures live == old(live) - {o}
    {
      live := live - {o};
    }

    /**
     * `zrealloc`: a block of `n` elements whose common prefix with `a` is
     * `a`'s, replacing `a`.  Out of memory aborts the process in the
     * allocator itself, so a call that returns has succeeded.
     */
    method Zrealloc<T(0)>(a: array<T>, n: nat) returns (b: array<T>)
      requires a in live
      modifies this
      ensures fresh(b) && b.Length == n
      ensures b[..Min(a.Length, n)] == a[..Min(a.Length, n)]
      ensures live == old(live) - {a} + {b}
    {
      b := new T[n];
      var m := Min(a.Length, n);
      var i := 0;
      while i < m
        modifies b
        invariant 0 <= i <= m
        invariant b[..i] == a[..i]
      {
        b[i] := a[i];
        i := i + 1;
      }
      live := live - {a} + {b};
    }
  }
}
