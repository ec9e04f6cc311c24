/**
  A thread's list does reach one block more than twice the cache size, inside a free.
 */
module PoolWitness {
  import opened Pool
  import opened PoolCalls
  import PoolTheorems

  /** An address beyond every slab. */
  function Beyond(c: Config, slabs: seq<Addr>): (m: nat)
    ensures forall b :: b in slabs ==> BlockAt(c, b, c.cap) <= m
  {
    if slabs == [] then 0
    else
      var m := Beyond(c, slabs[1..]);
      assert forall b :: b in slabs ==> b == slabs[0] || b in slabs[1..];
      Max(BlockAt(c, slabs[0], c.cap), m)
  }

  /** The system allocator always has room for another slab. */
  lemma RoomForSlab(c: Config, s: State) returns (base: Addr)
    requires Sized(c)
    ensures FreshSlab(c, s, base)
  {
    hide BlockAt;
    var m := Beyond(c, s.slabs);
    base := AlignedAbove(c.align, m);
  }

  lemma AlignedAbove(a: nat, m: nat) returns (x: nat)
    requires a > 0
    ensures x >= m && x % a == 0
  {
    x := a * m;
    PoolTheorems.ModZero(m, a);
    PoolTheorems.Product(0, a, m);
  }

  /** Thread 0 can always allocate. */
  lemma AllocOne(c: Config, s: State) returns (xs: seq<Act>)
    requires Sized(c) && AtRest(s, 0)
    ensures var r := Run(c, s, xs); AtRest(r, 0) && |r.live| == |s.live| + 1
  {
    hide Run, FreshSlab, SlabBlocks;
    if s.threads[0].local != [] {
      xs := [Alloc(0)];
      RunOne(c, s, Alloc(0));
    } else {
      hide Step;
      var base := RoomForSlab(c, s);
      xs := AllocActs(c, s, 0, base);
      AllocIsARun(c, s, 0, base);
    }
  }

  lemma {:induction false} AllocMany(c: Config, s: State, n: nat) returns (xs: seq<Act>)
    requires Sized(c) && AtRest(s, 0)
    ensures var r := Run(c, s, xs); AtRest(r, 0) && |r.live| == |s.live| + n
  {
    hide Step;
    if n == 0 {
      xs := [];
    } else {
      var ys := AllocMany(c, s, n - 1);
      var zs := AllocOne(c, Run(c, s, ys));
      xs := ys + zs;
      RunAppend(c, s, ys, zs);
    }
  }

  /** Freeing live blocks fills the list until the flush is due. */
  lemma {:induction false} FreeUp(c: Config, s: State) returns (xs: seq<Act>)
    requires Sized(c) && AtRest(s, 0) && |s.threads[0].local| <= 2 * c.cap
    requires |s.live| + |s.threads[0].local| > 2 * c.cap
    ensures var r := Run(c, s, xs); 0 < |r.threads| && |r.threads[0].local| == 2 * c.cap + 1
    decreases 2 * c.cap - |s.threads[0].local|
  {
    hide Run, FreshSlab;
    var b :| b in s.live;
    RunOne(c, s, Free(0, b));
    var r := Step(c, s, Free(0, b));
    assert |r.live| == |s.live| - 1 && r.threads[0].local == s.threads[0].local + [b];
    if |s.threads[0].local| == 2 * c.cap {
      xs := [Free(0, b)];
    } else {
      var ys := FreeUp(c, r);
      xs := [Free(0, b)] + ys;
      RunAppend(c, s, [Free(0, b)], ys);
    }
  }

  /** For every cache size one thread reaches a list of 2*cap + 1 blocks. */
  lemma FullListReached(c: Config)
    requires Sized(c)
    ensures exists xs :: |Run(c, Init(1), xs).threads| > 0 && |Run(c, Init(1), xs).threads[0].local| == 2 * c.cap + 1
  {
    hide Run;
    var ys := AllocMany(c, Init(1), 2 * c.cap + 1);
    var s := Run(c, Init(1), ys);
    PoolTheorems.ListBound(c, 1, ys, 0);
    var zs := FreeUp(c, s);
    RunAppend(c, Init(1), ys, zs);
    assert |Run(c, Init(1), ys + zs).threads[0].local| == 2 * c.cap + 1;
  }
}
