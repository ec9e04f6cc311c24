/**
  The pool's calls as the program runs them: refill and flush with their loops over the shared
  list, and the thread-local __alloc and __free. Each method is proved against a function of the
  two lists, and an uninterrupted call is shown to be a run of the interleaved steps.
 */
module PoolCalls {
  import opened Pool

  // ----- what the loops compute

  /** refill's loop: move blocks off the shared list's end until the list has `cap` of them. */
  function Fill(c: Config, local: seq<Addr>, free: seq<Addr>): (seq<Addr>, seq<Addr>)
    decreases |free|
  {
    if |local| < c.cap && free != [] then Fill(c, local + [Last(free)], Front(free)) else (local, free)
  }

  /** flush's loop: move blocks off the list's end until it has `cap` left. */
  function Drain(c: Config, local: seq<Addr>, free: seq<Addr>): (seq<Addr>, seq<Addr>)
    decreases |local|
  {
    if |local| > c.cap then Drain(c, Front(local), free + [Last(local)]) else (local, free)
  }

  /** The list refill leaves: from the shared list, or a new slab if that gave nothing. */
  function Refilled(c: Config, local: seq<Addr>, free: seq<Addr>, base: Addr): seq<Addr> {
    var l := Fill(c, local, free).0;
    if l == [] then SlabBlocks(c, base, c.cap) else l
  }

  /** How many blocks refill takes from the shared list. */
  function Short(c: Config, local: seq<Addr>, free: seq<Addr>): nat {
    if |local| >= c.cap then 0 else if c.cap - |local| <= |free| then c.cap - |local| else |free|
  }

  function Reversed(q: seq<Addr>): (r: seq<Addr>)
    ensures |r| == |q|
  {
    if q == [] then [] else [Last(q)] + Reversed(Front(q))
  }

  /** refill takes the newest shared blocks, newest first, up to the cache size. */
  lemma {:induction false} FillTakesNewest(c: Config, local: seq<Addr>, free: seq<Addr>)
    ensures var k := |free| - Short(c, local, free);
            Fill(c, local, free) == (local + Reversed(free[k..]), free[..k])
    decreases |free|
  {
    var n := Short(c, local, free);
    var k := |free| - n;
    if n > 0 {
      var l := local + [Last(free)];
      FillTakesNewest(c, l, Front(free));
      assert Short(c, l, Front(free)) == n - 1;
      assert Front(free)[..k] == free[..k] && Front(free[k..]) == Front(free)[k..] && Last(free[k..]) == Last(free);
      assert l + Reversed(Front(free)[k..]) == local + ([Last(free)] + Reversed(Front(free[k..])));
    } else {
      assert free[..k] == free && local + Reversed(free[k..]) == local;
    }
  }

  /** flush gives up the newest blocks beyond the cache size, newest first. */
  lemma {:induction false} DrainKeepsOldest(c: Config, local: seq<Addr>, free: seq<Addr>)
    requires |local| > c.cap
    ensures Drain(c, local, free) == (local[..c.cap], free + Reversed(local[c.cap..]))
    decreases |local|
  {
    var f := free + [Last(local)];
    var l := Front(local);
    assert Last(local[c.cap..]) == Last(local) && Front(local[c.cap..]) == l[c.cap..] && l[..c.cap] == local[..c.cap];
    assert f + Reversed(l[c.cap..]) == free + ([Last(local)] + Reversed(l[c.cap..]));
    if |l| > c.cap {
      DrainKeepsOldest(c, l, f);
    } else {
      assert l == local[..c.cap] && l[c.cap..] == [];
      assert f == free + Reversed(local[c.cap..]);
    }
  }

  // ----- the objects

  class Shared {
    const c: Config
    var free: seq<Addr>

    constructor (c: Config)
      ensures this.c == c && free == []
    {
      this.c := c;
      free := [];
    }

    /** `base` is where the system allocator puts a slab, should one be needed. */
    method Refill(local: seq<Addr>, base: Addr) returns (l: seq<Addr>)
      modifies this`free
      ensures l == Refilled(c, local, old(free), base)
      ensures free == Fill(c, local, old(free)).1
    {
      l := local;
      while |l| < c.cap && free != []
        invariant Fill(c, l, free) == Fill(c, local, old(free))
        decreases |free|
      {
        l := l + [Last(free)];
        free := Front(free);
      }
      if l == [] {
        for i := 0 to c.cap
          invariant l == SlabBlocks(c, base, i)
        {
          l := l + [BlockAt(c, base, i)];
        }
      }
    }

    method Flush(local: seq<Addr>) returns (l: seq<Addr>)
      modifies this`free
      ensures (l, free) == Drain(c, local, old(free))
    {
      l := local;
      while |l| > c.cap
        invariant Drain(c, l, free) == Drain(c, local, old(free))
        decreases |l|
      {
        free := free + [Last(l)];
        l := Front(l);
      }
    }
  }

  /** A thread's own list. */
  class Cache {
    var local: seq<Addr>

    constructor ()
      ensures local == []
    {
      local := [];
    }

    method Alloc(shared: Shared, base: Addr) returns (p: Addr)
      requires shared.c.cap > 0
      modifies this`local, shared`free
      ensures var l := if old(local) != [] then old(local) else Refilled(shared.c, [], old(shared.free), base);
              l != [] && p == Last(l) && local == Front(l)
      ensures shared.free == if old(local) != [] then old(shared.free) else Fill(shared.c, [], old(shared.free)).1
    {
      if local == [] {
        var l := shared.Refill(local, base);
        local := l;
      }
      p := Last(local);
      local := Front(local);
    }

    method Free(shared: Shared, p: Addr)
      modifies this`local, shared`free
      ensures (local, shared.free) ==
              if |old(local)| + 1 > 2 * shared.c.cap then Drain(shared.c, old(local) + [p], old(shared.free))
              else (old(local) + [p], old(shared.free))
    {
      local := local + [p];
      if |local| > 2 * shared.c.cap {
        var l := shared.Flush(local);
        local := l;
      }
    }
  }

  // ----- an uninterrupted call is a run of the steps

  lemma {:induction false} RunAppend(c: Config, s: State, xs: seq<Act>, ys: seq<Act>)
    requires Sized(c)
    ensures Run(c, s, xs + ys) == Run(c, Run(c, s, xs), ys)
  {
    hide Step;
    if ys == [] {
      assert xs + ys == xs;
    } else {
      var n := |ys| - 1;
      RunAppend(c, s, xs, ys[..n]);
      assert (xs + ys)[..|xs + ys| - 1] == xs + ys[..n];
    }
  }

  lemma RunOne(c: Config, s: State, x: Act)
    requires Sized(c)
    ensures Run(c, s, [x]) == Step(c, s, x)
  {
    hide Step;
    assert [x][..0] == [];
    assert Run(c, s, []) == s;
  }

  /** The turns of refill's loop. */
  function Takes(t: nat, n: nat): seq<Act> { seq(n, _ => Take(t)) }

  lemma {:induction false} TakesFill(c: Config, s: State, t: nat)
    requires Sized(c) && t < |s.threads| && s.threads[t].pc == Refilling
    ensures var l := s.threads[t].local; var (l1, f1) := Fill(c, l, s.shared);
            Run(c, s, Takes(t, Short(c, l, s.shared))) == Put(s, t, l1, Refilling).(shared := f1)
    decreases |s.shared|
  {
    hide Step, Apply, Enabled;
    var l := s.threads[t].local;
    var n := Short(c, l, s.shared);
    if n == 0 {
      assert Takes(t, 0) == [];
      assert s.threads[t := Thread(l, Refilling)] == s.threads;
    } else {
      var s1 := Put(s, t, l + [Last(s.shared)], Refilling).(shared := Front(s.shared));
      TakeStep(c, s, t);
      TakesFill(c, s1, t);
      assert Takes(t, n) == [Take(t)] + Takes(t, n - 1);
      RunAppend(c, s, [Take(t)], Takes(t, n - 1));
      RunOne(c, s, Take(t));
      PutPut(s, t, l + [Last(s.shared)], Refilling, Fill(c, l, s.shared).0, Refilling);
    }
  }

  lemma TakeStep(c: Config, s: State, t: nat)
    requires Sized(c) && t < |s.threads| && s.threads[t].pc == Refilling
    requires |s.threads[t].local| < c.cap && s.shared != []
    ensures Step(c, s, Take(t)) ==
            Put(s, t, s.threads[t].local + [Last(s.shared)], Refilling).(shared := Front(s.shared))
  {}

  lemma PutPut(s: State, t: nat, l: seq<Addr>, p: Pc, k: seq<Addr>, q: Pc)
    requires t < |s.threads|
    ensures Put(Put(s, t, l, p), t, k, q) == Put(s, t, k, q)
  {
    assert s.threads[t := Thread(l, p)][t := Thread(k, q)] == s.threads[t := Thread(k, q)];
  }

  /** The turns of flush's loop. */
  function Gives(t: nat, n: nat): seq<Act> { seq(n, _ => Give(t)) }

  function Excess(c: Config, local: seq<Addr>): nat { if |local| > c.cap then |local| - c.cap else 0 }

  lemma GiveStep(c: Config, s: State, t: nat)
    requires Sized(c) && t < |s.threads| && s.threads[t].pc == Flushing && |s.threads[t].local| > c.cap
    ensures var l := s.threads[t].local;
            Step(c, s, Give(t)) == Put(s, t, Front(l), Flushing).(shared := s.shared + [Last(l)])
  {}

  lemma {:induction false} GivesDrain(c: Config, s: State, t: nat)
    requires Sized(c) && t < |s.threads| && s.threads[t].pc == Flushing
    ensures var l := s.threads[t].local; var (l1, f1) := Drain(c, l, s.shared);
            Run(c, s, Gives(t, Excess(c, l))) == Put(s, t, l1, Flushing).(shared := f1)
    decreases |s.threads[t].local|
  {
    hide Step, Apply, Enabled;
    var l := s.threads[t].local;
    var n := Excess(c, l);
    if n == 0 {
      assert Gives(t, 0) == [];
      assert s.threads[t := Thread(l, Flushing)] == s.threads;
    } else {
      var s1 := Put(s, t, Front(l), Flushing).(shared := s.shared + [Last(l)]);
      GiveStep(c, s, t);
      GivesDrain(c, s1, t);
      assert Gives(t, n) == [Give(t)] + Gives(t, n - 1);
      RunAppend(c, s, [Give(t)], Gives(t, n - 1));
      RunOne(c, s, Give(t));
      PutPut(s, t, Front(l), Flushing, Drain(c, l, s.shared).0, Flushing);
    }
  }

  /** Thread `t` may start a call that nobody interrupts. */
  predicate AtRest(s: State, t: nat) { t < |s.threads| && s.threads[t].pc == Idle && !s.locked }

  /** The state with the mutex released by `t` and `t`'s list and the shared list replaced. */
  function With(s: State, t: nat, local: seq<Addr>, pc: Pc, free: seq<Addr>, locked: bool): State
    requires t < |s.threads|
  {
    s.(threads := s.threads[t := Thread(local, pc)], shared := free, lock := t, locked := locked)
  }

  lemma RefillOpening(c: Config, s: State, t: nat)
    requires Sized(c) && AtRest(s, t) && s.threads[t].local == []
    ensures Run(c, s, [Alloc(t), Lock(t)]) == With(s, t, [], Refilling, s.shared, true)
  {
    hide Run, FreshSlab;
    assert [Alloc(t), Lock(t)] == [Alloc(t)] + [Lock(t)];
    RunAppend(c, s, [Alloc(t)], [Lock(t)]);
    RunOne(c, s, Alloc(t));
    var s1 := Put(s, t, [], WantRefill);
    assert Step(c, s, Alloc(t)) == s1;
    RunOne(c, s1, Lock(t));
    PutPut(s, t, [], WantRefill, [], Refilling);
  }

  lemma RefillRun(c: Config, s: State, t: nat)
    requires Sized(c) && t < |s.threads| && s.threads[t] == Thread([], Refilling)
    ensures var (l, f) := Fill(c, [], s.shared);
            Run(c, s, Takes(t, Short(c, [], s.shared)) + [Taken(t)]) ==
            s.(threads := s.threads[t := Thread(l, if l == [] then Carving else Popping)], shared := f, locked := false)
  {
    hide Run, FreshSlab, Takes;
    var k := Short(c, [], s.shared);
    RunAppend(c, s, Takes(t, k), [Taken(t)]);
    TakesFill(c, s, t);
    FillTakesNewest(c, [], s.shared);
    var (l, f) := Fill(c, [], s.shared);
    var s1 := Put(s, t, l, Refilling).(shared := f);
    RunOne(c, s1, Taken(t));
    PutPut(s, t, l, Refilling, l, if l == [] then Carving else Popping);
  }

  /** The steps of one __alloc whose list is empty. */
  function AllocActs(c: Config, s: State, t: nat, base: Addr): seq<Act> {
    [Alloc(t), Lock(t)] + (Takes(t, Short(c, [], s.shared)) + [Taken(t)])
      + (if Fill(c, [], s.shared).0 == [] then [Carve(t, base), Pop(t)] else [Pop(t)])
  }

  lemma AllocEnding(c: Config, s: State, t: nat, base: Addr)
    requires Sized(c) && t < |s.threads|
    requires s.threads[t].pc == if s.threads[t].local == [] then Carving else Popping
    requires s.threads[t].local == [] ==> FreshSlab(c, s, base)
    ensures var l := if s.threads[t].local == [] then SlabBlocks(c, base, c.cap) else s.threads[t].local;
            var r := Run(c, s, if s.threads[t].local == [] then [Carve(t, base), Pop(t)] else [Pop(t)]);
            && l != [] && r.threads == s.threads[t := Thread(Front(l), Idle)]
            && r.shared == s.shared && r.live == s.live + multiset{Last(l)} && r.locked == s.locked
  {
    hide Run, FreshSlab, SlabBlocks;
    if s.threads[t].local == [] {
      assert [Carve(t, base), Pop(t)] == [Carve(t, base)] + [Pop(t)];
      RunAppend(c, s, [Carve(t, base)], [Pop(t)]);
      RunOne(c, s, Carve(t, base));
      var s1 := Step(c, s, Carve(t, base));
      var l := SlabBlocks(c, base, c.cap);
      assert [] + l == l && s1.threads == s.threads[t := Thread(l, Popping)];
      RunOne(c, s1, Pop(t));
      PutPut(s, t, l, Popping, Front(l), Idle);
    } else {
      RunOne(c, s, Pop(t));
    }
  }

  /** An uninterrupted __alloc on an empty list is a run of the steps that ends as Cache.Alloc does. */
  lemma AllocIsARun(c: Config, s: State, t: nat, base: Addr)
    requires Sized(c) && AtRest(s, t) && s.threads[t].local == [] && FreshSlab(c, s, base)
    ensures var l := Refilled(c, [], s.shared, base); var r := Run(c, s, AllocActs(c, s, t, base));
            && l != [] && r.threads == s.threads[t := Thread(Front(l), Idle)]
            && r.shared == Fill(c, [], s.shared).1 && r.live == s.live + multiset{Last(l)} && !r.locked
  {
    hide Run, FreshSlab, SlabBlocks, Takes, Fill, Short, Step;
    var mid := Takes(t, Short(c, [], s.shared)) + [Taken(t)];
    var (l, f) := Fill(c, [], s.shared);
    var tail := if l == [] then [Carve(t, base), Pop(t)] else [Pop(t)];
    RunAppend(c, s, [Alloc(t), Lock(t)] + mid, tail);
    RunAppend(c, s, [Alloc(t), Lock(t)], mid);
    RefillOpening(c, s, t);
    var s1 := With(s, t, [], Refilling, s.shared, true);
    RefillRun(c, s1, t);
    var s2 := With(s, t, l, if l == [] then Carving else Popping, f, false);
    assert s1.threads[t := s2.threads[t]] == s2.threads;
    SameFresh(c, s, s2, base);
    AllocEnding(c, s2, t, base);
  }

  lemma SameFresh(c: Config, s: State, r: State, base: Addr)
    requires Sized(c) && FreshSlab(c, s, base) && r.slabs == s.slabs
    ensures FreshSlab(c, r, base)
  {}

  /** The steps of one __free. */
  function FreeActs(c: Config, s: State, t: nat, b: Addr): seq<Act>
    requires t < |s.threads|
  {
    var l := s.threads[t].local + [b];
    if |l| > 2 * c.cap then [Free(t, b), Lock(t)] + (Gives(t, Excess(c, l)) + [Given(t)]) else [Free(t, b)]
  }

  lemma FlushOpening(c: Config, s: State, t: nat, b: Addr)
    requires Sized(c) && AtRest(s, t) && b in s.live && |s.threads[t].local| + 1 > 2 * c.cap
    ensures Run(c, s, [Free(t, b), Lock(t)]) ==
            With(s, t, s.threads[t].local + [b], Flushing, s.shared, true).(live := s.live - multiset{b})
  {
    hide Run, FreshSlab;
    assert [Free(t, b), Lock(t)] == [Free(t, b)] + [Lock(t)];
    RunAppend(c, s, [Free(t, b)], [Lock(t)]);
    RunOne(c, s, Free(t, b));
    var l := s.threads[t].local + [b];
    var s1 := Put(s, t, l, WantFlush).(live := s.live - multiset{b});
    assert Step(c, s, Free(t, b)) == s1;
    RunOne(c, s1, Lock(t));
    PutPut(s, t, l, WantFlush, l, Flushing);
  }

  lemma FlushRun(c: Config, s: State, t: nat)
    requires Sized(c) && t < |s.threads| && s.threads[t].pc == Flushing && |s.threads[t].local| > c.cap
    ensures var (l, f) := Drain(c, s.threads[t].local, s.shared);
            Run(c, s, Gives(t, Excess(c, s.threads[t].local)) + [Given(t)]) ==
            s.(threads := s.threads[t := Thread(l, Idle)], shared := f, locked := false)
  {
    hide Run, FreshSlab, Gives;
    var k := Excess(c, s.threads[t].local);
    RunAppend(c, s, Gives(t, k), [Given(t)]);
    GivesDrain(c, s, t);
    DrainKeepsOldest(c, s.threads[t].local, s.shared);
    var (l, f) := Drain(c, s.threads[t].local, s.shared);
    var s1 := Put(s, t, l, Flushing).(shared := f);
    RunOne(c, s1, Given(t));
    PutPut(s, t, l, Flushing, l, Idle);
  }

  /** An uninterrupted __free is a run of the steps that ends as Cache.Free does. */
  lemma FreeIsARun(c: Config, s: State, t: nat, b: Addr)
    requires Sized(c) && AtRest(s, t) && b in s.live
    ensures var l := s.threads[t].local + [b];
            var (l1, f1) := if |l| > 2 * c.cap then Drain(c, l, s.shared) else (l, s.shared);
            var r := Run(c, s, FreeActs(c, s, t, b));
            && r.threads == s.threads[t := Thread(l1, Idle)] && r.shared == f1
            && r.live == s.live - multiset{b} && !r.locked
  {
    hide Run, FreshSlab, Gives, Drain;
    var l := s.threads[t].local + [b];
    if |l| > 2 * c.cap {
      var mid := Gives(t, Excess(c, l)) + [Given(t)];
      RunAppend(c, s, [Free(t, b), Lock(t)], mid);
      FlushOpening(c, s, t, b);
      var s1 := With(s, t, l, Flushing, s.shared, true).(live := s.live - multiset{b});
      FlushRun(c, s1, t);
      var (l1, f1) := Drain(c, l, s.shared);
      assert s1.threads[t := Thread(l1, Idle)] == s.threads[t := Thread(l1, Idle)];
    } else {
      RunOne(c, s, Free(t, b));
    }
  }

  /** The block a thread has just freed is the next one it hands out, and both calls together change nothing
      another thread can see. */
  lemma LastFreedFirst(c: Config, s: State, t: nat, b: Addr)
    requires Sized(c) && AtRest(s, t) && b in s.live && |s.threads[t].local| + 1 <= 2 * c.cap
    ensures var r := Run(c, s, [Free(t, b), Alloc(t)]);
            r.threads == s.threads && r.live == s.live && r.shared == s.shared && r.locked == s.locked
            && r.carved == s.carved && r.leaked == s.leaked
  {
    hide Run, FreshSlab;
    var l := s.threads[t].local;
    assert [Free(t, b), Alloc(t)] == [Free(t, b)] + [Alloc(t)];
    RunAppend(c, s, [Free(t, b)], [Alloc(t)]);
    RunOne(c, s, Free(t, b));
    var s1 := Put(s, t, l + [b], Idle).(live := s.live - multiset{b});
    assert Step(c, s, Free(t, b)) == s1;
    RunOne(c, s1, Alloc(t));
    assert Front(l + [b]) == l && s.live - multiset{b} + multiset{b} == s.live;
    PutPut(s, t, l + [b], Idle, l, Idle);
    assert s.threads[t := Thread(l, Idle)] == s.threads;
  }
}
