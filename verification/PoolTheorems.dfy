/**
  Ownership, layout and growth of the message pool over every interleaving.
 */
module PoolTheorems {
  import opened Pool
  import Sizing = PoolSizing

  // ----- who owns each block

  /** How often block `a` is in the threads' lists. */
  function InLocals(ts: seq<Thread>, a: Addr): nat {
    if ts == [] then 0 else InLocals(ts[..|ts| - 1], a) + multiset(ts[|ts| - 1].local)[a]
  }

  /** How many places have block `a`. */
  function Owners(s: State, a: Addr): nat { InLocals(s.threads, a) + multiset(s.shared)[a] + s.live[a] + s.leaked[a] }

  function Known(s: State, a: Addr): nat { if a in s.carved then 1 else 0 }

  /** Each carved block is in exactly one place, and nothing else is anywhere. */
  ghost predicate Conserved(s: State) { forall a :: Owners(s, a) == Known(s, a) }

  lemma {:induction false} InLocalsUpdate(ts: seq<Thread>, t: nat, th: Thread, a: Addr)
    requires t < |ts|
    ensures InLocals(ts[t := th], a) == InLocals(ts, a) - multiset(ts[t].local)[a] + multiset(th.local)[a]
  {
    var n, us := |ts| - 1, ts[t := th];
    if t < n {
      InLocalsUpdate(ts[..n], t, th, a);
      assert us[..n] == ts[..n][t := th];
    } else {
      assert us[..n] == ts[..n];
    }
  }

  function One(b: Addr, a: Addr): nat { if a == b then 1 else 0 }

  lemma SplitLast(q: seq<Addr>, a: Addr)
    requires q != []
    ensures multiset(q)[a] == multiset(Front(q))[a] + One(Last(q), a)
  {
    assert q == Front(q) + [Last(q)];
  }

  lemma HandOutKeeps(s: State, t: nat, a: Addr)
    requires t < |s.threads|
    ensures Owners(HandOut(s, t), a) == Owners(s, a)
  {
    hide InLocals;
    var local := s.threads[t].local;
    if local != [] {
      SplitLast(local, a);
      InLocalsUpdate(s.threads, t, Thread(Front(local), Idle), a);
    }
  }

  /** A turn of either loop moves one block between a thread's list and the shared list. */
  lemma MoveOwners(c: Config, s: State, x: Act, a: Addr)
    requires Sized(c) && Enabled(c, s, x) && (x.Take? || x.Give?)
    ensures Owners(Apply(c, s, x), a) == Owners(s, a)
  {
    hide InLocals;
    var th, r := s.threads[x.t], Apply(c, s, x);
    InLocalsUpdate(s.threads, x.t, r.threads[x.t], a);
    if x.Take? { SplitLast(s.shared, a); } else { SplitLast(th.local, a); }
  }

  lemma PlainOwners(c: Config, s: State, x: Act, a: Addr)
    requires Sized(c) && Enabled(c, s, x)
    requires x.Lock? || x.Taken? || x.Given? || x.Free? || x.Exit? || (x.Alloc? && s.threads[x.t].local == [])
    ensures Owners(Apply(c, s, x), a) == Owners(s, a)
  {
    hide InLocals, HandOut, FreshSlab, SlabBlocks;
    InLocalsUpdate(s.threads, x.t, Apply(c, s, x).threads[x.t], a);
  }

  /** Every step but a carving keeps the number of owners of every block. */
  lemma StepOwners(c: Config, s: State, x: Act, a: Addr)
    requires Sized(c) && Enabled(c, s, x) && !x.Carve?
    ensures Owners(Apply(c, s, x), a) == Owners(s, a)
  {
    hide Owners, HandOut, FreshSlab, SlabBlocks;
    if x.Pop? || (x.Alloc? && s.threads[x.t].local != []) {
      HandOutKeeps(s, x.t, a);
    } else if x.Take? || x.Give? {
      MoveOwners(c, s, x, a);
    } else {
      PlainOwners(c, s, x, a);
    }
  }

  // ----- where blocks lie

  /** Block `a` is one of the `cap` blocks of a slab. */
  predicate InSlab(c: Config, base: Addr, a: Addr) { a in SlabBlocks(c, base, c.cap) }

  ghost predicate SlabsApart(c: Config, slabs: seq<Addr>)
    requires Sized(c)
  {
    && (forall i :: 0 <= i < |slabs| ==> slabs[i] % c.align == 0)
    && (forall i, j :: 0 <= i < j < |slabs| ==> Apart(c, slabs[i], slabs[j]))
  }

  ghost predicate Covered(c: Config, s: State) {
    forall a :: a in s.carved ==> exists b :: b in s.slabs && InSlab(c, b, a)
  }

  ghost predicate Laid(c: Config, s: State)
    requires Sized(c)
  {
    SlabsApart(c, s.slabs) && Covered(c, s)
  }

  lemma Product(i: nat, j: nat, m: nat)
    requires i < j
    ensures i * m + m <= j * m
  {
    var d := j - i - 1;
    assert d * m >= 0;
    assert j * m == (i + 1 + d) * m == i * m + m + d * m;
  }

  /** A slab's blocks, by number. */
  lemma {:induction false} SlabBlock(c: Config, base: Addr, n: nat, a: Addr)
    ensures a in SlabBlocks(c, base, n) <==> exists i: nat :: i < n && a == BlockAt(c, base, i)
  {
    hide BlockAt;
    if n > 0 { SlabBlock(c, base, n - 1, a); }
  }

  lemma BlocksStep(c: Config, base: Addr, i: nat, j: nat)
    requires i < j
    ensures BlockAt(c, base, i) + c.blockSize <= BlockAt(c, base, j)
  {
    Product(i, j, c.blockSize);
  }

  /** A block lies whole inside its slab. */
  lemma InsideSlab(c: Config, base: Addr, a: Addr)
    requires InSlab(c, base, a)
    ensures base <= a && a + c.blockSize <= BlockAt(c, base, c.cap)
  {
    hide SlabBlocks;
    SlabBlock(c, base, c.cap, a);
    var i: nat :| i < c.cap && a == BlockAt(c, base, i);
    BlocksStep(c, base, i, c.cap);
  }

  lemma AppendCount(q: seq<Addr>, z: Addr, a: Addr)
    ensures multiset(q + [z])[a] == multiset(q)[a] + One(z, a)
    ensures a in q + [z] <==> a in q || a == z
  {}

  lemma BlockNew(c: Config, base: Addr, n: nat)
    requires Sized(c)
    ensures BlockAt(c, base, n) !in SlabBlocks(c, base, n)
  {
    hide BlockAt, SlabBlocks;
    var z := BlockAt(c, base, n);
    SlabBlock(c, base, n, z);
    if i: nat :| i < n && z == BlockAt(c, base, i) { BlocksStep(c, base, i, n); }
  }

  lemma {:induction false} SlabOnce(c: Config, base: Addr, n: nat, a: Addr)
    requires Sized(c)
    ensures multiset(SlabBlocks(c, base, n))[a] == if a in SlabBlocks(c, base, n) then 1 else 0
  {
    hide BlockAt;
    if n > 0 {
      SlabOnce(c, base, n - 1, a);
      BlockNew(c, base, n - 1);
      AppendCount(SlabBlocks(c, base, n - 1), BlockAt(c, base, n - 1), a);
    }
  }

  /** A fresh slab has no carved block in it. */
  lemma FreshBlocks(c: Config, s: State, base: Addr, a: Addr)
    requires Sized(c) && Laid(c, s) && FreshSlab(c, s, base) && a in s.carved
    ensures !InSlab(c, base, a)
  {
    hide SlabBlocks, BlockAt, InSlab;
    var b :| b in s.slabs && InSlab(c, b, a);
    InsideSlab(c, b, a);
    if InSlab(c, base, a) { InsideSlab(c, base, a); }
  }

  lemma CarveOwners(c: Config, s: State, x: Act, a: Addr)
    requires Sized(c) && Enabled(c, s, x) && Laid(c, s) && x.Carve?
    ensures Owners(Apply(c, s, x), a) - Owners(s, a) == Known(Apply(c, s, x), a) - Known(s, a)
  {
    hide InLocals, Laid, SlabBlocks, FreshSlab;
    var r := Apply(c, s, x);
    SlabOnce(c, x.base, c.cap, a);
    if a in s.carved { FreshBlocks(c, s, x.base, a); }
    InLocalsUpdate(s.threads, x.t, r.threads[x.t], a);
  }

  lemma CarveApart(c: Config, s: State, base: Addr)
    requires Sized(c) && SlabsApart(c, s.slabs) && FreshSlab(c, s, base)
    ensures SlabsApart(c, s.slabs + [base])
  {
    hide BlockAt;
    var r := s.slabs + [base];
    forall i, j | 0 <= i < j < |r| ensures Apart(c, r[i], r[j]) {
      assert s.slabs[i] in s.slabs;
    }
  }

  lemma CarveLaid(c: Config, s: State, x: Act)
    requires Sized(c) && Enabled(c, s, x) && Laid(c, s) && x.Carve?
    ensures Laid(c, Apply(c, s, x))
  {
    hide SlabBlocks, SlabsApart, FreshSlab;
    CarveApart(c, s, x.base);
    var r := Apply(c, s, x);
    forall a | a in r.carved ensures exists b :: b in r.slabs && InSlab(c, b, a) {
      if a in s.carved {
        var b :| b in s.slabs && InSlab(c, b, a);
        assert b in r.slabs;
      } else {
        assert x.base in r.slabs && InSlab(c, x.base, a);
      }
    }
  }

  /** Any two carved blocks are disjoint; each is aligned and lies whole inside a slab. */
  lemma BlocksDisjoint(c: Config, s: State, a: Addr, b: Addr)
    requires Sized(c) && Laid(c, s) && a in s.carved && b in s.carved && a != b
    ensures a + c.blockSize <= b || b + c.blockSize <= a
  {
    hide SlabBlocks, BlockAt;
    var p :| p in s.slabs && InSlab(c, p, a);
    var q :| q in s.slabs && InSlab(c, q, b);
    InsideSlab(c, p, a);
    InsideSlab(c, q, b);
    if p == q {
      SlabBlock(c, p, c.cap, a);
      SlabBlock(c, p, c.cap, b);
      var i: nat :| i < c.cap && a == BlockAt(c, p, i);
      var j: nat :| j < c.cap && b == BlockAt(c, p, j);
      if i < j { BlocksStep(c, p, i, j); } else if j < i { BlocksStep(c, p, j, i); }
    } else {
      var i :| 0 <= i < |s.slabs| && s.slabs[i] == p;
      var j :| 0 <= j < |s.slabs| && s.slabs[j] == q;
      assert Apart(c, p, q);
    }
  }

  lemma MultipleMod(base: nat, i: nat, m: nat, a: nat)
    requires a > 0 && base % a == 0 && m % a == 0
    ensures (base + i * m) % a == 0
  {
    var p, q := base / a, m / a;
    assert base == a * p && m == a * q;
    assert base + i * m == a * (p + i * q) by {
      assert i * (a * q) == a * (i * q);
    }
    ModZero(p + i * q, a);
  }

  lemma ModZero(k: nat, a: nat)
    requires a > 0
    ensures (a * k) % a == 0
  {
    var x := a * k;
    var d := x / a;
    assert x == a * d + x % a;
    assert d < k ==> a * k >= a * (d + 1) == a * d + a;
    assert d > k ==> a * d >= a * (k + 1) == a * k + a;
  }

  lemma BlockAligned(c: Config, s: State, a: Addr)
    requires Sized(c) && Laid(c, s) && a in s.carved
    ensures a % c.align == 0
  {
    hide SlabBlocks, Apart;
    var p :| p in s.slabs && InSlab(c, p, a);
    SlabBlock(c, p, c.cap, a);
    var i: nat :| i < c.cap && a == BlockAt(c, p, i);
    MultipleMod(p, i, c.blockSize, c.align);
  }

  // ----- the lock and the lists

  predicate InLoop(pc: Pc) { pc == Refilling || pc == Flushing }

  /** The longest list a thread may have at each point. */
  function Room(c: Config, pc: Pc): nat {
    match pc
    case WantRefill | Carving | Exited => 0
    case Refilling | Popping => c.cap
    case Idle => 2 * c.cap
    case WantFlush | Flushing => 2 * c.cap + 1
  }

  /** A thread inside refill's or flush's loop holds the mutex; a thread about to take its block has one. */
  predicate ThreadOk(c: Config, th: Thread, holds: bool) {
    (InLoop(th.pc) ==> holds) && (th.pc == Popping ==> th.local != []) && |th.local| <= Room(c, th.pc)
  }

  predicate PcOk(c: Config, s: State, t: nat)
    requires t < |s.threads|
  {
    ThreadOk(c, s.threads[t], s.locked && s.lock == t)
  }

  ghost predicate Proper(c: Config, s: State) {
    && !s.panicked
    && (s.locked ==> s.lock < |s.threads| && InLoop(s.threads[s.lock].pc))
    && forall t :: 0 <= t < |s.threads| ==> PcOk(c, s, t)
  }

  lemma HandOutFrame(s: State, t: nat)
    requires t < |s.threads|
    ensures var r := HandOut(s, t);
            && r.threads == s.threads[t := r.threads[t]]
            && r == s.(threads := r.threads, live := r.live, peak := r.peak, panicked := r.panicked)
            && r.peak >= s.peak && (|s.live| <= s.peak ==> |r.live| <= r.peak)
  {}

  lemma OneThread(c: Config, s: State, x: Act)
    requires Sized(c) && Enabled(c, s, x)
    ensures var r := Apply(c, s, x); r.threads == s.threads[x.t := r.threads[x.t]]
  {
    hide FreshSlab, SlabBlocks, HandOut;
    HandOutFrame(s, x.t);
  }

  lemma LockMoves(c: Config, s: State, x: Act)
    requires Sized(c) && Enabled(c, s, x) && PcOk(c, s, x.t)
    ensures var r := Apply(c, s, x);
            if x.Lock? then r.locked && r.lock == x.t && !s.locked
            else if x.Taken? || x.Given? then !r.locked && s.lock == x.t
            else r.locked == s.locked && r.lock == s.lock
  {
    hide FreshSlab, SlabBlocks, HandOut;
    HandOutFrame(s, x.t);
  }

  lemma LoopStays(c: Config, s: State, x: Act)
    requires Sized(c) && Enabled(c, s, x) && InLoop(s.threads[x.t].pc) && !x.Taken? && !x.Given?
    ensures Apply(c, s, x).threads[x.t].pc == s.threads[x.t].pc
  {
    hide FreshSlab, SlabBlocks;
  }

  lemma HandOutProper(c: Config, s: State, t: nat)
    requires t < |s.threads| && s.threads[t].local != [] && |s.threads[t].local| <= 2 * c.cap
    ensures var r := HandOut(s, t); r.panicked == s.panicked && PcOk(c, r, t)
  {}

  lemma AllocProper(c: Config, s: State, x: Act)
    requires Sized(c) && !s.panicked && Enabled(c, s, x) && PcOk(c, s, x.t) && (x.Alloc? || x.Pop? || x.Exit?)
    ensures var r := Apply(c, s, x); PcOk(c, r, x.t) && !r.panicked
  {
    hide FreshSlab, SlabBlocks, HandOut;
    if !x.Exit? && s.threads[x.t].local != [] { HandOutProper(c, s, x.t); }
  }

  lemma RefillProper(c: Config, s: State, x: Act)
    requires Sized(c) && !s.panicked && Enabled(c, s, x) && PcOk(c, s, x.t) && (x.Lock? || x.Take? || x.Taken?)
    ensures var r := Apply(c, s, x); PcOk(c, r, x.t) && !r.panicked
  {
    hide FreshSlab, SlabBlocks;
    LockMoves(c, s, x);
  }

  lemma CarveProper(c: Config, s: State, x: Act)
    requires Sized(c) && !s.panicked && Enabled(c, s, x) && PcOk(c, s, x.t) && (x.Carve?)
    ensures var r := Apply(c, s, x); PcOk(c, r, x.t) && !r.panicked
  {
    hide FreshSlab, SlabBlocks;
    LockMoves(c, s, x);
  }

  lemma FreeProper(c: Config, s: State, x: Act)
    requires Sized(c) && !s.panicked && Enabled(c, s, x) && PcOk(c, s, x.t) && (x.Free? || x.Give? || x.Given?)
    ensures var r := Apply(c, s, x); PcOk(c, r, x.t) && !r.panicked
  {
    hide FreshSlab, SlabBlocks;
    LockMoves(c, s, x);
  }

  lemma ActorProper(c: Config, s: State, x: Act)
    requires Sized(c) && !s.panicked && Enabled(c, s, x) && PcOk(c, s, x.t)
    ensures var r := Apply(c, s, x); PcOk(c, r, x.t) && !r.panicked
  {
    hide Enabled, Apply, PcOk;
    if x.Alloc? || x.Pop? || x.Exit? {
      AllocProper(c, s, x);
    } else if x.Lock? || x.Take? || x.Taken? {
      RefillProper(c, s, x);
    } else if x.Carve? {
      CarveProper(c, s, x);
    } else {
      FreeProper(c, s, x);
    }
  }

  lemma StepProper(c: Config, s: State, x: Act)
    requires Sized(c) && Proper(c, s) && Enabled(c, s, x)
    ensures Proper(c, Apply(c, s, x))
  {
    hide Apply, Enabled;
    EnabledThread(c, s, x);
    assert PcOk(c, s, x.t);
    ActorProper(c, s, x);
    OneThread(c, s, x);
    LockMoves(c, s, x);
    if InLoop(s.threads[x.t].pc) && !x.Taken? && !x.Given? { LoopStays(c, s, x); }
    var r := Apply(c, s, x);
    forall t | 0 <= t < |r.threads| ensures PcOk(c, r, t) {
      assert PcOk(c, s, t);
    }
  }

  lemma EnabledThread(c: Config, s: State, x: Act)
    requires Sized(c) && Enabled(c, s, x)
    ensures x.t < |s.threads|
    ensures x.Lock? ==> !s.locked && InLoop(Apply(c, s, x).threads[x.t].pc)
  {
    hide FreshSlab, SlabBlocks;
  }

  ghost predicate Inv(c: Config, s: State)
    requires Sized(c)
  {
    Conserved(s) && Laid(c, s) && Proper(c, s)
  }

  lemma StepKeeps(c: Config, s: State, x: Act)
    requires Sized(c) && Inv(c, s)
    ensures Inv(c, Step(c, s, x))
  {
    hide Proper, Covered, SlabsApart, InLocals, Owners, Known, SlabBlocks, HandOut;
    if Enabled(c, s, x) {
      StepProper(c, s, x);
      var r := Apply(c, s, x);
      if x.Carve? {
        CarveLaid(c, s, x);
        forall a ensures Owners(r, a) == Known(r, a) { CarveOwners(c, s, x, a); }
      } else {
        SameSlabs(c, s, x);
        forall a ensures Owners(r, a) == Known(r, a) { StepOwners(c, s, x, a); KnownSame(s, r, a); }
      }
    }
  }

  lemma KnownSame(s: State, r: State, a: Addr)
    requires r.carved == s.carved
    ensures Known(r, a) == Known(s, a)
  {}

  lemma SameCover(c: Config, s: State, r: State)
    requires Covered(c, s) && r.slabs == s.slabs && r.carved == s.carved
    ensures Covered(c, r)
  {}

  lemma SameSlabs(c: Config, s: State, x: Act)
    requires Sized(c) && Enabled(c, s, x) && !x.Carve?
    ensures var r := Apply(c, s, x); r.slabs == s.slabs && r.carved == s.carved && (Laid(c, s) ==> Laid(c, r))
  {
    hide SlabBlocks, SlabsApart, InSlab, FreshSlab, Covered, HandOut;
    HandOutFrame(s, x.t);
    var r := Apply(c, s, x);
    assert r.slabs == s.slabs && r.carved == s.carved;
    if Covered(c, s) { SameCover(c, s, r); }
  }

  lemma {:induction false} InitInv(c: Config, n: nat)
    requires Sized(c)
    ensures Inv(c, Init(n))
  {
    forall a ensures Owners(Init(n), a) == 0 { InitEmpty(Init(n).threads, a); }
  }

  lemma {:induction false} InitEmpty(ts: seq<Thread>, a: Addr)
    requires forall i :: 0 <= i < |ts| ==> ts[i].local == []
    ensures InLocals(ts, a) == 0
  {
    if ts != [] { InitEmpty(ts[..|ts| - 1], a); }
  }

  lemma {:induction false} RunKeeps(c: Config, s: State, xs: seq<Act>)
    requires Sized(c) && Inv(c, s)
    ensures Inv(c, Run(c, s, xs))
  {
    hide Inv, Step;
    if xs != [] {
      RunKeeps(c, s, xs[..|xs| - 1]);
      StepKeeps(c, Run(c, s, xs[..|xs| - 1]), xs[|xs| - 1]);
    }
  }

  // ----- what every run keeps

  /** Under every interleaving each carved block is in exactly one thread's list, the shared list, a
      live message or an exited thread's leak, once; no other address is anywhere; and an allocation
      never finds its list empty after a refill. */
  lemma EveryBlockOwnedOnce(c: Config, n: nat, xs: seq<Act>, a: Addr)
    requires Sized(c)
    ensures var s := Run(c, Init(n), xs);
            && !s.panicked
            && InLocals(s.threads, a) + multiset(s.shared)[a] + s.live[a] + s.leaked[a] ==
               if a in s.carved then 1 else 0
  {
    hide Run, Laid, InLocals;
    InitInv(c, n);
    RunKeeps(c, Init(n), xs);
    var s := Run(c, Init(n), xs);
    assert Owners(s, a) == Known(s, a);
  }

  /** A block handed out was not live, in no other list, and is live exactly once afterwards. */
  lemma NeverHandedOutTwice(c: Config, n: nat, xs: seq<Act>, t: nat)
    requires Sized(c)
    requires var s := Run(c, Init(n), xs);
             && (Enabled(c, s, Alloc(t)) || Enabled(c, s, Pop(t))) && s.threads[t].local != []
    ensures var s := Run(c, Init(n), xs); var b := Last(s.threads[t].local); var r := HandOut(s, t);
            && b in s.carved && s.live[b] == 0 && r.live == s.live + multiset{b} && r.live[b] == 1
            && InLocals(r.threads, b) == 0 && b !in r.shared && b !in r.leaked
  {
    hide Run, Laid, InLocals, FreshSlab;
    InitInv(c, n);
    RunKeeps(c, Init(n), xs);
    var s := Run(c, Init(n), xs);
    var b := Last(s.threads[t].local);
    assert Owners(s, b) == Known(s, b);
    assert b in s.threads[t].local;
    LocalCounts(s.threads, t, b);
    HandOutKeeps(s, t, b);
  }

  lemma {:induction false} LocalCounts(ts: seq<Thread>, t: nat, b: Addr)
    requires t < |ts| && b in ts[t].local
    ensures InLocals(ts, b) >= 1
  {
    var n := |ts| - 1;
    if t < n { LocalCounts(ts[..n], t, b); }
  }

  /** Under every interleaving the blocks are aligned, disjoint and whole inside a slab. */
  lemma BlocksLaidOut(c: Config, n: nat, xs: seq<Act>, a: Addr, b: Addr)
    requires Sized(c)
    requires a in Run(c, Init(n), xs).carved && b in Run(c, Init(n), xs).carved
    ensures a % c.align == 0
    ensures a != b ==> a + c.blockSize <= b || b + c.blockSize <= a
    ensures exists p :: p in Run(c, Init(n), xs).slabs && p <= a && a + c.blockSize <= BlockAt(c, p, c.cap)
  {
    hide Run, SlabBlocks, BlockAt, SlabsApart, InSlab;
    InitInv(c, n);
    RunKeeps(c, Init(n), xs);
    var s := Run(c, Init(n), xs);
    BlockAligned(c, s, a);
    if a != b { BlocksDisjoint(c, s, a, b); }
    var p :| p in s.slabs && InSlab(c, p, a);
    InsideSlab(c, p, a);
  }

  lemma {:induction false} PowDivides(j: nat, k: nat, a: nat)
    requires j <= k && a % Sizing.Pow2(k) == 0
    ensures a % Sizing.Pow2(j) == 0
    decreases k
  {
    if j < k {
      EvenMod(a, Sizing.Pow2(k - 1));
      PowDivides(j, k - 1, a);
    }
  }

  lemma EvenMod(a: nat, m: nat)
    requires m > 0 && a % (2 * m) == 0
    ensures a % m == 0
  {
    var q := a / (2 * m);
    assert a == (2 * m) * q == m * (2 * q);
    ModZero(2 * q, m);
  }

  /** A pool made for a message layout: every block of every run holds the message, aligned as the
      message and as a cache line demand, and shares no byte with another block. */
  lemma BlocksFitMessages(l: Sizing.Layout, cap: nat, n: nat, xs: seq<Act>, a: Addr, b: Addr)
    requires Sizing.LayoutOk(l) && cap > 0
    ensures Sized(Config(cap, Sizing.SharedNew(l).0, Sizing.SharedNew(l).1))
    ensures var c := Config(cap, Sizing.SharedNew(l).0, Sizing.SharedNew(l).1);
            a in Run(c, Init(n), xs).carved && b in Run(c, Init(n), xs).carved ==>
              && a % Sizing.Pow2(l.alignBits) == 0 && a % Sizing.Pow2(Sizing.CacheLineBits) == 0
              && (a != b ==> a + l.size <= b || b + l.size <= a)
  {
    hide Run, Sizing.SharedNew, Sizing.Pow2;
    var c := Config(cap, Sizing.SharedNew(l).0, Sizing.SharedNew(l).1);
    var k := Sizing.Max(l.alignBits, Sizing.CacheLineBits);
    if a in Run(c, Init(n), xs).carved && b in Run(c, Init(n), xs).carved {
      BlocksLaidOut(c, n, xs, a, b);
      PowDivides(l.alignBits, k, a);
      PowDivides(Sizing.CacheLineBits, k, a);
    }
  }

  // ----- growth

  /** A thread's blocks, with `k` more while it is about to carve. */
  function Weight(th: Thread, k: nat): nat { |th.local| + if th.pc == Carving then k else 0 }

  function Size(ts: seq<Thread>, k: nat): nat {
    if ts == [] then 0 else Size(ts[..|ts| - 1], k) + Weight(ts[|ts| - 1], k)
  }

  /** Blocks everywhere, with `k` more for each thread about to carve. */
  function Held(s: State, k: nat): nat { Size(s.threads, k) + |s.shared| + |s.live| + |s.leaked| }

  lemma {:induction false} SizeUpdate(ts: seq<Thread>, t: nat, th: Thread, k: nat)
    requires t < |ts|
    ensures Size(ts[t := th], k) == Size(ts, k) - Weight(ts[t], k) + Weight(th, k)
  {
    var n, us := |ts| - 1, ts[t := th];
    if t < n {
      SizeUpdate(ts[..n], t, th, k);
      assert us[..n] == ts[..n][t := th];
    } else {
      assert us[..n] == ts[..n];
    }
  }

  lemma {:induction false} SizeBound(ts: seq<Thread>, t: nat, k: nat, m: nat)
    requires t < |ts| && forall u :: 0 <= u < |ts| && u != t ==> Weight(ts[u], k) <= m
    ensures Size(ts, k) <= Weight(ts[t], k) + (|ts| - 1) * m
  {
    var n := |ts| - 1;
    if t < n {
      SizeBound(ts[..n], t, k, m);
      assert n * m == (n - 1) * m + m;
    } else {
      AllBound(ts[..n], k, m);
    }
  }

  lemma {:induction false} AllBound(ts: seq<Thread>, k: nat, m: nat)
    requires forall u :: 0 <= u < |ts| ==> Weight(ts[u], k) <= m
    ensures Size(ts, k) <= |ts| * m
  {
    if ts != [] { AllBound(ts[..|ts| - 1], k, m); }
  }

  lemma {:induction false} SizeMono(ts: seq<Thread>, k: nat)
    ensures Size(ts, 0) <= Size(ts, k)
  {
    if ts != [] { SizeMono(ts[..|ts| - 1], k); }
  }

  /** Thread `x.t` decides to carve. */
  ghost predicate Decides(c: Config, s: State, x: Act)
    requires Sized(c)
  {
    Enabled(c, s, x) && x.Taken? && s.threads[x.t].local == []
  }

  lemma HandOutHeld(s: State, t: nat, k: nat)
    requires t < |s.threads| && s.threads[t].local != [] && s.threads[t].pc != Carving
    ensures Held(HandOut(s, t), k) == Held(s, k)
  {
    hide Size;
    SizeUpdate(s.threads, t, Thread(Front(s.threads[t].local), Idle), k);
  }

  lemma MoveHeld(c: Config, s: State, x: Act, k: nat)
    requires Sized(c) && Enabled(c, s, x) && (x.Take? || x.Give? || x.Free? || x.Exit?)
    ensures Held(Apply(c, s, x), k) == Held(s, k)
  {
    hide Size, HandOut, FreshSlab, SlabBlocks;
    SizeUpdate(s.threads, x.t, Apply(c, s, x).threads[x.t], k);
  }

  lemma StepHeld(c: Config, s: State, x: Act, k: nat)
    requires Sized(c) && Enabled(c, s, x) && PcOk(c, s, x.t)
    ensures Held(Apply(c, s, x), k) == Held(s, k) + (if Decides(c, s, x) then k else 0)
                                       + (if x.Carve? then c.cap - k else 0)
  {
    hide Size, HandOut, FreshSlab, SlabBlocks;
    var th, r := s.threads[x.t], Apply(c, s, x);
    if x.Pop? || (x.Alloc? && th.local != []) {
      HandOutHeld(s, x.t, k);
    } else if x.Take? || x.Give? || x.Free? || x.Exit? {
      MoveHeld(c, s, x, k);
    } else {
      SizeUpdate(s.threads, x.t, r.threads[x.t], k);
    }
  }

  lemma {:induction false} SlabCount(c: Config, base: Addr, n: nat)
    requires Sized(c)
    ensures |SetOf(SlabBlocks(c, base, n))| == n
  {
    hide BlockAt;
    if n > 0 {
      var p, z := SlabBlocks(c, base, n - 1), BlockAt(c, base, n - 1);
      SlabCount(c, base, n - 1);
      BlockNew(c, base, n - 1);
      assert SetOf(SlabBlocks(c, base, n)) == SetOf(p) + {z};
    }
  }

  lemma CarveCount(c: Config, s: State, x: Act)
    requires Sized(c) && Enabled(c, s, x) && Laid(c, s) && x.Carve?
    ensures |Apply(c, s, x).carved| == |s.carved| + c.cap
  {
    hide Laid, SlabBlocks, FreshSlab;
    var b := SetOf(SlabBlocks(c, x.base, c.cap));
    SlabCount(c, x.base, c.cap);
    forall a | a in s.carved ensures a !in b { FreshBlocks(c, s, x.base, a); }
    assert s.carved !! b;
  }

  /** Everything carved is held somewhere, and the demand of holders and carvers is bounded. */
  ghost predicate Grown(c: Config, s: State, m: nat) {
    && |s.carved| == Held(s, 0)
    && Held(s, c.cap) <= s.peak + |s.leaked| + (if |s.threads| == 0 then 0 else (|s.threads| - 1) * m) + c.cap
    && |s.live| <= s.peak
  }

  /** While one thread steps, every other has at most `m` blocks, counting those it will carve. */
  ghost predicate OthersUnder(c: Config, s: State, x: Act, m: nat) {
    forall u :: 0 <= u < |s.threads| && u != x.t ==> Weight(s.threads[u], c.cap) <= m
  }

  lemma PeakGrows(c: Config, s: State, x: Act)
    requires Sized(c) && Enabled(c, s, x) && |s.live| <= s.peak
    ensures var r := Apply(c, s, x);
            && r.peak >= s.peak && |r.leaked| >= |s.leaked| && |r.live| <= r.peak && |r.threads| == |s.threads|
            && (!x.Carve? ==> r.carved == s.carved)
  {
    hide FreshSlab, SlabBlocks, HandOut;
    HandOutFrame(s, x.t);
  }

  /** The decision to carve is made with the shared list and the thread's own list empty. */
  lemma DecisionBound(c: Config, s: State, x: Act, m: nat)
    requires Sized(c) && Decides(c, s, x) && OthersUnder(c, s, x, m)
    ensures Held(Apply(c, s, x), c.cap) <= |s.live| + |s.leaked| + (|s.threads| - 1) * m + c.cap
  {
    hide Size;
    var r := Apply(c, s, x);
    forall u | 0 <= u < |r.threads| && u != x.t ensures Weight(r.threads[u], c.cap) <= m {
      assert r.threads[u] == s.threads[u];
    }
    SizeBound(r.threads, x.t, c.cap, m);
  }

  lemma StepGrown(c: Config, s: State, x: Act, m: nat)
    requires Sized(c) && Inv(c, s) && Grown(c, s, m) && (Enabled(c, s, x) ==> OthersUnder(c, s, x, m))
    ensures Grown(c, Step(c, s, x), m)
  {
    hide Enabled, Apply, Held, Laid, Conserved, OthersUnder, PcOk;
    if Enabled(c, s, x) {
      EnabledThread(c, s, x);
      PeakGrows(c, s, x);
      assert PcOk(c, s, x.t);
      StepHeld(c, s, x, 0);
      StepHeld(c, s, x, c.cap);
      if x.Carve? { CarveCount(c, s, x); }
      if Decides(c, s, x) { DecisionBound(c, s, x, m); }
    }
  }

  lemma OthersInterleaved(c: Config, s: State, x: Act)
    requires Sized(c) && Proper(c, s)
    ensures OthersUnder(c, s, x, 2 * c.cap + 1)
  {
    forall u | 0 <= u < |s.threads| && u != x.t ensures Weight(s.threads[u], c.cap) <= 2 * c.cap + 1 {
      assert PcOk(c, s, u);
    }
  }

  /** Calls run one at a time: while a thread steps, every other is outside the pool. */
  ghost predicate OneAtATime(s: State, x: Act) {
    forall u :: 0 <= u < |s.threads| && u != x.t ==> s.threads[u].pc == Idle || s.threads[u].pc == Exited
  }

  ghost predicate SerialRun(c: Config, s: State, xs: seq<Act>)
    requires Sized(c)
  {
    forall i :: 0 <= i < |xs| && Enabled(c, Run(c, s, xs[..i]), xs[i]) ==> OneAtATime(Run(c, s, xs[..i]), xs[i])
  }

  lemma OthersSerial(c: Config, s: State, x: Act)
    requires Sized(c) && Proper(c, s) && OneAtATime(s, x)
    ensures OthersUnder(c, s, x, 2 * c.cap)
  {
    forall u | 0 <= u < |s.threads| && u != x.t ensures Weight(s.threads[u], c.cap) <= 2 * c.cap {
      assert PcOk(c, s, u);
    }
  }

  lemma {:induction false} InitGrown(c: Config, n: nat, m: nat)
    requires Sized(c)
    ensures Grown(c, Init(n), m)
  {
    NoSize(Init(n).threads, 0);
    NoSize(Init(n).threads, c.cap);
    assert n > 0 ==> (n - 1) * m >= 0;
  }

  lemma {:induction false} NoSize(ts: seq<Thread>, k: nat)
    requires forall i :: 0 <= i < |ts| ==> ts[i] == Thread([], Idle)
    ensures Size(ts, k) == 0
  {
    if ts != [] { NoSize(ts[..|ts| - 1], k); }
  }

  lemma {:induction false} RunGrown(c: Config, n: nat, xs: seq<Act>, serial: bool)
    requires Sized(c) && (serial ==> SerialRun(c, Init(n), xs))
    ensures Grown(c, Run(c, Init(n), xs), if serial then 2 * c.cap else 2 * c.cap + 1)
  {
    hide Grown, Step, Inv, OneAtATime, Enabled;
    var m := if serial then 2 * c.cap else 2 * c.cap + 1;
    if xs == [] {
      InitGrown(c, n, m);
    } else {
      var k := |xs| - 1;
      assert forall i :: 0 <= i < k ==> xs[..k][..i] == xs[..i] && xs[..k][i] == xs[i];
      RunGrown(c, n, xs[..k], serial);
      var s := Run(c, Init(n), xs[..k]);
      InitInv(c, n);
      RunKeeps(c, Init(n), xs[..k]);
      OthersRun(c, s, xs[k], serial);
      StepGrown(c, s, xs[k], m);
    }
  }

  lemma OthersRun(c: Config, s: State, x: Act, serial: bool)
    requires Sized(c) && Inv(c, s) && (serial && Enabled(c, s, x) ==> OneAtATime(s, x))
    ensures Enabled(c, s, x) ==> OthersUnder(c, s, x, if serial then 2 * c.cap else 2 * c.cap + 1)
  {
    hide Enabled, OthersUnder, OneAtATime, Proper, Conserved, Laid;
    if Enabled(c, s, x) {
      if serial { OthersSerial(c, s, x); } else { OthersInterleaved(c, s, x); }
    }
  }

  lemma {:induction false} ThreadsStay(c: Config, n: nat, xs: seq<Act>)
    requires Sized(c)
    ensures |Run(c, Init(n), xs).threads| == n
  {
    hide Enabled, Apply;
    if xs != [] {
      var s := Run(c, Init(n), xs[..|xs| - 1]);
      ThreadsStay(c, n, xs[..|xs| - 1]);
      if Enabled(c, s, xs[|xs| - 1]) { OneThread(c, s, xs[|xs| - 1]); EnabledThread(c, s, xs[|xs| - 1]); }
    }
  }

  /** Growth: with T threads the blocks ever carved are at most the peak of live blocks, plus those leaked
      by exits, plus (T-1) full lists, plus one slab. A full list is 2*cap blocks when calls run one at a
      time; interleaved calls can make it one longer. */
  lemma GrowthBound(c: Config, n: nat, xs: seq<Act>)
    requires Sized(c) && n > 0
    ensures var s := Run(c, Init(n), xs); |s.carved| <= s.peak + |s.leaked| + (n - 1) * (2 * c.cap + 1) + c.cap
    ensures SerialRun(c, Init(n), xs) ==>
            var s := Run(c, Init(n), xs); |s.carved| <= s.peak + |s.leaked| + (n - 1) * (2 * c.cap) + c.cap
  {
    hide Run, SerialRun, Size;
    ThreadsStay(c, n, xs);
    var s := Run(c, Init(n), xs);
    SizeMono(s.threads, c.cap);
    RunGrown(c, n, xs, false);
    if SerialRun(c, Init(n), xs) { RunGrown(c, n, xs, true); }
  }

  /** Between calls a thread's list never exceeds twice the cache size. */
  lemma ListBound(c: Config, n: nat, xs: seq<Act>, t: nat)
    requires Sized(c) && t < |Run(c, Init(n), xs).threads|
    ensures var th := Run(c, Init(n), xs).threads[t];
            |th.local| <= if th.pc == Idle then 2 * c.cap else 2 * c.cap + 1
  {
    hide Run, Conserved, Laid;
    InitInv(c, n);
    RunKeeps(c, Init(n), xs);
    assert PcOk(c, Run(c, Init(n), xs), t);
  }

  lemma OnlyExitLeaks(c: Config, s: State, x: Act)
    requires Sized(c) && Enabled(c, s, x) && !x.Exit?
    ensures Apply(c, s, x).leaked == s.leaked
  {
    hide FreshSlab, SlabBlocks, HandOut;
    HandOutFrame(s, x.t);
  }

  /** Without exits nothing leaks. */
  lemma {:induction false} NoExitNoLeak(c: Config, n: nat, xs: seq<Act>)
    requires Sized(c) && forall i :: 0 <= i < |xs| ==> !xs[i].Exit?
    ensures Run(c, Init(n), xs).leaked == multiset{}
  {
    hide Enabled, Apply;
    if xs != [] {
      var s := Run(c, Init(n), xs[..|xs| - 1]);
      NoExitNoLeak(c, n, xs[..|xs| - 1]);
      if Enabled(c, s, xs[|xs| - 1]) { OnlyExitLeaks(c, s, xs[|xs| - 1]); }
    }
  }
}
