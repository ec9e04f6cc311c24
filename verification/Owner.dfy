/**
  MsgBox: an owning handle that remembers, from its creation, whether its storage goes back to the
  heap or to the pool of its message type.

  Boxes are made and dropped by threads that interleave with each other inside the pools: making a
  pooled box is the step of its type's pool that hands a block out, dropping one is that pool's free.
  Pool `k` serves message type `k` and has configuration `cs[k]`.
 */
module Owner {
  import P = Pool
  import T = PoolTheorems

  type Addr = P.Addr

  datatype Reclaim = Heap | Pooled(k: nat)

  datatype MsgBox = MsgBox(addr: Addr, size: nat, reclaim: Reclaim)

  /** Where the storage lives: a zero-sized heap message has none. */
  datatype Place = OnHeap | InPool(k: nat) | Nowhere

  function PlaceOf(b: MsgBox): Place {
    match b.reclaim
    case Heap => if b.size == 0 then Nowhere else OnHeap
    case Pooled(k) => InPool(k)
  }

  /**
    `heap` is what the global allocator has handed out. Traces: `acts[k]` is every step pool k has
    taken, `destroyed` counts the values dropped, `bad` a reclaim of storage that was not held.
   */
  datatype World = World(heap: multiset<Addr>, pools: seq<P.State>, acts: seq<seq<P.Act>>,
                         boxes: seq<MsgBox>, destroyed: nat, bad: bool)

  datatype Op =
    | MakeHeap(addr: Addr, size: nat)  // Box::new, at an address the allocator chose
    | PoolStep(k: nat, x: P.Act)       // any step of pool k but a free; a block handed out becomes a box
    | Drop(t: nat, i: nat)             // thread t drops box i

  ghost predicate AllSized(cs: seq<P.Config>) { forall k :: 0 <= k < |cs| ==> P.Sized(cs[k]) }

  function Init(cs: seq<P.Config>, threads: nat): World {
    World(multiset{}, seq(|cs|, _ => P.Init(threads)), seq(|cs|, _ => []), [], 0, false)
  }

  /** The step hands out the last block of its thread's list. */
  ghost predicate HandsOut(c: P.Config, s: P.State, x: P.Act)
    requires P.Sized(c)
  {
    P.Enabled(c, s, x) && (x.Alloc? || x.Pop?) && s.threads[x.t].local != []
  }

  ghost function TakeStep(cs: seq<P.Config>, w: World, k: nat, x: P.Act): World
    requires AllSized(cs) && k < |cs| == |w.pools| == |w.acts|
  {
    w.(pools := w.pools[k := P.Step(cs[k], w.pools[k], x)], acts := w.acts[k := w.acts[k] + [x]])
  }

  ghost function MakePooled(cs: seq<P.Config>, w: World, k: nat, x: P.Act): World
    requires AllSized(cs) && k < |cs| == |w.pools| == |w.acts|
  {
    var r := TakeStep(cs, w, k, x);
    if HandsOut(cs[k], w.pools[k], x)
    then r.(boxes := w.boxes + [MsgBox(P.Last(w.pools[k].threads[x.t].local), cs[k].blockSize, Pooled(k))])
    else r
  }

  function Without(bs: seq<MsgBox>, i: nat): seq<MsgBox>
    requires i < |bs|
  {
    bs[..i] + bs[i + 1..]
  }

  /** Destroy the value, then return the storage by the path the box carries. */
  ghost function DropBox(cs: seq<P.Config>, w: World, t: nat, i: nat): World
    requires AllSized(cs) && i < |w.boxes| && |cs| == |w.pools| == |w.acts|
  {
    var b := w.boxes[i];
    var w1 := w.(boxes := Without(w.boxes, i), destroyed := w.destroyed + 1);
    match b.reclaim
    case Heap =>
      if b.size == 0 then w1
      else w1.(heap := w.heap - multiset{b.addr}, bad := w.bad || b.addr !in w.heap)
    case Pooled(k) =>
      if k >= |cs| then w1.(bad := true)
      else TakeStep(cs, w1, k, P.Free(t, b.addr)).(bad := w.bad || !P.Enabled(cs[k], w.pools[k], P.Free(t, b.addr)))
  }

  /** Thread `t` is outside pool `k`, as it is when it drops a box. */
  predicate Outside(w: World, k: nat, t: nat) {
    k < |w.pools| && t < |w.pools[k].threads| && w.pools[k].threads[t].pc == P.Idle
  }

  ghost function Step(cs: seq<P.Config>, w: World, op: Op): (r: World)
    requires AllSized(cs) && |cs| == |w.pools| == |w.acts|
    ensures |cs| == |r.pools| == |r.acts|
  {
    match op
    case MakeHeap(a, size) =>
      w.(boxes := w.boxes + [MsgBox(a, size, Heap)], heap := if size == 0 then w.heap else w.heap + multiset{a})
    case PoolStep(k, x) => if k < |cs| && !x.Free? then MakePooled(cs, w, k, x) else w
    case Drop(t, i) =>
      if i < |w.boxes| && (w.boxes[i].reclaim.Pooled? ==> Outside(w, w.boxes[i].reclaim.k, t))
      then DropBox(cs, w, t, i) else w
  }

  ghost function Run(cs: seq<P.Config>, threads: nat, ops: seq<Op>): (r: World)
    requires AllSized(cs)
    ensures |cs| == |r.pools| == |r.acts|
  {
    if ops == [] then Init(cs, threads) else Step(cs, Run(cs, threads, ops[..|ops| - 1]), ops[|ops| - 1])
  }

  // ----- one reclaim for one allocation

  function One(b: MsgBox, p: Place, a: Addr): nat { if PlaceOf(b) == p && b.addr == a then 1 else 0 }

  /** How many boxes own address `a` of place `p`. */
  function Boxed(bs: seq<MsgBox>, p: Place, a: Addr): nat {
    if bs == [] then 0 else Boxed(bs[..|bs| - 1], p, a) + One(bs[|bs| - 1], p, a)
  }

  lemma {:induction false} BoxedRemove(bs: seq<MsgBox>, i: nat, p: Place, a: Addr)
    requires i < |bs|
    ensures Boxed(bs, p, a) == Boxed(Without(bs, i), p, a) + One(bs[i], p, a)
  {
    var n := |bs| - 1;
    var r := Without(bs, i);
    if i < n {
      BoxedRemove(bs[..n], i, p, a);
      assert r[..|r| - 1] == Without(bs[..n], i) && r[|r| - 1] == bs[n];
    } else {
      assert r == bs[..n];
    }
  }

  lemma BoxedAdd(bs: seq<MsgBox>, b: MsgBox, p: Place, a: Addr)
    ensures Boxed(bs + [b], p, a) == Boxed(bs, p, a) + One(b, p, a)
  {
    assert (bs + [b])[..|bs|] == bs;
  }

  /** The blocks a place has handed out. */
  function Held(w: World, p: Place): multiset<Addr> {
    match p
    case OnHeap => w.heap
    case InPool(k) => if k < |w.pools| then w.pools[k].live else multiset{}
    case Nowhere => multiset{}
  }

  /** What a place has handed out is exactly what the boxes own, address by address. */
  ghost predicate Paired(w: World) {
    !w.bad && forall p, a :: p != Nowhere ==> Held(w, p)[a] == Boxed(w.boxes, p, a)
  }

  /** Every pool is where its own steps lead. */
  ghost predicate Driven(cs: seq<P.Config>, threads: nat, w: World)
    requires AllSized(cs)
  {
    |cs| == |w.pools| == |w.acts| &&
    forall k :: 0 <= k < |cs| ==> w.pools[k] == P.Run(cs[k], P.Init(threads), w.acts[k])
  }

  lemma MakeHeapPaired(w: World, a: Addr, size: nat, r: World)
    requires Paired(w) && r.pools == w.pools && r.bad == w.bad && r.boxes == w.boxes + [MsgBox(a, size, Heap)]
    requires r.heap == if size == 0 then w.heap else w.heap + multiset{a}
    ensures Paired(r)
  {
    hide Boxed;
    forall p, x | p != Nowhere ensures Held(r, p)[x] == Boxed(r.boxes, p, x) {
      BoxedAdd(w.boxes, MsgBox(a, size, Heap), p, x);
    }
  }

  /** What a pool step but a free does to the live blocks. */
  lemma StepLive(c: P.Config, s: P.State, x: P.Act)
    requires P.Sized(c) && !x.Free?
    ensures P.Step(c, s, x).live ==
            if HandsOut(c, s, x) then s.live + multiset{P.Last(s.threads[x.t].local)} else s.live
  {
    hide P.FreshSlab, P.SlabBlocks;
  }

  lemma PoolStepPaired(cs: seq<P.Config>, w: World, k: nat, x: P.Act)
    requires AllSized(cs) && Paired(w) && k < |cs| == |w.pools| == |w.acts| && !x.Free?
    ensures Paired(MakePooled(cs, w, k, x))
  {
    hide Boxed, P.Step, HandsOut;
    var r, s := MakePooled(cs, w, k, x), w.pools[k];
    StepLive(cs[k], s, x);
    forall p, a | p != Nowhere ensures Held(r, p)[a] == Boxed(r.boxes, p, a) {
      if HandsOut(cs[k], s, x) {
        assert x.t < |s.threads| && s.threads[x.t].local != [] by { HandsOutLast(cs[k], s, x); }
        BoxedAdd(w.boxes, MsgBox(P.Last(s.threads[x.t].local), cs[k].blockSize, Pooled(k)), p, a);
      }
    }
  }

  lemma HandsOutLast(c: P.Config, s: P.State, x: P.Act)
    requires P.Sized(c) && HandsOut(c, s, x)
    ensures x.t < |s.threads| && s.threads[x.t].local != []
  {}

  /** A box's storage is held where the box says. */
  lemma BoxHeld(w: World, i: nat)
    requires Paired(w) && i < |w.boxes|
    ensures var b := w.boxes[i]; PlaceOf(b) != Nowhere ==> b.addr in Held(w, PlaceOf(b))
  {
    hide Boxed, Held, PlaceOf;
    var b := w.boxes[i];
    BoxedRemove(w.boxes, i, PlaceOf(b), b.addr);
    if PlaceOf(b) != Nowhere { assert Held(w, PlaceOf(b))[b.addr] == Boxed(w.boxes, PlaceOf(b), b.addr); }
  }

  lemma FreeEnabled(c: P.Config, s: P.State, t: nat, b: Addr)
    requires P.Sized(c) && t < |s.threads| && s.threads[t].pc == P.Idle && b in s.live
    ensures P.Enabled(c, s, P.Free(t, b)) && P.Step(c, s, P.Free(t, b)).live == s.live - multiset{b}
  {}

  lemma DropPooled(cs: seq<P.Config>, w: World, t: nat, i: nat, p: Place, a: Addr)
    requires AllSized(cs) && i < |w.boxes| && |cs| == |w.pools| == |w.acts| && w.boxes[i].reclaim.Pooled?
    requires var k := w.boxes[i].reclaim.k; Outside(w, k, t) && w.boxes[i].addr in w.pools[k].live
    ensures DropBox(cs, w, t, i).bad == w.bad
    ensures Held(DropBox(cs, w, t, i), p)[a] == Held(w, p)[a] - One(w.boxes[i], p, a)
  {
    hide P.Step, P.Enabled, Without;
    var b := w.boxes[i];
    FreeEnabled(cs[b.reclaim.k], w.pools[b.reclaim.k], t, b.addr);
  }

  lemma DropHeap(cs: seq<P.Config>, w: World, t: nat, i: nat, p: Place, a: Addr)
    requires AllSized(cs) && i < |w.boxes| && |cs| == |w.pools| == |w.acts| && w.boxes[i].reclaim.Heap?
    requires w.boxes[i].size > 0 ==> w.boxes[i].addr in w.heap
    ensures DropBox(cs, w, t, i).bad == w.bad
    ensures p != Nowhere ==> Held(DropBox(cs, w, t, i), p)[a] == Held(w, p)[a] - One(w.boxes[i], p, a)
  {
    hide TakeStep, Without;
  }

  /** Dropping a box returns exactly its storage to the place it came from, and the free is enabled. */
  lemma DropReturns(cs: seq<P.Config>, w: World, t: nat, i: nat, p: Place, a: Addr)
    requires AllSized(cs) && Paired(w) && i < |w.boxes| && |cs| == |w.pools| == |w.acts| && p != Nowhere
    requires w.boxes[i].reclaim.Pooled? ==> Outside(w, w.boxes[i].reclaim.k, t)
    ensures !DropBox(cs, w, t, i).bad
    ensures Held(DropBox(cs, w, t, i), p)[a] == Held(w, p)[a] - One(w.boxes[i], p, a)
  {
    hide Boxed, DropBox, One;
    BoxHeld(w, i);
    if w.boxes[i].reclaim.Pooled? { DropPooled(cs, w, t, i, p, a); } else { DropHeap(cs, w, t, i, p, a); }
  }

  lemma DropPaired(cs: seq<P.Config>, w: World, t: nat, i: nat)
    requires AllSized(cs) && Paired(w) && i < |w.boxes| && |cs| == |w.pools| == |w.acts|
    requires w.boxes[i].reclaim.Pooled? ==> Outside(w, w.boxes[i].reclaim.k, t)
    ensures Paired(DropBox(cs, w, t, i))
  {
    hide Boxed, Held, One, P.Step, P.Enabled;
    var r := DropBox(cs, w, t, i);
    DropReturns(cs, w, t, i, OnHeap, 0);
    forall p, a | p != Nowhere ensures Held(r, p)[a] == Boxed(r.boxes, p, a) {
      DropReturns(cs, w, t, i, p, a);
      BoxedRemove(w.boxes, i, p, a);
    }
  }

  lemma TakeStepDriven(cs: seq<P.Config>, threads: nat, w: World, k: nat, x: P.Act)
    requires AllSized(cs) && Driven(cs, threads, w) && k < |cs|
    ensures Driven(cs, threads, TakeStep(cs, w, k, x))
  {
    hide P.Step;
    assert (w.acts[k] + [x])[..|w.acts[k]|] == w.acts[k];
  }

  lemma StepKeeps(cs: seq<P.Config>, threads: nat, w: World, op: Op)
    requires AllSized(cs) && Paired(w) && Driven(cs, threads, w)
    ensures Paired(Step(cs, w, op)) && Driven(cs, threads, Step(cs, w, op))
  {
    hide Paired, P.Run, P.Step, P.Enabled, HandsOut;
    match op
    case MakeHeap(a, size) => MakeHeapPaired(w, a, size, Step(cs, w, op));
    case PoolStep(k, x) =>
      if k < |cs| && !x.Free? {
        PoolStepPaired(cs, w, k, x);
        TakeStepDriven(cs, threads, w, k, x);
      }
    case Drop(t, i) =>
      if i < |w.boxes| && (w.boxes[i].reclaim.Pooled? ==> Outside(w, w.boxes[i].reclaim.k, t)) {
        DropPaired(cs, w, t, i);
        var b := w.boxes[i];
        if b.reclaim.Pooled? {
          var w1 := w.(boxes := Without(w.boxes, i), destroyed := w.destroyed + 1);
          TakeStepDriven(cs, threads, w1, b.reclaim.k, P.Free(t, b.addr));
        }
      }
  }

  lemma InitKeeps(cs: seq<P.Config>, threads: nat)
    requires AllSized(cs)
    ensures Paired(Init(cs, threads)) && Driven(cs, threads, Init(cs, threads))
  {}

  /**
    Over every interleaving of boxes made and dropped by any threads: each pool runs by its own steps,
    every free it is asked for is of a live block, its live blocks and the heap's are exactly those the
    boxes own, and no reclaim finds its storage missing.
   */
  lemma {:induction false} EveryReclaimPaired(cs: seq<P.Config>, threads: nat, ops: seq<Op>)
    requires AllSized(cs)
    ensures Paired(Run(cs, threads, ops)) && Driven(cs, threads, Run(cs, threads, ops))
  {
    hide Paired, Driven, Step;
    if ops == [] {
      InitKeeps(cs, threads);
    } else {
      EveryReclaimPaired(cs, threads, ops[..|ops| - 1]);
      StepKeeps(cs, threads, Run(cs, threads, ops[..|ops| - 1]), ops[|ops| - 1]);
    }
  }

  /** No two boxes share a pooled block: their messages lie in disjoint memory. */
  lemma BoxesDisjoint(cs: seq<P.Config>, threads: nat, ops: seq<Op>, i: nat, j: nat, k: nat)
    requires AllSized(cs) && k < |cs|
    requires var bs := Run(cs, threads, ops).boxes;
             i < j < |bs| && bs[i].reclaim == Pooled(k) && bs[j].reclaim == Pooled(k)
    ensures var bs := Run(cs, threads, ops).boxes;
            bs[i].addr + cs[k].blockSize <= bs[j].addr || bs[j].addr + cs[k].blockSize <= bs[i].addr
  {
    hide Run, P.Run;
    EveryReclaimPaired(cs, threads, ops);
    var w := Run(cs, threads, ops);
    var a, b := w.boxes[i].addr, w.boxes[j].addr;
    BoxHeld(w, i);
    BoxHeld(w, j);
    T.EveryBlockOwnedOnce(cs[k], threads, w.acts[k], a);
    T.EveryBlockOwnedOnce(cs[k], threads, w.acts[k], b);
    assert Held(w, InPool(k))[a] == Boxed(w.boxes, InPool(k), a);
    if a == b { BoxedTwice(w.boxes, i, j, k); }
    T.BlocksLaidOut(cs[k], threads, w.acts[k], a, b);
  }

  lemma BoxedTwice(bs: seq<MsgBox>, i: nat, j: nat, k: nat)
    requires i < j < |bs| && bs[i].reclaim == Pooled(k) && bs[j].reclaim == Pooled(k) && bs[i].addr == bs[j].addr
    ensures Boxed(bs, InPool(k), bs[i].addr) >= 2
  {
    var a := bs[i].addr;
    BoxedRemove(bs, j, InPool(k), a);
    assert Without(bs, j)[i] == bs[i];
    BoxedRemove(Without(bs, j), i, InPool(k), a);
  }

  /** When the last box is gone the heap and every pool have everything back. */
  lemma NothingLost(cs: seq<P.Config>, threads: nat, ops: seq<Op>, p: Place)
    requires AllSized(cs) && Run(cs, threads, ops).boxes == [] && p != Nowhere
    ensures Held(Run(cs, threads, ops), p) == multiset{}
  {
    hide Run, Driven;
    EveryReclaimPaired(cs, threads, ops);
    var w := Run(cs, threads, ops);
    assert forall a :: Held(w, p)[a] == Boxed(w.boxes, p, a) == 0;
  }
}
