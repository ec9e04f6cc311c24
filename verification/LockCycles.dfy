/**
  Which call relations can deadlock: with every actor on a thread of its own, some run whose
  fast_send calls follow the relation leaves threads waiting for each other for ever if and only if
  the relation has a cycle.
 */
module LockCycles {
  import opened LockProtocol

  type Calls = set<(ActorId, ActorId)>

  // ----- paths and cycles

  predicate Path(rel: Calls, p: seq<ActorId>) {
    p != [] && forall i :: 0 <= i < |p| - 1 ==> (p[i], p[i + 1]) in rel
  }

  predicate Cycle(rel: Calls, p: seq<ActorId>) { Path(rel, p) && |p| >= 2 && p[0] == p[|p| - 1] }

  ghost predicate HasCycle(rel: Calls) { exists p :: Cycle(rel, p) }

  lemma JoinPaths(rel: Calls, p: seq<ActorId>, q: seq<ActorId>)
    requires Path(rel, p) && Path(rel, q) && p[|p| - 1] == q[0]
    ensures Path(rel, p + q[1..])
  {
    var r := p + q[1..];
    forall i | 0 <= i < |r| - 1 ensures (r[i], r[i + 1]) in rel {
      if i >= |p| - 1 { assert (q[i - |p| + 1], q[i - |p| + 2]) in rel; }
    }
  }

  lemma SubPath(rel: Calls, p: seq<ActorId>, i: nat, j: nat)
    requires Path(rel, p) && i < j <= |p|
    ensures Path(rel, p[i..j])
  {
    var q := p[i..j];
    forall k | 0 <= k < |q| - 1 ensures (q[k], q[k + 1]) in rel {
      assert (p[i + k], p[i + k + 1]) in rel;
    }
  }

  /** More values than places: one place is taken twice. */
  lemma {:induction false} Pigeons(p: seq<nat>, n: nat) returns (i: nat, j: nat)
    requires |p| > n && forall k :: 0 <= k < |p| ==> p[k] < n
    ensures i < j < |p| && p[i] == p[j]
    decreases n
  {
    var m := |p| - 1;
    if k :| 0 <= k < m && p[k] == p[m] {
      return k, m;
    }
    var q := seq(m, k requires 0 <= k < m => if p[k] == n - 1 then p[m] else p[k]);
    i, j := Pigeons(q, n - 1);
  }

  // ----- runs that follow the relation

  ghost predicate FollowsCall(rel: Calls, s: State, x: Act) {
    x.Call? && Enabled(s, x) && s.threads[x.t].stack != [] ==> (s.threads[x.t].Top().actor, x.b) in rel
  }

  ghost predicate Follows(rel: Calls, s: State, xs: seq<Act>) {
    forall i :: 0 <= i < |xs| ==> FollowsCall(rel, Run(s, xs[..i]), xs[i])
  }

  /** Each frame of a thread was called from the one below, and so was the one it waits for. */
  ghost predicate Chained(rel: Calls, th: Thread) {
    && (forall i :: 0 <= i < |th.stack| - 1 ==> (th.stack[i].actor, th.stack[i + 1].actor) in rel)
    && (th.waiting.Some? && th.stack != [] ==> (th.Top().actor, th.waiting.value.actor) in rel)
  }

  ghost predicate AllChained(rel: Calls, s: State) {
    forall t :: 0 <= t < |s.threads| ==> Chained(rel, s.threads[t])
  }

  lemma ThreadChained(rel: Calls, s: State, x: Act)
    requires Enabled(s, x) && Chained(rel, s.threads[x.t]) && FollowsCall(rel, s, x)
    ensures Chained(rel, Apply(s, x).threads[x.t])
  {}

  lemma StepChained(rel: Calls, s: State, x: Act)
    requires AllChained(rel, s) && FollowsCall(rel, s, x)
    ensures AllChained(rel, Step(s, x))
  {
    hide Chained;
    if Enabled(s, x) {
      assert forall t :: 0 <= t < |s.threads| && t != x.t ==> Step(s, x).threads[t] == s.threads[t];
      ThreadChained(rel, s, x);
    }
  }

  lemma {:induction false} RunChained(rel: Calls, s: State, xs: seq<Act>)
    requires AllChained(rel, s) && Follows(rel, s, xs)
    ensures AllChained(rel, Run(s, xs))
  {
    hide AllChained, FollowsCall, Step;
    if xs != [] {
      var n := |xs| - 1;
      assert forall i :: 0 <= i < n ==> xs[..n][..i] == xs[..i] && xs[..n][i] == xs[i];
      RunChained(rel, s, xs[..n]);
      StepChained(rel, Run(s, xs[..n]), xs[n]);
    }
  }

  // ----- a deadlock has a cycle

  /** The actor a blocked thread waits for. */
  function Target(s: State, t: nat): ActorId
    requires Blocked(s, t)
  {
    s.threads[t].waiting.value.actor
  }

  function Actors(fs: seq<Frame>): (r: seq<ActorId>)
    ensures |r| == |fs| && forall k :: 0 <= k < |fs| ==> r[k] == fs[k].actor
  {
    if fs == [] then [] else [fs[0].actor] + Actors(fs[1..])
  }

  /** From what a thread waits for, the calls of its holder lead to what the holder waits for. */
  lemma HolderPath(rel: Calls, s: State, t: nat) returns (p: seq<ActorId>)
    requires Inv(s) && AllChained(rel, s) && Blocked(s, t) && Blocked(s, Holder(s, t))
    ensures Path(rel, p) && |p| >= 2 && p[0] == Target(s, t) && p[|p| - 1] == Target(s, Holder(s, t))
  {
    hide NoRepeat, Described, QueuedAtHome, Waits, FramesLocked;
    var u, a := Holder(s, t), Target(s, t);
    var i: nat :| IsFrame(s, u, i) && FrameAt(s, u, i).actor == a;
    var th := s.threads[u];
    assert Chained(rel, th);
    p := Actors(th.stack[i..]) + [Target(s, u)];
    forall k | 0 <= k < |p| - 1 ensures (p[k], p[k + 1]) in rel {
      if k < |th.stack| - i - 1 { assert (th.stack[i + k].actor, th.stack[i + k + 1].actor) in rel; }
    }
  }

  /** Among stuck threads the path never ends. */
  lemma {:induction false} LongPath(rel: Calls, s: State, d: set<nat>, t: nat, n: nat) returns (p: seq<ActorId>)
    requires Inv(s) && AllChained(rel, s) && Stuck(s, d) && t in d
    ensures Path(rel, p) && |p| > n && p[0] == Target(s, t)
    decreases n
  {
    hide Inv, AllChained, Blocked, Path;
    if n == 0 {
      p := [Target(s, t)];
      assert Path(rel, p) by { OnePath(rel, Target(s, t)); }
    } else {
      var u := Holder(s, t);
      var q := LongPath(rel, s, d, u, n - 1);
      var h := HolderPath(rel, s, t);
      p := h + q[1..];
      JoinPaths(rel, h, q);
    }
  }

  lemma OnePath(rel: Calls, a: ActorId)
    ensures Path(rel, [a])
  {}

  /** The relation is between the first `n` actors. */
  ghost predicate Among(rel: Calls, n: nat) { forall a, b :: (a, b) in rel ==> a < n && b < n }

  lemma DeadlockHasCycle(n: nat, rel: Calls, xs: seq<Act>, d: set<nat>)
    requires Among(rel, n) && Follows(rel, OwnThreads(n), xs) && Stuck(Run(OwnThreads(n), xs), d)
    ensures HasCycle(rel)
  {
    hide Run, Inv, Follows, AllChained;
    var s := Run(OwnThreads(n), xs);
    InitInv(n, seq(n, i => i));
    RunKeeps(OwnThreads(n), xs);
    InitChained(rel, n);
    RunChained(rel, OwnThreads(n), xs);
    var t :| t in d;
    var p := LongPath(rel, s, d, t, n + 1);
    PathAmong(rel, n, p);
    var i, j := Pigeons(p, n);
    SubPath(rel, p, i, j + 1);
    assert Cycle(rel, p[i..j + 1]);
  }

  lemma PathAmong(rel: Calls, n: nat, p: seq<ActorId>)
    requires Among(rel, n) && Path(rel, p) && |p| >= 2
    ensures forall k :: 0 <= k < |p| ==> p[k] < n
  {
    forall k | 0 <= k < |p| ensures p[k] < n {
      if k < |p| - 1 { assert (p[k], p[k + 1]) in rel; } else { assert (p[k - 1], p[k]) in rel; }
    }
  }

  /** Every actor's run loop has a thread of its own. */
  function OwnThreads(n: nat): State { Init(n, seq(n, i => i)) }

  lemma InitChained(rel: Calls, n: nat)
    ensures AllChained(rel, OwnThreads(n))
  {}

  // ----- a cycle has a deadlock

  /** All actors of the path but its last are different. */
  predicate Simple(p: seq<ActorId>) { forall i, j :: 0 <= i < j < |p| - 1 ==> p[i] != p[j] }

  /** A shortest way round. */
  lemma {:induction false} SimpleCycle(rel: Calls, p: seq<ActorId>) returns (q: seq<ActorId>)
    requires Cycle(rel, p)
    ensures Cycle(rel, q) && Simple(q)
    decreases |p|
  {
    if i, j :| 0 <= i < j < |p| - 1 && p[i] == p[j] {
      SubPath(rel, p, i, j + 1);
      q := SimpleCycle(rel, p[i..j + 1]);
    } else {
      q := p;
    }
  }

  /** Actor `a` of the ring handles a queued message on its own thread. */
  predicate Handling(s: State, a: ActorId) {
    a < |s.threads| && s.threads[a] == Thread([Frame(a, Queued(None), None)], None) && a in s.locks && s.locks[a] == a
  }

  /** ... and waits to call `b`. */
  predicate Calling(s: State, a: ActorId, b: ActorId) {
    && a < |s.threads| && a in s.locks && s.locks[a] == a
    && s.threads[a] == Thread([Frame(a, Queued(None), None)], Some(Frame(b, Fast(Some(a)), None)))
  }

  /** `n` actors on their own threads. */
  predicate Wide(s: State, n: nat) {
    |s.threads| == n && |s.cells| == n && |s.runner| == n && forall a :: 0 <= a < n ==> s.runner[a] == a
  }

  /** The first `i` actors of the ring handle a message; the others are idle and unlocked. */
  ghost predicate Started(s: State, n: nat, p: seq<ActorId>, i: nat)
    requires i < |p|
  {
    && Wide(s, n)
    && (forall k :: 0 <= k < i ==> Handling(s, p[k]))
    && (forall k :: i <= k < |p| - 1 ==> p[k] < n && s.threads[p[k]].Idle() && p[k] !in s.locks)
  }

  /** The first `i` actors of the ring call the next one; the others still handle their message. */
  ghost predicate Called(s: State, n: nat, p: seq<ActorId>, i: nat)
    requires i < |p|
  {
    && Wide(s, n)
    && (forall k :: 0 <= k < i ==> Calling(s, p[k], p[k + 1]))
    && (forall k :: i <= k < |p| - 1 ==> Handling(s, p[k]))
  }

  lemma StartOne(s: State, n: nat, p: seq<ActorId>, i: nat)
    requires Simple(p) && i < |p| - 1 && Started(s, n, p, i)
    ensures Started(Step(Step(s, Pop(p[i], p[i], None)), Acquire(p[i])), n, p, i + 1)
  {
    var a := p[i];
    var s1 := Step(s, Pop(a, a, None));
    assert s1.threads[a] == Thread([], Some(Frame(a, Queued(None), None))) && s1.locks == s.locks;
    var r := Step(s1, Acquire(a));
    assert r.threads[a].stack == [] + [Frame(a, Queued(None), None)] == [Frame(a, Queued(None), None)];
    assert r.threads == s.threads[a := Thread([Frame(a, Queued(None), None)], None)] && r.locks == s.locks[a := a];
  }

  lemma CallOne(s: State, n: nat, p: seq<ActorId>, i: nat)
    requires Simple(p) && i < |p| - 1 && Called(s, n, p, i) && p[i + 1] < n
    ensures Called(Step(s, Call(p[i], p[i + 1])), n, p, i + 1)
  {
    var a := p[i];
    assert Handling(s, a);
    var r := Step(s, Call(a, p[i + 1]));
    var f := Frame(p[i + 1], Fast(Some(a)), None);
    assert r.threads == s.threads[a := Thread([Frame(a, Queued(None), None)], Some(f))];
  }

  lemma FollowsAdd(rel: Calls, s: State, xs: seq<Act>, x: Act)
    requires Follows(rel, s, xs) && FollowsCall(rel, Run(s, xs), x)
    ensures Follows(rel, s, xs + [x]) && Run(s, xs + [x]) == Step(Run(s, xs), x)
  {
    hide FollowsCall, Step;
    var ys := xs + [x];
    assert ys[..|xs|] == xs;
    assert forall i :: 0 <= i < |xs| ==> ys[..i] == xs[..i] && ys[i] == xs[i];
  }

  lemma {:induction false} StartRing(n: nat, rel: Calls, p: seq<ActorId>, i: nat) returns (xs: seq<Act>)
    requires Among(rel, n) && Cycle(rel, p) && Simple(p) && i < |p|
    ensures Follows(rel, OwnThreads(n), xs) && Started(Run(OwnThreads(n), xs), n, p, i)
  {
    hide Step, Started, FollowsCall, Path, Among;
    if i == 0 {
      xs := [];
      PathAmong(rel, n, p);
      StartNone(n, p);
    } else {
      var a := p[i - 1];
      var ys := StartRing(n, rel, p, i - 1);
      var s := Run(OwnThreads(n), ys);
      StartOne(s, n, p, i - 1);
      FollowsOther(rel, s, Pop(a, a, None));
      FollowsAdd(rel, OwnThreads(n), ys, Pop(a, a, None));
      var zs := ys + [Pop(a, a, None)];
      FollowsOther(rel, Run(OwnThreads(n), zs), Acquire(a));
      FollowsAdd(rel, OwnThreads(n), zs, Acquire(a));
      xs := zs + [Acquire(a)];
    }
  }

  lemma FollowsOther(rel: Calls, s: State, x: Act)
    requires !x.Call?
    ensures FollowsCall(rel, s, x)
  {}

  lemma StartNone(n: nat, p: seq<ActorId>)
    requires p != [] && forall k :: 0 <= k < |p| ==> p[k] < n
    ensures Started(Run(OwnThreads(n), []), n, p, 0)
  {}

  lemma {:induction false} CallRing(n: nat, rel: Calls, p: seq<ActorId>, i: nat) returns (xs: seq<Act>)
    requires Among(rel, n) && Cycle(rel, p) && Simple(p) && i < |p|
    ensures Follows(rel, OwnThreads(n), xs) && Called(Run(OwnThreads(n), xs), n, p, i)
  {
    hide Step, FollowsCall, Among, Run, Follows, Handling, Calling, Wide;
    if i == 0 {
      xs := StartRing(n, rel, p, |p| - 1);
    } else {
      var a, b := p[i - 1], p[i];
      var ys := CallRing(n, rel, p, i - 1);
      var s := Run(OwnThreads(n), ys);
      PathAmong(rel, n, p);
      CallOne(s, n, p, i - 1);
      assert (p[i - 1], p[i - 1 + 1]) in rel;
      assert Handling(s, a);
      FollowsHandling(rel, s, a, b);
      FollowsAdd(rel, OwnThreads(n), ys, Call(a, b));
      xs := ys + [Call(a, b)];
    }
  }

  lemma FollowsHandling(rel: Calls, s: State, a: ActorId, b: ActorId)
    requires Handling(s, a) && (a, b) in rel
    ensures FollowsCall(rel, s, Call(a, b))
  {}

  lemma CycleDeadlocks(n: nat, rel: Calls, p: seq<ActorId>) returns (xs: seq<Act>, d: set<nat>)
    requires Among(rel, n) && Cycle(rel, p)
    ensures Follows(rel, OwnThreads(n), xs) && Stuck(Run(OwnThreads(n), xs), d)
  {
    hide Run, Follows, Path, Among, Wide;
    var q := SimpleCycle(rel, p);
    var m := |q| - 1;
    xs := CallRing(n, rel, q, m);
    var s := Run(OwnThreads(n), xs);
    d := set k | 0 <= k < m :: q[k];
    assert q[0] in d;
    forall t | t in d ensures Blocked(s, t) && Holder(s, t) in d {
      var k :| 0 <= k < m && q[k] == t;
      assert Calling(s, q[k], q[k + 1]);
      if k + 1 < m { assert Calling(s, q[k + 1], q[k + 2]); } else { assert Calling(s, q[0], q[1]); }
    }
  }

  /**
    With every actor on its own thread, some run whose calls follow the relation leaves a set of threads
    waiting for each other, never to step again, if and only if the relation has a cycle.
   */
  lemma DeadlockIffCycle(n: nat, rel: Calls)
    requires Among(rel, n)
    ensures (exists xs, d :: Follows(rel, OwnThreads(n), xs) && Stuck(Run(OwnThreads(n), xs), d)) <==> HasCycle(rel)
  {
    hide Run, Follows, Stuck, Among, Cycle;
    if xs, d :| Follows(rel, OwnThreads(n), xs) && Stuck(Run(OwnThreads(n), xs), d) {
      DeadlockHasCycle(n, rel, xs, d);
    }
    if p :| Cycle(rel, p) {
      var xs, d := CycleDeadlocks(n, rel, p);
    }
  }
}
