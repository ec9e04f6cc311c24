/**
  An actor's mailbox and dispatch: the two-tier blocking queue, the cached handler lookup, and the
  run loop that drains the queue one message or one whole batch at a time.

  The schedule is an input: `arr` is every message ever queued, in arrival order, and `due(i)` how many
  have arrived when the loop makes its i-th pop. A pop of an empty queue waits for the next arrival;
  when there is none the loop waits for ever, which ends the method.
 */
module Mailbox {

  type Type = nat
  type Handler = nat

  datatype Option<T> = None | Some(value: T)

  /** `quits`: the `terminated` flag is set by the time the message has been handled, by its handler or by
      a fast_send that ran since the message before it. */
  datatype Msg = Msg(n: nat, kind: Type, quits: bool)

  const Slots: nat := 2048
  const ShutdownId: nat := 5

  type Id = i: int | 0 <= i < 2048

  /** Message ids by type, and the handlers registered by type. */
  datatype Registry = Registry(id: Type -> Id, handlers: map<Type, Handler>)

  function Lookup(reg: Registry, t: Type): Option<Handler> {
    if t in reg.handlers then Some(reg.handlers[t]) else None
  }

  // ----- call_handler

  /** handler_cache and dont_have_handler. */
  datatype Caches = Caches(have: seq<Option<Handler>>, lack: seq<bool>)

  predicate Shaped(cs: Caches) { |cs.have| == Slots && |cs.lack| == Slots }

  function NoCache(): (cs: Caches)
    ensures Shaped(cs)
  {
    Caches(seq(Slots, _ => None), seq(Slots, _ => false))
  }

  /** Which handler runs for a message of type `t`, and the caches afterwards. */
  function Dispatch(reg: Registry, cs: Caches, t: Type): (r: (Caches, Option<Handler>))
    requires Shaped(cs)
    ensures Shaped(r.0)
  {
    var i := reg.id(t);
    if cs.have[i].Some? then (cs, cs.have[i])
    else if cs.lack[i] then (cs, None)
    else if t !in reg.handlers then (cs.(lack := cs.lack[i := true]), None)
    else (cs.(have := cs.have[i := Some(reg.handlers[t])]), Some(reg.handlers[t]))
  }

  function CachesAfter(reg: Registry, cs: Caches, ts: seq<Type>): (r: Caches)
    requires Shaped(cs)
    ensures Shaped(r)
    decreases |ts|
  {
    if ts == [] then cs else Dispatch(reg, CachesAfter(reg, cs, ts[..|ts| - 1]), ts[|ts| - 1]).0
  }

  /** The handlers that run for a sequence of messages. */
  function Ran(reg: Registry, cs: Caches, ts: seq<Type>): (r: seq<Option<Handler>>)
    requires Shaped(cs)
    decreases |ts|
  {
    if ts == [] then []
    else
      var n := |ts| - 1;
      Ran(reg, cs, ts[..n]) + [Dispatch(reg, CachesAfter(reg, cs, ts[..n]), ts[n]).1]
  }

  /** Looking every type up in the type map, without caches. */
  function Lookups(reg: Registry, ts: seq<Type>): seq<Option<Handler>> {
    if ts == [] then [] else Lookups(reg, ts[..|ts| - 1]) + [Lookup(reg, ts[|ts| - 1])]
  }

  /** Types that share an id share their handler. */
  ghost predicate IdsSuffice(reg: Registry) {
    forall t, u :: reg.id(t) == reg.id(u) ==> Lookup(reg, t) == Lookup(reg, u)
  }

  /** What the caches hold is what the map says of every type with that id. */
  ghost predicate Agrees(reg: Registry, cs: Caches)
    requires Shaped(cs)
  {
    forall t :: (cs.have[reg.id(t)].Some? ==> cs.have[reg.id(t)] == Lookup(reg, t))
             && (cs.lack[reg.id(t)] ==> Lookup(reg, t) == None)
  }

  lemma DispatchAgrees(reg: Registry, cs: Caches, t: Type)
    requires Shaped(cs) && Agrees(reg, cs) && IdsSuffice(reg)
    ensures Dispatch(reg, cs, t).1 == Lookup(reg, t) && Agrees(reg, Dispatch(reg, cs, t).0)
  {}

  lemma {:induction false} RanIsLookups(reg: Registry, ts: seq<Type>)
    requires IdsSuffice(reg)
    ensures Ran(reg, NoCache(), ts) == Lookups(reg, ts) && Agrees(reg, CachesAfter(reg, NoCache(), ts))
  {
    hide IdsSuffice, Dispatch, Agrees;
    if ts == [] {
      NoCacheAgrees(reg);
    } else {
      var n := |ts| - 1;
      RanIsLookups(reg, ts[..n]);
      DispatchAgrees(reg, CachesAfter(reg, NoCache(), ts[..n]), ts[n]);
    }
  }

  lemma NoCacheAgrees(reg: Registry)
    ensures Agrees(reg, NoCache())
  {}

  /** After a message of type `t`, one of type `u` with the same id gets t's handler. */
  lemma SecondGetsFirst(reg: Registry, t: Type, u: Type)
    requires reg.id(t) == reg.id(u)
    ensures Ran(reg, NoCache(), [t, u]) == [Lookup(reg, t), Lookup(reg, t)]
    ensures Lookups(reg, [t, u]) == [Lookup(reg, t), Lookup(reg, u)]
  {
    assert [t, u][..1] == [t] && [t][..0] == [];
    assert Ran(reg, NoCache(), [t]) == [Lookup(reg, t)];
    assert Lookups(reg, [t]) == [Lookup(reg, t)];
  }

  /** The caches never change which handler runs. */
  ghost predicate Transparent(reg: Registry) {
    forall ts: seq<Type> :: Ran(reg, NoCache(), ts) == Lookups(reg, ts)
  }

  lemma SufficientIds(reg: Registry)
    requires IdsSuffice(reg)
    ensures Transparent(reg)
  {
    hide Ran, Lookups, IdsSuffice;
    forall ts: seq<Type> ensures Ran(reg, NoCache(), ts) == Lookups(reg, ts) { RanIsLookups(reg, ts); }
  }

  lemma NecessaryIds(reg: Registry, t: Type, u: Type)
    requires Transparent(reg) && reg.id(t) == reg.id(u)
    ensures Lookup(reg, t) == Lookup(reg, u)
  {
    hide Ran, Lookups, Lookup;
    SecondGetsFirst(reg, t, u);
    var ts: seq<Type> := [t, u];
    assert Ran(reg, NoCache(), ts) == Lookups(reg, ts);
    assert Lookups(reg, ts)[1] == Lookup(reg, u);
  }

  /** The caches are transparent for every sequence of messages exactly when types that share an id
      share their handler (in particular when ids are distinct). */
  lemma CachesTransparentIff(reg: Registry)
    ensures Transparent(reg) <==> IdsSuffice(reg)
  {
    hide Transparent;
    if IdsSuffice(reg) { SufficientIds(reg); }
    if Transparent(reg) {
      forall t, u | reg.id(t) == reg.id(u) ensures Lookup(reg, t) == Lookup(reg, u) { NecessaryIds(reg, t, u); }
    }
  }

  /** Registering type `t` late keeps the caches right exactly when its id is not cached, or cached with
      the same handler. */
  lemma LateRegistrationIff(reg: Registry, cs: Caches, t: Type, h: Handler)
    requires Shaped(cs) && Agrees(reg, cs) && (forall u :: reg.id(u) == reg.id(t) ==> u == t)
    ensures var late := reg.(handlers := reg.handlers[t := h]); var i := reg.id(t);
            Agrees(late, cs) <==> !cs.lack[i] && (cs.have[i].Some? ==> cs.have[i] == Some(h))
  {
    var late := reg.(handlers := reg.handlers[t := h]);
    var i := reg.id(t);
    assert Lookup(late, t) == Some(h) && late.id(t) == i;
    if !cs.lack[i] && (cs.have[i].Some? ==> cs.have[i] == Some(h)) {
      forall u ensures (cs.have[late.id(u)].Some? ==> cs.have[late.id(u)] == Lookup(late, u))
                    && (cs.lack[late.id(u)] ==> Lookup(late, u) == None) {
        if u != t { assert Lookup(late, u) == Lookup(reg, u); }
      }
    }
  }

  // ----- the queue

  class BQueue {
    const cap: nat
    var ring: seq<Msg>
    var overflow: seq<Msg>

    ghost predicate Valid() reads this { |ring| <= cap }

    ghost function Contents(): seq<Msg> reads this { ring + overflow }

    constructor (cap: nat)
      ensures this.cap == cap && Valid() && Contents() == []
    {
      this.cap := cap;
      ring, overflow := [], [];
    }

    method Push(x: Msg)
      requires Valid()
      modifies this
      ensures Valid() && Contents() == old(Contents()) + [x]
    {
      if overflow != [] || |ring| == cap { overflow := overflow + [x]; } else { ring := ring + [x]; }
    }

    method IsEmpty() returns (b: bool)
      ensures b <==> Contents() == []
    {
      b := ring == [] && overflow == [];
    }

    method Pop() returns (x: Msg, last: bool)
      requires Valid() && Contents() != []
      modifies this
      ensures Valid() && old(Contents()) == [x] + Contents()
      ensures last <==> Contents() == []
    {
      if ring != [] { x := ring[0]; ring := ring[1..]; } else { x := overflow[0]; overflow := overflow[1..]; }
      last := ring == [] && overflow == [];
    }

    method PopBatch() returns (out: seq<Msg>)
      requires Valid() && Contents() != []
      modifies this
      ensures Valid() && out == old(Contents()) && Contents() == []
    {
      out := [];
      while ring != []
        invariant Valid() && out + ring + overflow == old(Contents())
        decreases |ring|
      {
        out := out + [ring[0]];
        ring := ring[1..];
      }
      while overflow != []
        invariant Valid() && ring == [] && out + overflow == old(Contents())
        decreases |overflow|
      {
        out := out + [overflow[0]];
        overflow := overflow[1..];
      }
    }
  }

  // ----- the run loop

  predicate Stops(reg: Registry, m: Msg) { reg.id(m.kind) == ShutdownId || m.quits }

  /** The messages through the first Shutdown or termination. */
  function Through(reg: Registry, ms: seq<Msg>): seq<Msg> {
    if ms == [] then [] else if Stops(reg, ms[0]) then [ms[0]] else [ms[0]] + Through(reg, ms[1..])
  }

  function Kinds(ms: seq<Msg>): (r: seq<Type>)
    ensures |r| == |ms|
  {
    if ms == [] then [] else Kinds(ms[..|ms| - 1]) + [ms[|ms| - 1].kind]
  }

  /** No message stops the loop. */
  ghost predicate Runs(reg: Registry, ms: seq<Msg>) { forall m :: m in ms ==> !Stops(reg, m) }

  lemma {:induction false} ThroughAppend(reg: Registry, a: seq<Msg>, b: seq<Msg>)
    requires Runs(reg, a)
    ensures Through(reg, a + b) == a + Through(reg, b)
  {
    if a == [] {
      assert a + b == b && a + Through(reg, b) == Through(reg, b);
    } else {
      assert a[0] in a;
      assert (a + b)[1..] == a[1..] + b && (a + b)[0] == a[0];
      ThroughAppend(reg, a[1..], b);
      assert [a[0]] + (a[1..] + Through(reg, b)) == a + Through(reg, b);
    }
  }

  /** The first messages, ending with one that stops the loop. */
  lemma ThroughStop(reg: Registry, ms: seq<Msg>, k: nat)
    requires k < |ms| && Runs(reg, ms[..k]) && Stops(reg, ms[k])
    ensures Through(reg, ms) == ms[..k + 1]
  {
    ThroughAppend(reg, ms[..k], ms[k..]);
    assert ms[..k] + ms[k..] == ms && Through(reg, ms[k..]) == [ms[k]];
    assert ms[..k] + [ms[k]] == ms[..k + 1];
  }

  lemma ThroughAll(reg: Registry, ms: seq<Msg>)
    requires Runs(reg, ms)
    ensures Through(reg, ms) == ms
  {
    ThroughAppend(reg, ms, []);
    assert ms + [] == ms;
  }

  lemma RunsNext(reg: Registry, ms: seq<Msg>, k: nat)
    requires k < |ms| && Runs(reg, ms[..k]) && !Stops(reg, ms[k])
    ensures Runs(reg, ms[..k + 1])
  {
    assert ms[..k + 1] == ms[..k] + [ms[k]];
  }

  /** Everything is handled up to the first message that is a Shutdown or terminates the actor, and all of it when
      there is none. */
  lemma {:induction false} ThroughFirstStop(reg: Registry, ms: seq<Msg>)
    ensures var h := Through(reg, ms);
            && h <= ms
            && (forall i :: 0 <= i < |h| - 1 ==> reg.id(h[i].kind) != 5 && !h[i].quits)
            && (h == ms || (h != [] && (reg.id(h[|h| - 1].kind) == 5 || h[|h| - 1].quits)))
  {
    if ms != [] && !Stops(reg, ms[0]) { ThroughFirstStop(reg, ms[1..]); }
  }

  lemma KindsNext(ms: seq<Msg>, k: nat)
    requires k < |ms|
    ensures Kinds(ms[..k + 1]) == Kinds(ms[..k]) + [ms[k].kind]
  {
    assert ms[..k + 1][..k] == ms[..k];
  }

  class Actor {
    const reg: Registry
    var caches: Caches
    var msgCnt: nat
    var terminated: bool
    ghost var ran: seq<Option<Handler>>   // the handler that ran for each message; None is process_message
    ghost var freed: seq<Msg>             // every message deleted, in order

    ghost predicate Valid() reads this { Shaped(caches) }

    constructor (reg: Registry)
      ensures this.reg == reg && Valid() && caches == NoCache() && msgCnt == 0
      ensures !terminated && ran == [] && freed == []
    {
      this.reg := reg;
      caches, msgCnt, terminated, ran, freed := NoCache(), 0, false, [], [];
    }

    method CallHandler(m: Msg) returns (called: bool)
      requires Valid()
      modifies this`caches, this`ran
      ensures Valid() && caches == Dispatch(reg, old(caches), m.kind).0
      ensures called == Dispatch(reg, old(caches), m.kind).1.Some?
      ensures ran == old(ran) + [Dispatch(reg, old(caches), m.kind).1]
    {
      var i := reg.id(m.kind);
      var f0 := caches.have[i];
      if f0.Some? { ran := ran + [f0]; return true; }
      if caches.lack[i] { ran := ran + [None]; return false; }
      if m.kind !in reg.handlers {
        caches := caches.(lack := caches.lack[i := true]);
        ran := ran + [None];
        return false;
      }
      var f := reg.handlers[m.kind];
      ran := ran + [Some(f)];
      caches := caches.(have := caches.have[i := Some(f)]);
      return true;
    }

    method ProcessMessageInternal(m: Msg)
      requires Valid()
      modifies this
      ensures Valid() && caches == Dispatch(reg, old(caches), m.kind).0
      ensures ran == old(ran) + [Dispatch(reg, old(caches), m.kind).1]
      ensures freed == old(freed) + [m] && msgCnt == old(msgCnt) + 1 && terminated == (old(terminated) || m.quits)
    {
      msgCnt := msgCnt + 1;
      var called := CallHandler(m);
      if m.quits { terminated := true; }
      freed := freed + [m];
    }

    /** The state of a loop that has handled `ms` since it started fresh. */
    ghost predicate Handled(ms: seq<Msg>)
      reads this
    {
      && Valid() && caches == CachesAfter(reg, NoCache(), Kinds(ms))
      && ran == Ran(reg, NoCache(), Kinds(ms)) && msgCnt == |ms|
    }
  }

  function Min(a: nat, b: nat): nat { if a <= b then a else b }

  /** Senders push until `target` messages have arrived, or there are no more. */
  method Arrive(q: BQueue, arr: seq<Msg>, from: nat, target: nat) returns (arrived: nat)
    requires q.Valid() && from <= |arr|
    modifies q
    ensures q.Valid() && from <= arrived <= |arr| && arrived >= Min(target, |arr|)
    ensures q.Contents() == old(q.Contents()) + arr[from..arrived]
  {
    arrived := from;
    while arrived < target && arrived < |arr|
      invariant q.Valid() && from <= arrived <= |arr|
      invariant q.Contents() == old(q.Contents()) + arr[from..arrived]
    {
      q.Push(arr[arrived]);
      assert arr[from..arrived + 1] == arr[from..arrived] + [arr[arrived]];
      arrived := arrived + 1;
    }
  }

  /** A pop: wait until the schedule's arrivals are in and the queue has something. */
  method Await(q: BQueue, arr: seq<Msg>, from: nat, due: nat) returns (arrived: nat, ready: bool)
    requires q.Valid() && from <= |arr|
    modifies q
    ensures q.Valid() && from <= arrived <= |arr|
    ensures q.Contents() == old(q.Contents()) + arr[from..arrived]
    ensures ready <==> q.Contents() != []
    ensures !ready ==> arrived == |arr|
  {
    var empty := q.IsEmpty();
    arrived := Arrive(q, arr, from, if empty && due <= from then from + 1 else due);
    var none := q.IsEmpty();
    ready := !none;
  }

  lemma HandledNext(reg: Registry, arr: seq<Msg>, k: nat)
    requires k < |arr|
    ensures var ks := Kinds(arr[..k]); var cs := CachesAfter(reg, NoCache(), ks);
            && CachesAfter(reg, NoCache(), Kinds(arr[..k + 1])) == Dispatch(reg, cs, arr[k].kind).0
            && Ran(reg, NoCache(), Kinds(arr[..k + 1])) == Ran(reg, NoCache(), ks) + [Dispatch(reg, cs, arr[k].kind).1]
  {
    hide Dispatch, Kinds;
    KindsNext(arr, k);
    var ks, js := Kinds(arr[..k]), Kinds(arr[..k + 1]);
    assert js[..|js| - 1] == ks && js[|js| - 1] == arr[k].kind;
  }

  /** Handle one message and move on, or stop. */
  method HandleOne(a: Actor, m: Msg, ghost arr: seq<Msg>, ghost k: nat) returns (stop: bool)
    requires k < |arr| && m == arr[k] && a.Handled(arr[..k]) && !a.terminated && Runs(a.reg, arr[..k])
    modifies a
    ensures a.Handled(arr[..k + 1]) && a.freed == old(a.freed) + [m]
    ensures stop <==> Stops(a.reg, m)
    ensures stop ==> Through(a.reg, arr) == arr[..k + 1]
    ensures !stop ==> !a.terminated && Runs(a.reg, arr[..k + 1])
  {
    hide Dispatch, Ran, CachesAfter, Kinds, Through, Runs;
    var isShutdown := a.reg.id(m.kind) == ShutdownId;
    HandledNext(a.reg, arr, k);
    a.ProcessMessageInternal(m);
    stop := isShutdown || a.terminated;
    if stop { ThroughStop(a.reg, arr, k); } else { RunsNext(a.reg, arr, k); }
  }

  ghost predicate Fresh(a: Actor, q: BQueue)
    reads a, q
  {
    a.Handled([]) && !a.terminated && a.freed == [] && q.Valid() && q.Contents() == []
  }

  /** The single drain: handles the arrivals in order through the first that stops it, for every
      schedule, and frees exactly the messages it popped, each once and in order. */
  method RunSingle(a: Actor, q: BQueue, arr: seq<Msg>, due: nat -> nat) returns (popped: nat, arrived: nat)
    requires Fresh(a, q)
    modifies a, q
    ensures a.Handled(Through(a.reg, arr)) && popped == |Through(a.reg, arr)|
    ensures popped <= arrived <= |arr| && a.freed == arr[..popped] && q.Contents() == arr[popped..arrived]
  {
    hide Ran, CachesAfter, Kinds, Through, Runs;
    popped, arrived := 0, 0;
    assert arr[..0] == [];
    RunsNothing(a.reg);
    while true
      invariant popped <= arrived <= |arr| && q.Valid() && q.Contents() == arr[popped..arrived]
      invariant a.Handled(arr[..popped]) && a.freed == arr[..popped]
      invariant !a.terminated && Runs(a.reg, arr[..popped])
      decreases |arr| - popped
    {
      var ready;
      ghost var was := arrived;
      arrived, ready := Await(q, arr, arrived, due(popped));
      assert arr[popped..was] + arr[was..arrived] == arr[popped..arrived];
      if !ready {
        assert arr[..popped] == arr;
        ThroughAll(a.reg, arr);
        return;
      }
      var m, last := q.Pop();
      assert m == arr[popped] && q.Contents() == arr[popped + 1..arrived];
      var stop := HandleOne(a, m, arr, popped);
      assert arr[..popped + 1] == arr[..popped] + [arr[popped]];
      popped := popped + 1;
      if stop { return; }
    }
  }

  lemma RunsNothing(reg: Registry)
    ensures Runs(reg, [])
  {}

  /** One batch: handle it in order; on a stop, free the rest of it unhandled. */
  method RunBatch(a: Actor, batch: seq<Msg>, ghost arr: seq<Msg>, ghost from: nat, ghost to: nat) returns (stop: bool)
    requires from <= to <= |arr| && batch == arr[from..to]
    requires a.Handled(arr[..from]) && !a.terminated && Runs(a.reg, arr[..from]) && a.freed == arr[..from]
    modifies a
    ensures a.freed == arr[..to]
    ensures stop ==> |Through(a.reg, arr)| <= to && a.Handled(Through(a.reg, arr))
    ensures !stop ==> a.Handled(arr[..to]) && !a.terminated && Runs(a.reg, arr[..to])
  {
    hide Ran, CachesAfter, Kinds, Through, Runs;
    var i := 0;
    stop := false;
    while i < |batch|
      invariant i <= |batch| && a.freed == arr[..from + i] && a.Handled(arr[..from + i])
      invariant !a.terminated && Runs(a.reg, arr[..from + i])
    {
      stop := HandleOne(a, batch[i], arr, from + i);
      i := i + 1;
      assert arr[..from + i] == arr[..from + i - 1] + [arr[from + i - 1]];
      if stop {
        while i < |batch|
          invariant i <= |batch| && a.freed == arr[..from + i] && a.Handled(Through(a.reg, arr))
        {
          assert arr[..from + i + 1] == arr[..from + i] + [arr[from + i]];
          a.freed := a.freed + [batch[i]];
          i := i + 1;
        }
        return;
      }
    }
  }

  /** The batched drain handles the same messages as the single drain, for every schedule, and frees
      every message it popped, handled or not, once and in order. */
  method RunBatched(a: Actor, q: BQueue, arr: seq<Msg>, due: nat -> nat) returns (popped: nat, arrived: nat)
    requires Fresh(a, q)
    modifies a, q
    ensures a.Handled(Through(a.reg, arr)) && |Through(a.reg, arr)| <= popped
    ensures popped <= arrived <= |arr| && a.freed == arr[..popped] && q.Contents() == arr[popped..arrived]
  {
    hide Ran, CachesAfter, Kinds, Through, Runs;
    popped, arrived := 0, 0;
    assert arr[..0] == [];
    RunsNothing(a.reg);
    var i := 0;
    while true
      invariant popped <= arrived <= |arr| && q.Valid() && q.Contents() == arr[popped..arrived]
      invariant a.Handled(arr[..popped]) && a.freed == arr[..popped]
      invariant !a.terminated && Runs(a.reg, arr[..popped])
      decreases |arr| - popped
    {
      var ready;
      ghost var was := arrived;
      arrived, ready := Await(q, arr, arrived, due(i));
      assert arr[popped..was] + arr[was..arrived] == arr[popped..arrived];
      if !ready {
        assert arr[..popped] == arr;
        ThroughAll(a.reg, arr);
        return;
      }
      var batch := q.PopBatch();
      assert batch == arr[popped..arrived] && popped < arrived;
      var stop := RunBatch(a, batch, arr, popped, arrived);
      popped, i := arrived, i + 1;
      if stop { return; }
    }
  }
}
