/**
  The three-tier message pool: per-thread free lists, a shared free list under a lock, and
  slabs carved into blocks, as interleaved steps of threads that allocate, free and exit.
  Addresses are natural numbers; the base of a new slab is chosen by the system allocator,
  whose promise (aligned, apart from every live slab) guards the carving step.
 */
module Pool {

  type Addr = nat

  /** The per-thread cache size and the pool's block size and alignment. */
  datatype Config = Config(cap: nat, blockSize: nat, align: nat)

  predicate Sized(c: Config) { c.cap > 0 && c.blockSize > 0 && c.align > 0 && c.blockSize % c.align == 0 }

  function Max(a: nat, b: nat): nat { if a >= b then a else b }

  // ----- threads and steps

  /** Where a thread stands: outside the pool, or inside one of its calls. */
  datatype Pc = Idle | WantRefill | Refilling | Carving | Popping | WantFlush | Flushing | Exited

  datatype Thread = Thread(local: seq<Addr>, pc: Pc)

  /**
    `lock` is the holder of the shared list's mutex. Traces: the blocks live in messages, those
    leaked with an exited thread's list, every slab base, every block carved, the blocks handed
    out in order, and the most blocks live at once.
   */
  datatype State = State(threads: seq<Thread>, shared: seq<Addr>, lock: nat, locked: bool,
                         live: multiset<Addr>, leaked: multiset<Addr>,
                         slabs: seq<Addr>, carved: set<Addr>, peak: nat, panicked: bool)

  datatype Act =
    | Alloc(t: nat)              // __alloc, up to the call of refill when the local list is empty
    | Lock(t: nat)               // refill or flush takes the mutex
    | Take(t: nat)               // one turn of refill's loop
    | Taken(t: nat)              // refill leaves its loop and releases the mutex
    | Carve(t: nat, base: Addr)  // a new slab
    | Pop(t: nat)                // __alloc takes its block
    | Free(t: nat, b: Addr)      // __free, up to the call of flush
    | Give(t: nat)               // one turn of flush's loop
    | Given(t: nat)              // flush leaves its loop and releases the mutex
    | Exit(t: nat)

  function Init(n: nat): State {
    State(seq(n, _ => Thread([], Idle)), [], 0, false, multiset{}, multiset{}, [], {}, 0, false)
  }

  /** The first `n` blocks of the slab at `base`. */
  function SlabBlocks(c: Config, base: Addr, n: nat): (r: seq<Addr>)
    ensures |r| == n
  {
    if n == 0 then [] else SlabBlocks(c, base, n - 1) + [BlockAt(c, base, n - 1)]
  }

  function BlockAt(c: Config, base: Addr, i: nat): Addr { base + i * c.blockSize }

  function SetOf(q: seq<Addr>): set<Addr> { set a | a in q }

  /** Two slabs share no byte. */
  predicate Apart(c: Config, a: Addr, b: Addr)
    requires Sized(c)
  {
    BlockAt(c, a, c.cap) <= b || BlockAt(c, b, c.cap) <= a
  }

  /** What the system allocator promises of a new slab. */
  ghost predicate FreshSlab(c: Config, s: State, base: Addr)
    requires Sized(c)
  {
    base % c.align == 0 && forall b :: b in s.slabs ==> Apart(c, base, b)
  }

  ghost predicate Enabled(c: Config, s: State, x: Act)
    requires Sized(c)
  {
    && x.t < |s.threads|
    && var th := s.threads[x.t];
       match x
       case Alloc(_) => th.pc == Idle
       case Lock(_) => (th.pc == WantRefill || th.pc == WantFlush) && !s.locked
       case Take(_) => th.pc == Refilling && |th.local| < c.cap && s.shared != []
       case Taken(_) => th.pc == Refilling && !(|th.local| < c.cap && s.shared != [])
       case Carve(_, base) => th.pc == Carving && FreshSlab(c, s, base)
       case Pop(_) => th.pc == Popping
       case Free(_, b) => th.pc == Idle && b in s.live
       case Give(_) => th.pc == Flushing && |th.local| > c.cap
       case Given(_) => th.pc == Flushing && |th.local| <= c.cap
       case Exit(_) => th.pc == Idle
  }

  function Last(q: seq<Addr>): Addr requires q != [] { q[|q| - 1] }
  function Front(q: seq<Addr>): seq<Addr> requires q != [] { q[..|q| - 1] }

  function Put(s: State, t: nat, local: seq<Addr>, pc: Pc): State
    requires t < |s.threads|
  {
    s.(threads := s.threads[t := Thread(local, pc)])
  }

  /** Hand the last block of the thread's list out to a message. */
  function HandOut(s: State, t: nat): State
    requires t < |s.threads|
  {
    var local := s.threads[t].local;
    if local == [] then s.(panicked := true)
    else
      var live := s.live + multiset{Last(local)};
      Put(s, t, Front(local), Idle).(live := live, peak := Max(s.peak, |live|))
  }

  ghost function Apply(c: Config, s: State, x: Act): (r: State)
    requires Sized(c) && Enabled(c, s, x)
    ensures |r.threads| == |s.threads|
  {
    var th := s.threads[x.t];
    match x
    case Alloc(t) => if th.local != [] then HandOut(s, t) else Put(s, t, th.local, WantRefill)
    case Lock(t) => Put(s, t, th.local, if th.pc == WantRefill then Refilling else Flushing).(lock := t, locked := true)
    case Take(t) => Put(s, t, th.local + [Last(s.shared)], Refilling).(shared := Front(s.shared))
    case Taken(t) => Put(s, t, th.local, if th.local == [] then Carving else Popping).(locked := false)
    case Carve(t, base) =>
      Put(s, t, th.local + SlabBlocks(c, base, c.cap), Popping)
        .(slabs := s.slabs + [base], carved := s.carved + SetOf(SlabBlocks(c, base, c.cap)))
    case Pop(t) => HandOut(s, t)
    case Free(t, b) =>
      Put(s, t, th.local + [b], if |th.local| + 1 > 2 * c.cap then WantFlush else Idle).(live := s.live - multiset{b})
    case Give(t) => Put(s, t, Front(th.local), Flushing).(shared := s.shared + [Last(th.local)])
    case Given(t) => Put(s, t, th.local, Idle).(locked := false)
    case Exit(t) => Put(s, t, [], Exited).(leaked := s.leaked + multiset(th.local))
  }

  ghost function Step(c: Config, s: State, x: Act): State
    requires Sized(c)
  {
    if Enabled(c, s, x) then Apply(c, s, x) else s
  }

  ghost function Run(c: Config, s: State, xs: seq<Act>): State
    requires Sized(c)
  {
    if xs == [] then s else Step(c, Run(c, s, xs[..|xs| - 1]), xs[|xs| - 1])
  }
}
