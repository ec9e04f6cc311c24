/**
  The per-actor lock shared by fast_send and the run loop, as interleaved steps of threads
  with call stacks. A thread that has no frame and waits for nothing is idle. Run loops pop
  a queued message when idle; a running handler (or a thread outside every actor) may call
  fast_send; both wait for the target's lock, run its handler under it, and release it.
 */
module LockProtocol {

  type Msg = nat
  type ActorId = nat

  datatype Option<T> = None | Some(value: T)

  /** Why a handler runs: a queued message or a fast_send, with who asked. */
  datatype Origin = Queued(from: Option<ActorId>) | Fast(caller: Option<ActorId>)

  /** A handler execution; `said` traces the last reply it made. */
  datatype Frame = Frame(actor: ActorId, origin: Origin, said: Option<Msg>)

  datatype Thread = Thread(stack: seq<Frame>, waiting: Option<Frame>) {
    predicate Idle() { stack == [] && waiting.None? }
    predicate Running() { stack != [] && waiting.None? }
    function Top(): Frame requires stack != [] { stack[|stack| - 1] }
  }

  /** The actor's fields that fast_send, the run loop and reply share. */
  datatype Cell = Cell(usingFast: bool, replyTo: Option<ActorId>, reply: Option<Msg>)

  /** What leaves the protocol: a queued reply, or the value a fast_send returned. */
  datatype Out = Sent(to: Option<ActorId>, m: Msg) | Returned(value: Option<Msg>)

  /** `runner[a]` is the thread that runs actor a's loop. */
  datatype State = State(threads: seq<Thread>, cells: seq<Cell>, locks: map<ActorId, nat>,
                         runner: seq<nat>, out: seq<Out>)

  datatype Act =
    | Pop(t: nat, a: ActorId, from: Option<ActorId>)
    | Call(t: nat, b: ActorId)
    | Acquire(t: nat)
    | Reply(t: nat, m: Msg)
    | Return(t: nat)

  function Init(threads: nat, runner: seq<nat>): State {
    State(seq(threads, _ => Thread([], None)), seq(|runner|, _ => Cell(false, None, None)), map[], runner, [])
  }

  predicate Enabled(s: State, x: Act) {
    && x.t < |s.threads|
    && var th := s.threads[x.t];
       match x
       case Pop(t, a, _) => a < |s.cells| && a < |s.runner| && s.runner[a] == t && th.Idle()
       case Call(_, b) => b < |s.cells| && th.waiting.None?
       case Acquire(_) => th.waiting.Some? && th.waiting.value.actor < |s.cells| && th.waiting.value.actor !in s.locks
       case Reply(_, _) => th.Running() && th.Top().actor < |s.cells|
       case Return(_) => th.Running() && th.Top().actor < |s.cells|
  }

  function Caller(th: Thread): Option<ActorId> { if th.stack == [] then None else Some(th.Top().actor) }

  function Apply(s: State, x: Act): State
    requires Enabled(s, x)
  {
    var th := s.threads[x.t];
    match x
    case Pop(t, a, from) =>
      s.(threads := s.threads[t := Thread([], Some(Frame(a, Queued(from), None)))],
         cells := s.cells[a := s.cells[a].(replyTo := from)])
    case Call(t, b) =>
      s.(threads := s.threads[t := th.(waiting := Some(Frame(b, Fast(Caller(th)), None)))])
    case Acquire(t) =>
      var f := th.waiting.value;
      var cell := s.cells[f.actor];
      s.(threads := s.threads[t := Thread(th.stack + [f], None)],
         locks := s.locks[f.actor := t],
         cells := s.cells[f.actor := if f.origin.Fast? then cell.(usingFast := true, reply := None)
                                     else cell.(usingFast := false)])
    case Reply(t, m) =>
      var f := th.Top();
      var s1 := s.(threads := s.threads[t := th.(stack := th.stack[..|th.stack| - 1] + [f.(said := Some(m))])]);
      if s.cells[f.actor].usingFast
      then s1.(cells := s.cells[f.actor := s.cells[f.actor].(reply := Some(m))])
      else s1.(out := s.out + [Sent(s.cells[f.actor].replyTo, m)])
    case Return(t) =>
      var f := th.Top();
      s.(threads := s.threads[t := th.(stack := th.stack[..|th.stack| - 1])],
         locks := s.locks - {f.actor},
         out := if f.origin.Fast? then s.out + [Returned(s.cells[f.actor].reply)] else s.out)
  }

  function Step(s: State, x: Act): State { if Enabled(s, x) then Apply(s, x) else s }

  function Run(s: State, xs: seq<Act>): State {
    if xs == [] then s else Step(Run(s, xs[..|xs| - 1]), xs[|xs| - 1])
  }

  // ----- the invariant

  /** Frame `i` of thread `t`. */
  predicate IsFrame(s: State, t: nat, i: nat) { t < |s.threads| && i < |s.threads[t].stack| }

  function FrameAt(s: State, t: nat, i: nat): Frame
    requires IsFrame(s, t, i)
  {
    s.threads[t].stack[i]
  }

  /** Every running handler holds its actor's lock. */
  ghost predicate FramesLocked(s: State) {
    forall t: nat, i: nat :: IsFrame(s, t, i) ==>
      var a := FrameAt(s, t, i).actor; a < |s.cells| && a in s.locks && s.locks[a] == t
  }

  /** A thread runs no actor twice. */
  ghost predicate NoRepeat(s: State) {
    forall t: nat, i: nat, j: nat :: IsFrame(s, t, i) && IsFrame(s, t, j) && i != j ==>
      FrameAt(s, t, i).actor != FrameAt(s, t, j).actor
  }

  /** Every held lock belongs to a running handler. */
  ghost predicate LocksHeld(s: State) {
    forall a :: a in s.locks ==> exists i: nat :: IsFrame(s, s.locks[a], i) && FrameAt(s, s.locks[a], i).actor == a
  }

  /** The shared fields of a running handler's actor describe that handler. */
  predicate Describes(s: State, f: Frame) {
    && f.actor < |s.cells|
    && var cell := s.cells[f.actor];
       match f.origin
       case Fast(_) => cell.usingFast && cell.reply == f.said
       case Queued(from) => !cell.usingFast && cell.replyTo == from
  }

  ghost predicate Described(s: State) {
    forall t: nat, i: nat :: IsFrame(s, t, i) ==> Describes(s, FrameAt(s, t, i))
  }

  /** A frame about to run on thread `t` has a target, has said nothing, and when queued its return address is set. */
  predicate WaitOk(s: State, t: nat, f: Frame) {
    && f.actor < |s.cells| && f.said.None?
    && (f.origin.Queued? ==> Runner(s, f.actor, t) && s.cells[f.actor].replyTo == f.origin.from)
  }

  predicate Runner(s: State, a: ActorId, t: nat) { a < |s.runner| && s.runner[a] == t }

  ghost predicate Waits(s: State) {
    forall t: nat :: t < |s.threads| && s.threads[t].waiting.Some? ==> WaitOk(s, t, s.threads[t].waiting.value)
  }

  /** Only the actor's run loop handles its queued messages. */
  ghost predicate QueuedAtHome(s: State) {
    forall t: nat, i: nat :: IsFrame(s, t, i) && FrameAt(s, t, i).origin.Queued? ==>
      Runner(s, FrameAt(s, t, i).actor, t)
  }

  ghost predicate Inv(s: State) {
    FramesLocked(s) && NoRepeat(s) && LocksHeld(s) && Described(s) && Waits(s) && QueuedAtHome(s)
  }

  // ----- every step keeps it

  /** The frames of `r` run the same handlers as those of `s`. */
  ghost predicate SameFrames(s: State, r: State) {
    && |r.threads| == |s.threads| && |r.cells| == |s.cells| && r.locks == s.locks && r.runner == s.runner
    && (forall t: nat, i: nat :: IsFrame(r, t, i) <==> IsFrame(s, t, i))
    && (forall t: nat, i: nat :: IsFrame(r, t, i) ==> SameHandler(FrameAt(r, t, i), FrameAt(s, t, i)))
  }

  predicate SameHandler(f: Frame, g: Frame) { f.actor == g.actor && f.origin == g.origin }

  lemma SameFramesKeep(s: State, r: State)
    requires Inv(s) && SameFrames(s, r)
    ensures FramesLocked(r) && NoRepeat(r) && QueuedAtHome(r) && LocksHeld(r)
  {
    hide Described, Waits, LocksHeld;
    SameFramesHeld(s, r);
  }

  lemma SameFramesHeld(s: State, r: State)
    requires LocksHeld(s) && SameFrames(s, r)
    ensures LocksHeld(r)
  {
    forall a | a in r.locks ensures exists i: nat :: IsFrame(r, r.locks[a], i) && FrameAt(r, r.locks[a], i).actor == a {
      var i: nat :| IsFrame(s, s.locks[a], i) && FrameAt(s, s.locks[a], i).actor == a;
      assert IsFrame(r, r.locks[a], i);
    }
  }

  lemma PopKeeps(s: State, x: Act)
    requires Inv(s) && Enabled(s, x) && x.Pop?
    ensures Inv(Apply(s, x))
  {
    hide FramesLocked, NoRepeat, LocksHeld;
    var r := Apply(s, x);
    SameFramesKeep(s, r);
    assert forall t: nat, i: nat :: IsFrame(r, t, i) ==> t != x.t && IsFrame(s, t, i);
    assert forall t: nat, i: nat :: IsFrame(r, t, i) ==> FrameAt(r, t, i) == FrameAt(s, t, i);
  }

  lemma CallKeeps(s: State, x: Act)
    requires Inv(s) && Enabled(s, x) && x.Call?
    ensures Inv(Apply(s, x))
  {
    hide FramesLocked, NoRepeat, LocksHeld, QueuedAtHome;
    var r := Apply(s, x);
    SameFramesKeep(s, r);
    assert forall t: nat, i: nat :: IsFrame(r, t, i) ==> IsFrame(s, t, i) && FrameAt(r, t, i) == FrameAt(s, t, i);
  }

  lemma AcquireFrames(s: State, x: Act)
    requires Inv(s) && Enabled(s, x) && x.Acquire?
    ensures var r, n, f := Apply(s, x), |s.threads[x.t].stack|, s.threads[x.t].waiting.value;
            && IsFrame(r, x.t, n) && FrameAt(r, x.t, n) == f
            && (forall t: nat, i: nat :: IsFrame(s, t, i) ==> IsFrame(r, t, i) && FrameAt(r, t, i) == FrameAt(s, t, i))
            && (forall t: nat, i: nat :: IsFrame(s, t, i) ==> FrameAt(s, t, i).actor != f.actor)
            && (forall t: nat, i: nat :: IsFrame(r, t, i) ==> (t == x.t && i == n) || IsFrame(s, t, i))
  {
    hide NoRepeat, LocksHeld, QueuedAtHome, Described;
  }

  lemma AcquireLocks(s: State, x: Act)
    requires Inv(s) && Enabled(s, x) && x.Acquire?
    ensures FramesLocked(Apply(s, x)) && NoRepeat(Apply(s, x))
  {
    hide LocksHeld, QueuedAtHome, Described;
    AcquireFrames(s, x);
  }

  lemma AcquireHeld(s: State, x: Act)
    requires Inv(s) && Enabled(s, x) && x.Acquire?
    ensures LocksHeld(Apply(s, x))
  {
    hide FramesLocked, NoRepeat, QueuedAtHome, Described, Waits;
    AcquireFrames(s, x);
    var r, f := Apply(s, x), s.threads[x.t].waiting.value;
    forall a | a in r.locks ensures exists i: nat :: IsFrame(r, r.locks[a], i) && FrameAt(r, r.locks[a], i).actor == a {
      if a != f.actor {
        var i: nat :| IsFrame(s, s.locks[a], i) && FrameAt(s, s.locks[a], i).actor == a;
        assert IsFrame(r, r.locks[a], i) && FrameAt(r, r.locks[a], i).actor == a;
      } else {
        assert IsFrame(r, x.t, |s.threads[x.t].stack|);
      }
    }
  }

  lemma AcquireRest(s: State, x: Act)
    requires Inv(s) && Enabled(s, x) && x.Acquire?
    ensures var r := Apply(s, x); Described(r) && Waits(r) && QueuedAtHome(r)
  {
    hide FramesLocked, NoRepeat, LocksHeld;
    AcquireFrames(s, x);
  }

  lemma ReplyFrames(s: State, x: Act)
    requires Inv(s) && Enabled(s, x) && x.Reply?
    ensures var r, n := Apply(s, x), |s.threads[x.t].stack| - 1;
            && (forall t: nat, i: nat :: IsFrame(r, t, i) <==> IsFrame(s, t, i))
            && (forall t: nat, i: nat :: IsFrame(r, t, i) ==>
                  FrameAt(r, t, i) ==
                  if t == x.t && i == n then FrameAt(s, t, i).(said := Some(x.m)) else FrameAt(s, t, i))
  {
    hide FramesLocked, NoRepeat, LocksHeld, QueuedAtHome, Described, Waits;
  }

  lemma ReplyLocks(s: State, x: Act)
    requires Inv(s) && Enabled(s, x) && x.Reply?
    ensures var r := Apply(s, x); FramesLocked(r) && NoRepeat(r) && LocksHeld(r) && QueuedAtHome(r)
  {
    hide Described, Waits, FramesLocked, NoRepeat, LocksHeld, QueuedAtHome;
    ReplyFrames(s, x);
    SameFramesKeep(s, Apply(s, x));
  }

  /** Two frames of one actor are the same frame: handlers of one actor never overlap. */
  lemma OneFrame(s: State, t: nat, i: nat, u: nat, j: nat)
    requires FramesLocked(s) && NoRepeat(s) && IsFrame(s, t, i) && IsFrame(s, u, j)
    requires FrameAt(s, t, i).actor == FrameAt(s, u, j).actor
    ensures t == u && i == j
  {}

  lemma ReplyRest(s: State, x: Act)
    requires Inv(s) && Enabled(s, x) && x.Reply?
    ensures var r := Apply(s, x); Described(r) && Waits(r)
  {
    hide FramesLocked, NoRepeat, LocksHeld, QueuedAtHome;
    ReplyFrames(s, x);
    var r, n := Apply(s, x), |s.threads[x.t].stack| - 1;
    forall t: nat, i: nat | IsFrame(r, t, i) ensures Describes(r, FrameAt(r, t, i)) {
      if FrameAt(r, t, i).actor == FrameAt(s, x.t, n).actor { OneFrame(s, t, i, x.t, n); }
    }
  }

  lemma ReturnFrames(s: State, x: Act)
    requires Inv(s) && Enabled(s, x) && x.Return?
    ensures var r, n := Apply(s, x), |s.threads[x.t].stack| - 1;
            forall t: nat, i: nat :: IsFrame(r, t, i) <==> IsFrame(s, t, i) && !(t == x.t && i == n)
    ensures var r, n := Apply(s, x), |s.threads[x.t].stack| - 1;
            forall t: nat, i: nat :: IsFrame(r, t, i) ==>
              FrameAt(r, t, i) == FrameAt(s, t, i) && FrameAt(s, t, i).actor != FrameAt(s, x.t, n).actor
  {
    hide LocksHeld, QueuedAtHome, Described, Waits;
  }

  lemma ReturnLocks(s: State, x: Act)
    requires Inv(s) && Enabled(s, x) && x.Return?
    ensures var r := Apply(s, x); FramesLocked(r) && NoRepeat(r) && QueuedAtHome(r)
  {
    hide LocksHeld, Described, Waits;
    ReturnFrames(s, x);
  }

  lemma ReturnRest(s: State, x: Act)
    requires Inv(s) && Enabled(s, x) && x.Return?
    ensures var r := Apply(s, x); LocksHeld(r) && Described(r) && Waits(r)
  {
    hide FramesLocked, NoRepeat, QueuedAtHome;
    ReturnFrames(s, x);
    var r, n := Apply(s, x), |s.threads[x.t].stack| - 1;
    forall a | a in r.locks ensures exists i: nat :: IsFrame(r, r.locks[a], i) && FrameAt(r, r.locks[a], i).actor == a {
      var i: nat :| IsFrame(s, s.locks[a], i) && FrameAt(s, s.locks[a], i).actor == a;
      assert IsFrame(r, r.locks[a], i);
    }
  }

  lemma StepKeeps(s: State, x: Act)
    requires Inv(s)
    ensures Inv(Step(s, x))
  {
    hide FramesLocked, NoRepeat, LocksHeld, QueuedAtHome, Described, Waits, Apply, Enabled;
    if Enabled(s, x) {
      match x
      case Pop(_, _, _) => PopKeeps(s, x);
      case Call(_, _) => CallKeeps(s, x);
      case Acquire(_) => AcquireLocks(s, x); AcquireHeld(s, x); AcquireRest(s, x);
      case Reply(_, _) => ReplyLocks(s, x); ReplyRest(s, x);
      case Return(_) => ReturnLocks(s, x); ReturnRest(s, x);
    }
  }

  lemma {:induction false} RunKeeps(s: State, xs: seq<Act>)
    requires Inv(s)
    ensures Inv(Run(s, xs))
  {
    hide Inv, Step;
    if xs != [] {
      RunKeeps(s, xs[..|xs| - 1]);
      StepKeeps(Run(s, xs[..|xs| - 1]), xs[|xs| - 1]);
    }
  }

  lemma InitInv(n: nat, runner: seq<nat>)
    ensures Inv(Init(n, runner))
  {}

  // ----- mutual exclusion and replies

  /** In every reachable state, handlers of one actor never overlap. */
  lemma HandlersNeverOverlap(n: nat, runner: seq<nat>, xs: seq<Act>, t: nat, i: nat, u: nat, j: nat)
    requires var s := Run(Init(n, runner), xs);
             IsFrame(s, t, i) && IsFrame(s, u, j) && FrameAt(s, t, i).actor == FrameAt(s, u, j).actor
    ensures t == u && i == j
  {
    hide Run, Described, LocksHeld, QueuedAtHome, Waits;
    InitInv(n, runner);
    RunKeeps(Init(n, runner), xs);
    OneFrame(Run(Init(n, runner), xs), t, i, u, j);
  }

  /** In every reachable state, a reply made by a queued handler goes to the sender of that very
      message, and one made under fast_send is kept for its caller. */
  lemma RepliesRouted(n: nat, runner: seq<nat>, xs: seq<Act>, t: nat, m: Msg)
    requires Enabled(Run(Init(n, runner), xs), Reply(t, m))
    ensures var s := Run(Init(n, runner), xs); var r := Apply(s, Reply(t, m)); var f := s.threads[t].Top();
            match f.origin
            case Queued(from) => r.out == s.out + [Sent(from, m)] && r.cells == s.cells
            case Fast(_) => r.out == s.out && r.cells[f.actor].reply == Some(m)
  {
    hide Run, FramesLocked, NoRepeat, LocksHeld, QueuedAtHome, Waits;
    InitInv(n, runner);
    RunKeeps(Init(n, runner), xs);
    var s := Run(Init(n, runner), xs);
    assert IsFrame(s, t, |s.threads[t].stack| - 1);
    assert Describes(s, FrameAt(s, t, |s.threads[t].stack| - 1));
  }

  /** In every reachable state, a fast_send returns the last reply its own handler made, or nothing. */
  lemma FastSendReturnsItsReply(n: nat, runner: seq<nat>, xs: seq<Act>, t: nat)
    requires Enabled(Run(Init(n, runner), xs), Return(t))
    ensures var s := Run(Init(n, runner), xs); var f := s.threads[t].Top();
            Apply(s, Return(t)).out == if f.origin.Fast? then s.out + [Returned(f.said)] else s.out
  {
    hide Run, FramesLocked, NoRepeat, LocksHeld, QueuedAtHome, Waits;
    InitInv(n, runner);
    RunKeeps(Init(n, runner), xs);
    var s := Run(Init(n, runner), xs);
    assert IsFrame(s, t, |s.threads[t].stack| - 1);
    assert Describes(s, FrameAt(s, t, |s.threads[t].stack| - 1));
  }

  // ----- deadlock

  /** Thread `t` can take its next step: its lock is free, or it is running a handler. */
  predicate CanStep(s: State, t: nat) {
    t < |s.threads| && (Enabled(s, Acquire(t)) || Enabled(s, Return(t)))
  }

  predicate Busy(s: State, t: nat) { t < |s.threads| && !s.threads[t].Idle() }

  /** Every thread of `d` waits for a lock that a thread of `d` holds. */
  ghost predicate Stuck(s: State, d: set<nat>) {
    d != {} && forall t :: t in d ==> Blocked(s, t) && Holder(s, t) in d
  }

  predicate Blocked(s: State, t: nat) {
    t < |s.threads| && s.threads[t].waiting.Some? && s.threads[t].waiting.value.actor in s.locks
  }

  /** The thread holding the lock that `t` waits for. */
  function Holder(s: State, t: nat): nat
    requires Blocked(s, t)
  {
    s.locks[s.threads[t].waiting.value.actor]
  }

  /** A busy thread that cannot step is blocked, and whoever blocks it is busy. */
  lemma BusyOrBlocked(s: State, t: nat)
    requires Inv(s) && Busy(s, t)
    ensures CanStep(s, t) <==> !Blocked(s, t)
    ensures Blocked(s, t) ==> Busy(s, Holder(s, t))
  {
    hide NoRepeat, Described, QueuedAtHome;
    var th := s.threads[t];
    if th.stack != [] { assert IsFrame(s, t, |th.stack| - 1) && FrameAt(s, t, |th.stack| - 1) == th.Top(); }
    if Blocked(s, t) {
      var i: nat :| IsFrame(s, Holder(s, t), i);
    }
  }

  function BusySet(s: State): set<nat> { set t | 0 <= t < |s.threads| && Busy(s, t) }

  /** No thread can step with work pending exactly when the busy threads are stuck. */
  lemma DeadlockIff(s: State)
    requires Inv(s)
    ensures BusySet(s) != {} && (forall t: nat :: !CanStep(s, t)) <==> Stuck(s, BusySet(s))
  {
    hide Inv, Blocked, CanStep, Busy;
    forall t: nat | t in BusySet(s)
      ensures CanStep(s, t) <==> !Blocked(s, t)
      ensures Blocked(s, t) ==> Holder(s, t) in BusySet(s)
    {
      BusyOrBlocked(s, t);
      if Blocked(s, t) { InRange(s, t); }
    }
    forall t: nat | CanStep(s, t) ensures t in BusySet(s) { CanStepBusy(s, t); }
  }

  lemma InRange(s: State, t: nat)
    requires Inv(s) && Blocked(s, t)
    ensures Holder(s, t) < |s.threads|
  {
    hide NoRepeat, Described, QueuedAtHome, Waits, FramesLocked;
    var i: nat :| IsFrame(s, Holder(s, t), i);
  }

  lemma CanStepBusy(s: State, t: nat)
    requires CanStep(s, t)
    ensures Busy(s, t)
  {}

  /** Stuck threads stay as they are, whatever the others do. */
  lemma StuckStep(s: State, d: set<nat>, x: Act)
    requires Inv(s) && Stuck(s, d)
    ensures Stuck(Step(s, x), d) && |Step(s, x).threads| == |s.threads|
    ensures forall t :: t in d ==> t < |s.threads| && Step(s, x).threads[t] == s.threads[t]
  {
    hide NoRepeat, Described, QueuedAtHome, Waits, LocksHeld;
    var r := Step(s, x);
    assert Enabled(s, x) ==> x.t !in d;
    assert forall t :: t in d ==> r.threads[t] == s.threads[t];
    forall t | t in d ensures Blocked(r, t) && Holder(r, t) in d {
      assert Blocked(s, t) && Holder(s, t) in d;
      HeldStays(s, x, s.threads[t].waiting.value.actor);
    }
  }

  lemma HeldStays(s: State, x: Act, a: ActorId)
    requires Inv(s) && a in s.locks && (Enabled(s, x) ==> s.locks[a] != x.t)
    ensures a in Step(s, x).locks && Step(s, x).locks[a] == s.locks[a]
  {
    hide NoRepeat, Described, QueuedAtHome, Waits, LocksHeld;
    if Enabled(s, x) && x.Return? {
      var n := |s.threads[x.t].stack| - 1;
      assert IsFrame(s, x.t, n) && FrameAt(s, x.t, n) == s.threads[x.t].Top();
    }
  }

  /** Threads that wait for each other never step again, over any run. */
  lemma {:induction false} StuckForever(s: State, d: set<nat>, xs: seq<Act>)
    requires Inv(s) && Stuck(s, d)
    ensures Stuck(Run(s, xs), d)
    ensures forall t :: t in d ==> t < |s.threads| && t < |Run(s, xs).threads| && Run(s, xs).threads[t] == s.threads[t]
  {
    hide Inv, Step;
    if xs != [] {
      var p := xs[..|xs| - 1];
      StuckForever(s, d, p);
      RunKeeps(s, p);
      StuckStep(Run(s, p), d, xs[|xs| - 1]);
    }
  }

  /** A call chain that comes back to an actor already on it can never step again. */
  lemma CycleNeverSteps(n: nat, runner: seq<nat>, xs: seq<Act>, ys: seq<Act>, t: nat, i: nat)
    requires var s := Run(Init(n, runner), xs);
             && IsFrame(s, t, i) && s.threads[t].waiting.Some?
             && s.threads[t].waiting.value.actor == FrameAt(s, t, i).actor
    ensures var s := Run(Init(n, runner), xs); var r := Run(s, ys);
            t < |r.threads| && r.threads[t] == s.threads[t] && !CanStep(r, t)
  {
    hide Run, NoRepeat, Described, QueuedAtHome, Waits, LocksHeld;
    InitInv(n, runner);
    RunKeeps(Init(n, runner), xs);
    var s := Run(Init(n, runner), xs);
    assert Blocked(s, t) && Holder(s, t) == t;
    assert Stuck(s, {t});
    StuckForever(s, {t}, ys);
    assert Blocked(Run(s, ys), t);
  }

  // ----- ranked calls

  /** Every call goes from an actor to one of higher rank. */
  ghost predicate RankedCall(rank: ActorId -> nat, s: State, x: Act) {
    x.Call? && Enabled(s, x) && s.threads[x.t].stack != [] ==> rank(s.threads[x.t].Top().actor) < rank(x.b)
  }

  ghost predicate RankedRun(rank: ActorId -> nat, s: State, xs: seq<Act>) {
    forall i :: 0 <= i < |xs| ==> RankedCall(rank, Run(s, xs[..i]), xs[i])
  }

  /** Ranks rise along a thread's call chain and on to the lock it waits for. */
  ghost predicate Rising(rank: ActorId -> nat, th: Thread) {
    && (forall i, j :: 0 <= i < j < |th.stack| ==> rank(th.stack[i].actor) < rank(th.stack[j].actor))
    && (th.waiting.Some? ==> forall i :: 0 <= i < |th.stack| ==> rank(th.stack[i].actor) < rank(th.waiting.value.actor))
  }

  ghost predicate AllRising(rank: ActorId -> nat, s: State) {
    forall t :: 0 <= t < |s.threads| ==> Rising(rank, s.threads[t])
  }

  lemma StepRising(rank: ActorId -> nat, s: State, x: Act)
    requires AllRising(rank, s) && RankedCall(rank, s, x)
    ensures AllRising(rank, Step(s, x))
  {
    hide Rising;
    var r := Step(s, x);
    if Enabled(s, x) {
      assert forall t :: 0 <= t < |s.threads| && t != x.t ==> r.threads[t] == s.threads[t];
      ThreadRising(rank, s, x);
    }
  }

  lemma ThreadRising(rank: ActorId -> nat, s: State, x: Act)
    requires Enabled(s, x) && Rising(rank, s.threads[x.t]) && RankedCall(rank, s, x)
    ensures Rising(rank, Apply(s, x).threads[x.t])
  {
    var th, r := s.threads[x.t], Apply(s, x).threads[x.t];
    if th.stack != [] {
      assert forall i :: 0 <= i < |th.stack| ==> rank(th.stack[i].actor) <= rank(th.Top().actor);
    }
  }

  lemma {:induction false} RunRising(rank: ActorId -> nat, s: State, xs: seq<Act>)
    requires AllRising(rank, s) && RankedRun(rank, s, xs)
    ensures AllRising(rank, Run(s, xs))
  {
    hide AllRising, RankedCall, Step;
    if xs != [] {
      var n := |xs| - 1;
      assert forall i :: 0 <= i < n ==> xs[..n][..i] == xs[..i] && xs[..n][i] == xs[i];
      RunRising(rank, s, xs[..n]);
      StepRising(rank, Run(s, xs[..n]), xs[n]);
    }
  }

  /** The rank a blocked thread waits for. */
  function WaitRank(rank: ActorId -> nat, s: State, t: nat): nat
    requires Blocked(s, t)
  {
    rank(s.threads[t].waiting.value.actor)
  }

  lemma HolderWaitsHigher(rank: ActorId -> nat, s: State, t: nat)
    requires Inv(s) && AllRising(rank, s) && Blocked(s, t) && Blocked(s, Holder(s, t))
    ensures WaitRank(rank, s, Holder(s, t)) > WaitRank(rank, s, t)
  {
    hide NoRepeat, Described, QueuedAtHome, Waits, FramesLocked;
    var u, a := Holder(s, t), s.threads[t].waiting.value.actor;
    var i: nat :| IsFrame(s, u, i) && FrameAt(s, u, i).actor == a;
    assert Rising(rank, s.threads[u]);
  }

  /** Ranks cannot rise forever along a finite set of blocked threads. */
  lemma {:induction false} NoEndlessRise(rank: ActorId -> nat, s: State, d: set<nat>, all: set<nat>, t: nat)
    requires Inv(s) && AllRising(rank, s) && Stuck(s, all) && d <= all && t in d
    requires forall u :: u in all && WaitRank(rank, s, u) >= WaitRank(rank, s, t) ==> u in d
    ensures false
    decreases d
  {
    hide Inv, AllRising, Blocked, Rising;
    var u := Holder(s, t);
    HolderWaitsHigher(rank, s, t);
    var e := set v | v in d && WaitRank(rank, s, v) >= WaitRank(rank, s, u);
    assert t in d && t !in e && u in e;
    NoEndlessRise(rank, s, e, all, u);
  }

  /** With ranked calls, a reachable state with pending work has a thread that can step. */
  lemma RankedNeverDeadlocks(rank: ActorId -> nat, n: nat, runner: seq<nat>, xs: seq<Act>)
    requires RankedRun(rank, Init(n, runner), xs)
    ensures var s := Run(Init(n, runner), xs);
            BusySet(s) != {} ==> exists t: nat :: CanStep(s, t)
  {
    hide Run, Inv, RankedRun, CanStep, AllRising, Blocked, Busy;
    var s := Run(Init(n, runner), xs);
    InitInv(n, runner);
    RunKeeps(Init(n, runner), xs);
    InitRising(rank, n, runner);
    RunRising(rank, Init(n, runner), xs);
    DeadlockIff(s);
    if Stuck(s, BusySet(s)) {
      var d := BusySet(s);
      var t :| t in d;
      NoEndlessRise(rank, s, d, d, t);
    }
  }

  lemma InitRising(rank: ActorId -> nat, n: nat, runner: seq<nat>)
    ensures AllRising(rank, Init(n, runner))
  {}

  // ----- two run loops that call each other

  const Crossed: seq<Act> := [Pop(0, 0, None), Pop(1, 1, None), Acquire(0), Acquire(1), Call(0, 1), Call(1, 0)]

  lemma RunPrefix(s: State, xs: seq<Act>, i: nat)
    requires i < |xs|
    ensures Run(s, xs[..i + 1]) == Step(Run(s, xs[..i]), xs[i])
  {
    hide Step;
    assert xs[..i + 1][..i] == xs[..i];
  }

  function Both(a: Thread, b: Thread, locks: map<ActorId, nat>): State {
    State([a, b], [Cell(false, None, None), Cell(false, None, None)], locks, [0, 1], [])
  }

  const Loop0 := Frame(0, Queued(None), None)
  const Loop1 := Frame(1, Queued(None), None)
  const Popped := Both(Thread([], Some(Loop0)), Thread([], Some(Loop1)), map[])
  const Locked := Both(Thread([Loop0], None), Thread([Loop1], None), map[0 := 0, 1 := 1])
  const Waiting := Both(Thread([Loop0], Some(Frame(1, Fast(Some(0)), None))),
                        Thread([Loop1], Some(Frame(0, Fast(Some(1)), None))), map[0 := 0, 1 := 1])

  lemma CrossedPop()
    ensures Step(Step(Init(2, [0, 1]), Pop(0, 0, None)), Pop(1, 1, None)) == Popped
  {}

  lemma CrossedLock()
    ensures Step(Step(Popped, Acquire(0)), Acquire(1)) == Locked
  {
    var one := Both(Thread([Loop0], None), Thread([], Some(Loop1)), map[0 := 0]);
    var r0, r1 := Step(Popped, Acquire(0)), Step(one, Acquire(1));
    assert r0.threads[0].stack == [Loop0] && r1.threads[1].stack == [Loop1];
    assert r0.threads == one.threads && r0.cells == one.cells && r0.locks == one.locks;
    assert r1.threads == Locked.threads && r1.cells == Locked.cells && r1.locks == Locked.locks;
  }

  lemma CrossedCall()
    ensures Step(Step(Locked, Call(0, 1)), Call(1, 0)) == Waiting
  {}

  /** Calls without a ranking can deadlock two actors that each call the other. */
  lemma CrossedCallsDeadlock()
    ensures Stuck(Run(Init(2, [0, 1]), Crossed), {0, 1})
  {
    hide Run, Step;
    var s0 := Init(2, [0, 1]);
    RunNothing(s0);
    RunPrefix(s0, Crossed, 0); RunPrefix(s0, Crossed, 1); RunPrefix(s0, Crossed, 2);
    RunPrefix(s0, Crossed, 3); RunPrefix(s0, Crossed, 4); RunPrefix(s0, Crossed, 5);
    CrossedPop();
    CrossedLock();
    CrossedCall();
    assert Crossed[..6] == Crossed && Crossed[..0] == [];
  }

  lemma RunNothing(s: State)
    ensures Run(s, []) == s
  {}
}
