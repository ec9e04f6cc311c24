/**
  The latency queue: our messages take effect in exactly the order they arrived, none
  before it could have reached the matching engine, and no scan leaves a ripe head.
 */
module LatencyQueue {
  import opened Levels
  import opened Book

  /** How many messages at the head of the queue are due before a record at `tim`. */
  function Ripe(c: Config, q: seq<SimMsg>, tim: nat): (j: nat)
    ensures j <= |q|
    ensures forall i :: 0 <= i < j ==> Due(c, q[i]) < tim
    ensures j < |q| ==> Due(c, q[j]) >= tim
  {
    if q == [] || Due(c, q[0]) >= tim then 0 else
      var k := Ripe(c, q[1..], tim);
      assert forall i :: 1 <= i < 1 + k ==> q[i] == q[1..][i - 1];
      1 + k
  }

  function Stamped(q: seq<SimMsg>, tim: nat): (r: seq<(SimMsg, nat)>)
    ensures |r| == |q|
    ensures forall i :: 0 <= i < |q| ==> r[i] == (q[i], tim)
  {
    seq(|q|, i requires 0 <= i < |q| => (q[i], tim))
  }

  lemma StampedConcat(a: seq<SimMsg>, b: seq<SimMsg>, tim: nat)
    ensures Stamped(a + b, tim) == Stamped(a, tim) + Stamped(b, tim)
  {}

  lemma StampedOne(m: SimMsg, tim: nat)
    ensures Stamped([m], tim) == [(m, tim)] && Stamped([], tim) == []
  {}

  lemma StampedHead(q: seq<SimMsg>, k: nat, a: seq<(SimMsg, nat)>, tim: nat)
    requires k < |q|
    ensures q[1..][k..] == q[1 + k..]
    ensures a + [(q[0], tim)] + Stamped(q[1..][..k], tim) == a + Stamped(q[..1 + k], tim)
  {
    StampedOne(q[0], tim);
    StampedConcat([q[0]], q[1..][..k], tim);
    assert q[..1 + k] == [q[0]] + q[1..][..k];
  }

  lemma StampedNone(q: seq<SimMsg>, tim: nat)
    ensures Stamped(q[..0], tim) == [] && q[0..] == q
  {}

  lemma RipeNext(c: Config, q: seq<SimMsg>, tim: nat)
    ensures Ripe(c, q, tim) == if q == [] || Due(c, q[0]) >= tim then 0 else 1 + Ripe(c, q[1..], tim)
  {}

  function Messages(a: seq<(SimMsg, nat)>): (r: seq<SimMsg>)
    ensures |r| == |a|
    ensures forall i :: 0 <= i < |a| ==> r[i] == a[i].0
  {
    seq(|a|, i requires 0 <= i < |a| => a[i].0)
  }

  /** Our messages in the order they reached the book. */
  function Arrived(es: seq<Event>): seq<SimMsg> {
    if es == [] then []
    else Arrived(es[..|es| - 1]) + if es[|es| - 1].FromUs? then [es[|es| - 1].msg] else []
  }

  lemma AppliedNext(c: Config, b: Book, m: SimMsg, at: nat)
    ensures ApplySim(c, b, m, at).applied == b.applied + [(m, at)]
    ensures ApplySim(c, b, m, at).bestBid == b.bestBid && ApplySim(c, b, m, at).bestAsk == b.bestAsk
  {}

  /** A scan releases exactly the ripe head of the queue, in order, and nothing behind it. */
  lemma {:induction false} DrainReleases(c: Config, b: Book, tim: nat)
    requires !Drain(c, b, tim).dead
    ensures var j := Ripe(c, b.delQ, tim);
            && Drain(c, b, tim).delQ == b.delQ[j..]
            && Drain(c, b, tim).applied == b.applied + Stamped(b.delQ[..j], tim)
            && Drain(c, b, tim).bestBid == b.bestBid && Drain(c, b, tim).bestAsk == b.bestAsk
    decreases |b.delQ|
  {
    hide ApplySim, Due, Stamped, Ripe;
    RipeNext(c, b.delQ, tim);
    if b.dead {
    } else if b.delQ == [] || Due(c, b.delQ[0]) >= tim {
      StampedNone(b.delQ, tim);
    } else {
      var m, rest := b.delQ[0], b.delQ[1..];
      var b1 := ApplySim(c, b.(delQ := rest), m, tim);
      AppliedNext(c, b.(delQ := rest), m, tim);
      DrainReleases(c, b1, tim);
      var k := Ripe(c, rest, tim);
      StampedHead(b.delQ, k, b.applied, tim);
    }
  }

  // ----- inside a scan

  /** The book after the first `j` messages of the queue have been released at a record of time `tim`. */
  function Scanned(c: Config, b: Book, tim: nat, j: nat): (r: Book)
    requires j <= |b.delQ|
    ensures r.delQ == b.delQ[j..]
  {
    if j == 0 then b
    else
      var v := Scanned(c, b, tim, j - 1);
      ApplySim(c, v.(delQ := b.delQ[j..]), b.delQ[j - 1], tim)
  }

  /** A scan passes through exactly these books, none of them dead, and ends at the last due message. */
  lemma {:induction false} DrainScans(c: Config, b: Book, tim: nat, j: nat)
    requires !Drain(c, b, tim).dead && j <= Ripe(c, b.delQ, tim)
    ensures Drain(c, Scanned(c, b, tim, j), tim) == Drain(c, b, tim) && !Scanned(c, b, tim, j).dead
    ensures j == Ripe(c, b.delQ, tim) ==> Scanned(c, b, tim, j) == Drain(c, b, tim)
  {
    hide ApplySim;
    if j > 0 {
      DrainScans(c, b, tim, j - 1);
      var v := Scanned(c, b, tim, j - 1);
      assert v.delQ[0] == b.delQ[j - 1] && v.delQ[1..] == b.delQ[j..];
    }
  }

  /** What one step does to the queue: a prefix moves to the applied trace, stamped with the record's time. */
  ghost predicate Released(c: Config, b: Book, r: Book, tim: nat) {
    exists j: nat :: j <= |b.delQ| && Moves(c, b, r, tim, j)
  }

  ghost predicate Moves(c: Config, b: Book, r: Book, tim: nat, j: nat)
    requires j <= |b.delQ|
  {
    && r.delQ == b.delQ[j..]
    && r.applied == b.applied + Stamped(b.delQ[..j], tim)
    && forall i :: 0 <= i < j ==> Due(c, b.delQ[i]) < tim
  }

  lemma ReleasedNone(c: Config, b: Book, r: Book, tim: nat)
    requires r.delQ == b.delQ && r.applied == b.applied
    ensures Released(c, b, r, tim)
  {
    assert Stamped(b.delQ[..0], tim) == [];
    assert Moves(c, b, r, tim, 0);
  }

  lemma ReleasedTrans(c: Config, b: Book, r: Book, t: Book, tim: nat)
    requires Released(c, b, r, tim) && Released(c, r, t, tim)
    ensures Released(c, b, t, tim)
  {
    hide Moves;
    var j: nat :| j <= |b.delQ| && Moves(c, b, r, tim, j);
    var k: nat :| k <= |r.delQ| && Moves(c, r, t, tim, k);
    MovesTrans(c, b, r, t, tim, j, k);
    assert j + k <= |b.delQ| && Moves(c, b, t, tim, j + k);
  }

  lemma MovesTrans(c: Config, b: Book, r: Book, t: Book, tim: nat, j: nat, k: nat)
    requires j <= |b.delQ| && Moves(c, b, r, tim, j) && k <= |r.delQ| && Moves(c, r, t, tim, k)
    ensures j + k <= |b.delQ| && Moves(c, b, t, tim, j + k)
  {
    hide Due, Stamped;
    var q := b.delQ;
    assert q[..j + k] == q[..j] + q[j..][..k];
    assert q[j..][k..] == q[j + k..];
    StampedConcat(q[..j], q[j..][..k], tim);
    forall i | 0 <= i < j + k ensures Due(c, q[i]) < tim {
      if i >= j { assert q[i] == q[j..][i - j]; }
    }
    assert t.applied == b.applied + Stamped(q[..j + k], tim);
  }

  lemma ProcessReleases(c: Config, b: Book, p: Payload, tim: nat)
    requires !Process(c, b, p, tim).dead
    ensures Released(c, b, Process(c, b, p, tim), tim)
    ensures p.px > 0 ==> Ripe(c, Process(c, b, p, tim).delQ, tim) == 0
  {
    hide ApplyPayload, Due, Stamped;
    if b.dead || p.px <= 0 {
      ReleasedNone(c, b, b, tim);
    } else {
      DrainReleases(c, b, tim);
      assert Moves(c, b, Process(c, b, p, tim), tim, Ripe(c, b.delQ, tim));
    }
  }

  lemma RecordReleases(c: Config, b: Book, e: Event)
    requires e.Record? && !OnRecord(c, b, e).dead
    ensures Released(c, b, OnRecord(c, b, e), e.tim)
  {
    hide Released, OnNew, OnChange, OnDelete;
    var b1 := Recover(c, b, e.recovery);
    ReleasedNone(c, b, b, e.tim);
    ReleasedNone(c, b, b1, e.tim);
    if OnLadder(c, e.px) || !e.action.New? {
      if e.action.New? { NewReleases(c, b1, e); }
      else if e.action.Change? && OnLadder(c, e.px) { ChangeReleases(c, b1, e); }
      else { DeleteReleases(c, b1, e); }
      ReleasedTrans(c, b, b1, OnRecord(c, b, e), e.tim);
    }
  }

  lemma NewReleases(c: Config, b: Book, e: Event)
    requires e.Record? && !OnNew(c, b, e).dead
    ensures Released(c, b, OnNew(c, b, e), e.tim)
  {
    hide Released, Process;
    if e.xoid in b.orders {
      ReleasedNone(c, b, OnNew(c, b, e), e.tim);
    } else {
      var b1 := b.(orders := b.orders[e.xoid := Info(b.nextId, e.px, e.qty, e.side.value)],
                   nextId := b.nextId + 1);
      ReleasedNone(c, b, b1, e.tim);
      ProcessReleases(c, b1, PAdd(b.nextId, e.xoid, e.side.value, e.px, e.qty), e.tim);
      ReleasedTrans(c, b, b1, OnNew(c, b, e), e.tim);
    }
  }

  lemma ChangeReleases(c: Config, b: Book, e: Event)
    requires e.Record? && !OnChange(c, b, e).dead
    ensures Released(c, b, OnChange(c, b, e), e.tim)
  {
    hide Released, Process;
    if e.xoid !in b.orders {
      ReleasedNone(c, b, b, e.tim);
    } else {
      var o := b.orders[e.xoid];
      if Replaces(o, e) {
        var px := if e.side.Some? then e.px else o.px;
        var b1 := Process(c, b, PCancel(o.id, o.side, o.px), e.tim);
        var i1 := b1.(nextId := b1.nextId + 1);
        var p2 := PAdd(b1.nextId, e.xoid, o.side, px, e.qty);
        var b2 := Process(c, i1, p2, e.tim);
        assert !b1.dead by { ProcessStaysDead(c, i1, p2, e.tim); }
        ProcessReleases(c, b, PCancel(o.id, o.side, o.px), e.tim);
        ReleasedNone(c, b1, i1, e.tim);
        ProcessReleases(c, i1, p2, e.tim);
        ReleasedNone(c, b2, OnChange(c, b, e), e.tim);
        ReleasedTrans(c, b, b1, i1, e.tim);
        ReleasedTrans(c, b, i1, b2, e.tim);
        ReleasedTrans(c, b, b2, OnChange(c, b, e), e.tim);
      } else {
        var b1 := b.(orders := b.orders[e.xoid := o.(sz := e.qty)]);
        ReleasedNone(c, b, b1, e.tim);
        ProcessReleases(c, b1, PResize(o.id, o.side, o.px, e.qty), e.tim);
        ReleasedTrans(c, b, b1, OnChange(c, b, e), e.tim);
      }
    }
  }

  lemma DeleteReleases(c: Config, b: Book, e: Event)
    requires e.Record? && !OnDelete(c, b, e).dead
    ensures Released(c, b, OnDelete(c, b, e), e.tim)
  {
    hide Released, Process;
    if e.xoid !in b.orders {
      ReleasedNone(c, b, b, e.tim);
    } else {
      var o := b.orders[e.xoid];
      var b1 := Process(c, b, PCancel(o.id, o.side, o.px), e.tim);
      ProcessReleases(c, b, PCancel(o.id, o.side, o.px), e.tim);
      ReleasedNone(c, b1, OnDelete(c, b, e), e.tim);
      ReleasedTrans(c, b, b1, OnDelete(c, b, e), e.tim);
    }
  }

  /** Every timed message that took effect did so after it was due. */
  ghost predicate OnTime(c: Config, a: seq<(SimMsg, nat)>) {
    forall i :: 0 <= i < |a| && a[i].0.ts0 > 0 ==> a[i].1 > Due(c, a[i].0)
  }

  ghost predicate InOrder(b: Book, arrived: seq<SimMsg>) { Messages(b.applied) + b.delQ == arrived }

  lemma ReleasedKeeps(c: Config, b: Book, r: Book, tim: nat, arrived: seq<SimMsg>)
    requires Released(c, b, r, tim) && InOrder(b, arrived) && OnTime(c, b.applied)
    ensures InOrder(r, arrived) && OnTime(c, r.applied)
  {
    hide Moves, InOrder, OnTime;
    var j: nat :| j <= |b.delQ| && Moves(c, b, r, tim, j);
    MovedInOrder(c, b, r, tim, j, arrived);
    MovedOnTime(c, b, r, tim, j);
  }

  lemma MovedInOrder(c: Config, b: Book, r: Book, tim: nat, j: nat, arrived: seq<SimMsg>)
    requires j <= |b.delQ| && Moves(c, b, r, tim, j) && InOrder(b, arrived)
    ensures InOrder(r, arrived)
  {
    hide Due;
    assert Messages(r.applied) == Messages(b.applied) + b.delQ[..j];
    assert b.delQ == b.delQ[..j] + b.delQ[j..];
  }

  lemma MovedOnTime(c: Config, b: Book, r: Book, tim: nat, j: nat)
    requires j <= |b.delQ| && Moves(c, b, r, tim, j) && OnTime(c, b.applied)
    ensures OnTime(c, r.applied)
  {
    hide Due;
  }

  lemma StepKeeps(c: Config, b: Book, e: Event, arrived: seq<SimMsg>)
    requires !Step(c, b, e).dead && InOrder(b, arrived) && OnTime(c, b.applied)
    ensures InOrder(Step(c, b, e), arrived + if e.FromUs? then [e.msg] else [])
    ensures OnTime(c, Step(c, b, e).applied)
  {
    hide OnRecord, Process, ApplySim, Due;
    assert arrived + [] == arrived;
    match e
    case Record(_, _, _, _, _, _, _) =>
      RecordReleases(c, b, e);
      ReleasedKeeps(c, b, OnRecord(c, b, e), e.tim, arrived);
    case Exec(n, s, px, sz, tim) =>
      ProcessReleases(c, b, PExec(n, s, px, sz), tim);
      ReleasedKeeps(c, b, Process(c, b, PExec(n, s, px, sz), tim), tim, arrived);
    case ChannelReset =>
    case Status(_) =>
    case FromUs(m) =>
      if m.ts0 == 0 {
        AppliedNext(c, b, m, 0);
        assert Messages(b.applied + [(m, 0)]) == Messages(b.applied) + [m];
      }
  }

  /**
    Over every run our messages take effect in exactly the order they arrived: the applied ones
    followed by the queued ones are the arrived ones, so a cancel never precedes its order; and
    a timed message takes effect only at a record whose time exceeds its decision time plus the
    feed delay plus max(40, delay) microseconds.
   */
  lemma {:induction false} FirstInFirstOut(c: Config, es: seq<Event>)
    requires !Run(c, Init(c), es).dead
    ensures InOrder(Run(c, Init(c), es), Arrived(es)) && OnTime(c, Run(c, Init(c), es).applied)
  {
    hide Step, InOrder, OnTime;
    if es == [] {
      assert InOrder(Init(c), []) && OnTime(c, []) by { StartsEmpty(c); }
    } else {
      var b1 := Run(c, Init(c), es[..|es| - 1]);
      var e := es[|es| - 1];
      assert !b1.dead by { StepStaysDead(c, b1, e); }
      FirstInFirstOut(c, es[..|es| - 1]);
      StepKeeps(c, b1, e, Arrived(es[..|es| - 1]));
    }
  }

  lemma StartsEmpty(c: Config)
    ensures InOrder(Init(c), []) && OnTime(c, [])
  {}

  /** A cancel takes effect after the order that arrived before it. */
  lemma CancelAfterOrder(c: Config, es: seq<Event>, i: nat, j: nat)
    requires !Run(c, Init(c), es).dead && i < j < |Arrived(es)|
    requires j < |Run(c, Init(c), es).applied|
    ensures var a := Run(c, Init(c), es).applied;
            a[i].0 == Arrived(es)[i] && a[j].0 == Arrived(es)[j]
  {
    hide Run, Arrived;
    FirstInFirstOut(c, es);
    var b := Run(c, Init(c), es);
    assert (Messages(b.applied) + b.delQ)[i] == b.applied[i].0;
    assert (Messages(b.applied) + b.delQ)[j] == b.applied[j].0;
  }

  // ----- the latencies themselves

  /**
    Over every run no timed message takes effect early: the record that releases it is later than its
    decision time, the feed delay and 40 microseconds, and than its decision time, the feed delay and
    the latency of its kind, which for a cancel is the cancel latency when there is one.
   */
  lemma NeverEarly(c: Config, es: seq<Event>, i: nat)
    requires !Run(c, Init(c), es).dead && i < |Run(c, Init(c), es).applied|
    requires Run(c, Init(c), es).applied[i].0.ts0 > 0
    ensures var (m, at) := Run(c, Init(c), es).applied[i];
            && at > m.ts0 + 1000 * c.feedDelay + 40000
            && (m.SimAdd? || c.cancelDelay < 0 ==> at > m.ts0 + 1000 * c.feedDelay + 1000 * c.delay)
            && (m.SimCancel? && c.cancelDelay >= 0 ==> at > m.ts0 + 1000 * c.feedDelay + 1000 * c.cancelDelay)
  {
    hide Run;
    FirstInFirstOut(c, es);
  }

  /** A record of time `tim` is still within one of the message's latencies. */
  predicate StillTravelling(c: Config, m: SimMsg, tim: nat) {
    || tim <= m.ts0 + 1000 * c.feedDelay + 40000
    || ((m.SimAdd? || c.cancelDelay < 0) && tim <= m.ts0 + 1000 * c.feedDelay + 1000 * c.delay)
    || (m.SimCancel? && c.cancelDelay >= 0 && tim <= m.ts0 + 1000 * c.feedDelay + 1000 * c.cancelDelay)
  }

  /** The record reaches the queues: an execution, a New of an unknown order, a change or delete of a known one. */
  predicate Reaches(c: Config, b: Book, e: Event) {
    match e
    case Exec(_, _, px, _, _) => px > 0
    case Record(a, x, _, px, _, recovery, _) =>
      var om := Recover(c, b, recovery).orders;
      if a.New? then OnLadder(c, px) && x !in om else x in om && om[x].px > 0
    case _ => false
  }

  function Time(e: Event): nat
    requires e.Record? || e.Exec?
  {
    e.tim
  }

  /** No message is late either: after a record that reaches the queues the first message still queued has
      one of its latencies to go. */
  lemma NeverLate(c: Config, b: Book, e: Event)
    requires Reaches(c, b, e) && !b.dead && !Step(c, b, e).dead && Step(c, b, e).delQ != []
    ensures StillTravelling(c, Step(c, b, e).delQ[0], Time(e))
  {
    hide Due;
    HeadNotRipe(c, b, e);
    NotRipe(c, Step(c, b, e).delQ, Time(e));
  }

  lemma NotRipe(c: Config, q: seq<SimMsg>, tim: nat)
    requires q != [] && Ripe(c, q, tim) == 0
    ensures StillTravelling(c, q[0], tim)
  {}

  lemma HeadNotRipe(c: Config, b: Book, e: Event)
    requires Reaches(c, b, e) && !b.dead && !Step(c, b, e).dead
    ensures Ripe(c, Step(c, b, e).delQ, Time(e)) == 0
  {
    hide Ripe, Due, Process, Released;
    match e
    case Exec(n, s, px, sz, tim) => ProcessReleases(c, b, PExec(n, s, px, sz), tim);
    case Record(a, x, side, px, qty, recovery, tim) =>
      var b1 := Recover(c, b, recovery);
      if a.New? {
        var om := b1.orders[x := Info(b1.nextId, px, qty, side.value)];
        ProcessReleases(c, b1.(orders := om, nextId := b1.nextId + 1),
                        PAdd(b1.nextId, x, side.value, px, qty), tim);
      } else {
        KnownNotRipe(c, b1, e);
      }
  }

  lemma KnownNotRipe(c: Config, b: Book, e: Event)
    requires e.Record? && !e.action.New? && e.xoid in b.orders && b.orders[e.xoid].px > 0
    ensures e.action.Change? && !OnChange(c, b, e).dead ==> Ripe(c, OnChange(c, b, e).delQ, e.tim) == 0
    ensures !OnDelete(c, b, e).dead ==> Ripe(c, OnDelete(c, b, e).delQ, e.tim) == 0
  {
    hide Ripe, Due, Process, Released, Replaces;
    var o := b.orders[e.xoid];
    var p1 := PCancel(o.id, o.side, o.px);
    var b1 := Process(c, b, p1, e.tim);
    if !b1.dead { ProcessReleases(c, b, p1, e.tim); }
    if e.action.Change? && !OnChange(c, b, e).dead {
      if Replaces(o, e) {
        ReplacedNotRipe(c, b, e);
      } else {
        var om := b.orders[e.xoid := o.(sz := e.qty)];
        ProcessReleases(c, b.(orders := om), PResize(o.id, o.side, o.px, e.qty), e.tim);
      }
    }
  }

  lemma ReplacedNotRipe(c: Config, b: Book, e: Event)
    requires e.Record? && e.xoid in b.orders && b.orders[e.xoid].px > 0 && Replaces(b.orders[e.xoid], e)
    requires !OnChange(c, b, e).dead
    ensures Ripe(c, OnChange(c, b, e).delQ, e.tim) == 0
  {
    hide Due, Process, Replaces;
    var o := b.orders[e.xoid];
    var s := if e.side.Some? then e.side.value else o.side;
    var px := if e.side.Some? then e.px else o.px;
    var b1 := Process(c, b, PCancel(o.id, o.side, o.px), e.tim);
    var i1 := b1.(nextId := b1.nextId + 1);
    var p2 := PAdd(b1.nextId, e.xoid, s, px, e.qty);
    ProcessStaysDead(c, i1, p2, e.tim);
    ProcessReleases(c, b, PCancel(o.id, o.side, o.px), e.tim);
    ProcessReleases(c, i1, p2, e.tim);
    if px <= 0 { assert Process(c, i1, p2, e.tim) == i1 by { NothingProcessed(c, i1, p2, e.tim); } }
  }

  lemma NothingProcessed(c: Config, b: Book, p: Payload, tim: nat)
    requires p.px <= 0
    ensures Process(c, b, p, tim) == b
  {}
}
