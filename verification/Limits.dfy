/**
  No order of ours is ever filled at a price worse than its limit.
 */
module Limits {
  import opened Levels
  import opened Book
  import opened NonInterference
  import opened BookPrices
  import opened Conservation
  import opened QueuePosition
  import opened Effects
  import opened Records

  /** We sent order `n` of side `s` with limit `px`, and it has taken effect. */
  ghost predicate Sent(a: seq<(SimMsg, nat)>, n: nat, s: Side, px: int) {
    exists i :: 0 <= i < |a| && a[i].0.SimAdd? && a[i].0.n == n && a[i].0.side == s && a[i].0.px == px
  }

  /** A fill no worse than the limit of an order of ours with its id. */
  ghost predicate WithinLimit(a: seq<(SimMsg, nat)>, t: Note)
    requires t.Fill?
  {
    exists s, px :: Sent(a, t.n, s, px) && Within(s, px, t.px)
  }

  /** Our orders rest at their limits. */
  ghost predicate AtLimit(b: Book) {
    forall s, p, n :: Holds(b.Lev(s, p), Sim(n)) ==> Sent(b.applied, n, s, p)
  }

  ghost predicate FillsOk(b: Book) { forall t :: t in b.notes && t.Fill? ==> WithinLimit(b.applied, t) }

  ghost predicate LimitsOk(b: Book) { AtLimit(b) && FillsOk(b) }

  lemma SentGrows(a: seq<(SimMsg, nat)>, z: seq<(SimMsg, nat)>, n: nat, s: Side, px: int)
    requires Sent(a, n, s, px) && a <= z
    ensures Sent(z, n, s, px)
  {
    var i :| 0 <= i < |a| && a[i].0.SimAdd? && a[i].0.n == n && a[i].0.side == s && a[i].0.px == px;
    assert z[i] == a[i];
  }

  lemma WithinGrows(a: seq<(SimMsg, nat)>, z: seq<(SimMsg, nat)>, t: Note)
    requires t.Fill? && WithinLimit(a, t) && a <= z
    ensures WithinLimit(z, t)
  {
    hide Sent;
    var s, px :| Sent(a, t.n, s, px) && Within(s, px, t.px);
    SentGrows(a, z, t.n, s, px);
  }

  /** A report of a fill of an order that rested at the reported price. */
  ghost predicate OfResting(b: Book, t: Note) { t.Fill? ==> exists s :: Holds(b.Lev(s, t.px), Sim(t.n)) }

  /** What an event does that releases no order of ours. */
  ghost predicate Sourced(b: Book, r: Book) {
    && (forall s, p, n :: Holds(r.Lev(s, p), Sim(n)) ==> Holds(b.Lev(s, p), Sim(n)))
    && (forall t :: t in r.notes ==> t in b.notes || OfResting(b, t))
  }

  lemma SourcedKeeps(b: Book, r: Book)
    requires LimitsOk(b) && Sourced(b, r) && b.applied <= r.applied
    ensures LimitsOk(r)
  {
    hide Sent, Holds, Book.Lev;
    forall s, p, n | Holds(r.Lev(s, p), Sim(n)) ensures Sent(r.applied, n, s, p) {
      SentGrows(b.applied, r.applied, n, s, p);
    }
    forall t | t in r.notes && t.Fill? ensures WithinLimit(r.applied, t) {
      if t in b.notes {
        WithinGrows(b.applied, r.applied, t);
      } else {
        var s :| Holds(b.Lev(s, t.px), Sim(t.n));
        SentGrows(b.applied, r.applied, t.n, s, t.px);
        assert Within(s, t.px, t.px);
      }
    }
  }

  /** Our orders at a level after a payload were there before it. */
  lemma PayloadHolds(c: Config, b: Book, p: Payload, s: Side, k: int, n: nat)
    requires Holds(ApplyPayload(c, b, p).Lev(s, k), Sim(n))
    ensures Holds(b.Lev(s, k), Sim(n))
  {
    hide ApplyPayload, Book.Lev, LevelSum, RealAhead;
    EvolvesPayload(c, b, p, Some(n));
    var q, r := b.Lev(s, k), ApplyPayload(c, b, p).Lev(s, k);
    assert Evolves(q, r, Some(n));
    LevelHeads(q, n);
    LevelHeads(r, n);
  }

  /** What a payload does to our orders and to the reports of their fills. */
  lemma PayloadSourced(c: Config, b: Book, p: Payload)
    requires Tall(c, b) && p.px > 0
    ensures Sourced(b, ApplyPayload(c, b, p)) && ApplyPayload(c, b, p).applied == b.applied
  {
    hide ApplyPayload, Holds, Book.Lev;
    var r := ApplyPayload(c, b, p);
    forall s, k, n | Holds(r.Lev(s, k), Sim(n)) ensures Holds(b.Lev(s, k), Sim(n)) { PayloadHolds(c, b, p, s, k, n); }
    PayloadReports(c, b, p);
  }

  lemma PayloadReports(c: Config, b: Book, p: Payload)
    requires Tall(c, b) && p.px > 0
    ensures forall t :: t in ApplyPayload(c, b, p).notes ==> t in b.notes || OfResting(b, t)
    ensures ApplyPayload(c, b, p).applied == b.applied
  {
    hide AddReal, ExecReal, CancelReal, ResizeReal, OfResting;
    match p
    case PAdd(n, x, s, px, sz) => AddReports(c, b, n, x, s, px, sz);
    case PCancel(n, s, px) => CancelReports(c, b, n, s, px);
    case PResize(n, s, px, sz) => ResizeReports(c, b, n, s, px, sz);
    case PExec(n, s, px, sz) => ExecutionReports(c, b, n, s, px, sz);
  }

  lemma CancelReports(c: Config, b: Book, n: nat, s: Side, px: int)
    ensures CancelReal(c, b, n, s, px).notes == b.notes
  {
    hide WalkUp, WalkDown, Remove, Find;
  }

  lemma ResizeReports(c: Config, b: Book, n: nat, s: Side, px: int, sz: int)
    ensures ResizeReal(c, b, n, s, px, sz).notes == b.notes
  {
    hide WalkUp, WalkDown, Resize, Find;
  }

  lemma AddReports(c: Config, b: Book, n: nat, x: nat, s: Side, px: int, sz: int)
    requires Tall(c, b) && px > 0
    ensures forall t :: t in AddReal(c, b, n, x, s, px, sz).notes ==> t in b.notes || OfResting(b, t)
  {
    hide OfResting, OursFilled, Sweep, MoveInside, Append;
    var r := AddReal(c, b, n, x, s, px, sz);
    if px < c.maxPx && sz > 0 {
      RealArrives(c, b, n, x, s, px, sz);
      forall t | t in r.notes ensures t in b.notes || OfResting(b, t) {
        var i :| 0 <= i < |r.notes| && r.notes[i] == t;
        if i >= |b.notes| { OursRested(b, Other(s), s, px, t); } else { assert b.notes[i] == t; }
      }
    }
  }

  lemma OursRested(b: Book, o: Side, s: Side, px: int, t: Note)
    requires OursFilled(b, o, s, px, t)
    ensures OfResting(b, t)
  {
    HoldsIff(b.Lev(o, t.px), Sim(t.n));
  }

  lemma ExecutionReports(c: Config, b: Book, n: nat, s: Side, px: int, sz: int)
    requires Tall(c, b) && px > 0
    ensures forall t :: t in ExecReal(c, b, n, s, px, sz).notes ==> t in b.notes || OfResting(b, t)
  {
    hide ExecLevel, Find, Rewalk, RealAhead;
    if px < c.maxPx && sz > 0 {
      var f := ExecLevel(b.Lev(s, px), n, sz, px).1;
      ExecNotes(c, b, n, s, px, sz);
      forall t | t in f ensures OfResting(b, t) {
        var j :| 0 <= j < |f| && f[j] == t;
        ExecFillsFront(b.Lev(s, px), n, sz, px, j);
      }
    }
  }

  // ----- our own messages

  lemma SameLimits(b: Book, r: Book)
    requires LimitsOk(b) && r.bids == b.bids && r.asks == b.asks && r.notes == b.notes && r.applied == b.applied
    ensures LimitsOk(r)
  {
    hide Sent, Holds;
    SameLevels(b, r);
  }

  lemma ArrivalLimits(c: Config, b: Book, n: nat, s: Side, px: nat, sz: int, ts0: nat, at: nat)
    requires Tall(c, b) && LimitsOk(b)
    ensures LimitsOk(ApplySim(c, b, SimAdd(n, s, px, sz, ts0), at))
  {
    hide ApplySim, WithinLimit, Sent, Book.Lev;
    var m := SimAdd(n, s, px, sz, ts0);
    var r := ApplySim(c, b, m, at);
    ApplyTraced(c, b, m, at);
    assert Sent(r.applied, n, s, px) by { SentLast(b.applied, m, at); }
    if px < c.maxPx && sz > 0 {
      SimArrives(c, b, n, s, px, sz, ts0, at);
      ArrivedLevels(b, r, n, s, px, sz);
      ArrivedReports(b, r, n, s, px, sz);
    } else {
      RefusedSame(c, b, n, s, px, sz, ts0, at);
      SameLevels(b, r);
      SourcedKeeps(b, r);
    }
  }

  lemma ApplyTraced(c: Config, b: Book, m: SimMsg, at: nat)
    ensures ApplySim(c, b, m, at).applied == b.applied + [(m, at)]
  {
    hide Append, Find, Remove;
  }

  lemma SentLast(a: seq<(SimMsg, nat)>, m: SimMsg, at: nat)
    requires m.SimAdd?
    ensures Sent(a + [(m, at)], m.n, m.side, m.px)
  {
    assert (a + [(m, at)])[|a|] == (m, at);
  }

  lemma RefusedSame(c: Config, b: Book, n: nat, s: Side, px: nat, sz: int, ts0: nat, at: nat)
    requires px >= c.maxPx || sz <= 0
    ensures var r := ApplySim(c, b, SimAdd(n, s, px, sz, ts0), at);
            r.bids == b.bids && r.asks == b.asks && r.notes == b.notes
  {}

  lemma ArrivedLevels(b: Book, r: Book, n: nat, s: Side, px: nat, sz: int)
    requires AtLimit(b) && b.applied <= r.applied && Sent(r.applied, n, s, px)
    requires forall t, k :: r.Lev(t, k) == b.Lev(t, k) ||
                            (t == s && k == px && r.Lev(t, k) == b.Lev(t, k) + [Order(Sim(n), 0, sz)])
    ensures AtLimit(r)
  {
    hide Sent, Book.Lev;
    forall t, p, m | Holds(r.Lev(t, p), Sim(m)) ensures Sent(r.applied, m, t, p) {
      HoldsIff(r.Lev(t, p), Sim(m));
      HoldsIff(b.Lev(t, p), Sim(m));
      if Holds(b.Lev(t, p), Sim(m)) { SentGrows(b.applied, r.applied, m, t, p); }
    }
  }

  lemma ArrivedReports(b: Book, r: Book, n: nat, s: Side, px: nat, sz: int)
    requires FillsOk(b) && b.applied <= r.applied && Sent(r.applied, n, s, px)
    requires r.notes == b.notes ||
             (MeetsInside(b, s, px) && r.notes == b.notes + [Fill(n, sz, 0, OtherInside(b, s))])
    ensures FillsOk(r)
  {
    hide Sent;
    forall t | t in r.notes && t.Fill? ensures WithinLimit(r.applied, t) {
      if t in b.notes { WithinGrows(b.applied, r.applied, t); } else { assert Within(s, px, t.px); }
    }
  }

  lemma CancelLimits(c: Config, b: Book, n: nat, s: Side, px: nat, ts0: nat, at: nat)
    requires Tall(c, b) && LimitsOk(b)
    ensures LimitsOk(ApplySim(c, b, SimCancel(n, s, px, ts0), at))
  {
    hide ApplySim, Book.Lev, Holds, CancelOutcome, OfResting, LimitsOk;
    var m := SimCancel(n, s, px, ts0);
    var r := ApplySim(c, b, m, at);
    ApplyTraced(c, b, m, at);
    SimCancelled(c, b, n, s, px, ts0, at);
    if px < c.maxPx { CancelledKeeps(b.Lev(s, px), r.Lev(s, px), n, r.notes[|b.notes|], b); }
    forall t | t in r.notes ensures t in b.notes || OfResting(b, t) {
      var i :| 0 <= i < |r.notes| && r.notes[i] == t;
      if i < |b.notes| { assert b.notes[i] == t; }
    }
    SourcedKeeps(b, r);
  }

  lemma CancelledKeeps(q: Level, r: Level, n: nat, t: Note, b: Book)
    requires CancelOutcome(q, r, n, t)
    ensures forall m :: Holds(r, Sim(m)) ==> Holds(q, Sim(m))
    ensures OfResting(b, t)
  {
    hide Book.Lev, Holds;
    forall m | Holds(r, Sim(m)) ensures Holds(q, Sim(m)) {
      HoldsIff(q, Sim(m));
      HoldsIff(r, Sim(m));
    }
  }

  lemma SimLimits(c: Config, b: Book, m: SimMsg, at: nat)
    requires Tall(c, b) && LimitsOk(b)
    ensures LimitsOk(ApplySim(c, b, m, at)) && Tall(c, ApplySim(c, b, m, at))
  {
    hide ApplySim, LimitsOk;
    SimMarket(c, b, m, at);
    match m
    case SimAdd(n, s, px, sz, ts0) => ArrivalLimits(c, b, n, s, px, sz, ts0, at);
    case SimCancel(n, s, px, ts0) => CancelLimits(c, b, n, s, px, ts0, at);
  }

  lemma {:induction false} DrainLimits(c: Config, b: Book, tim: nat)
    requires Tall(c, b) && LimitsOk(b)
    ensures LimitsOk(Drain(c, b, tim)) && Tall(c, Drain(c, b, tim))
    decreases |b.delQ|
  {
    hide LimitsOk, ApplySim;
    if !(b.dead || b.delQ == [] || Due(c, b.delQ[0]) >= tim) {
      var b0 := b.(delQ := b.delQ[1..]);
      SameLimits(b, b0);
      SimLimits(c, b0, b.delQ[0], tim);
      DrainLimits(c, ApplySim(c, b0, b.delQ[0], tim), tim);
    }
  }

  // ----- records, steps and runs

  lemma ProcessLimits(c: Config, b: Book, p: Payload, tim: nat)
    requires Tall(c, b) && LimitsOk(b)
    ensures LimitsOk(Process(c, b, p, tim)) && Tall(c, Process(c, b, p, tim))
  {
    hide LimitsOk, ApplyPayload, Drain, Sourced;
    if !(b.dead || p.px <= 0) {
      DrainLimits(c, b, tim);
      var d := Drain(c, b, tim);
      var d1 := d.(boundary := Max(d.boundary, tim));
      SameLimits(d, d.(dead := true));
      SameLimits(d, d1);
      PayloadSourced(c, d1, p);
      SourcedKeeps(d1, ApplyPayload(c, d1, p));
    }
  }

  lemma {:induction false} LadderNoFill(l: Ladder)
    ensures forall t :: t in LadderAcks(l) ==> t.CancAck?
  {
    hide LevelAcks, Plain;
    if l != [] {
      AcksById(l[0]);
      LadderNoFill(l[1..]);
    }
  }

  lemma ClearLimits(c: Config, b: Book)
    requires Tall(c, b) && LimitsOk(b)
    ensures LimitsOk(Clear(c, b)) && Tall(c, Clear(c, b))
  {
    hide LadderAcks, LimitsOk, Holds;
    var r := Clear(c, b);
    LadderNoFill(b.bids);
    LadderNoFill(b.asks);
    forall s, p, n ensures !Holds(r.Lev(s, p), Sim(n)) {
      assert r.Lev(s, p) == [];
      HoldsIff(r.Lev(s, p), Sim(n));
    }
    SourcedKeeps(b, r);
  }

  lemma NewLimits(c: Config, b: Book, e: Event)
    requires Tall(c, b) && LimitsOk(b) && e.Record?
    ensures LimitsOk(OnNew(c, b, e)) && Tall(c, OnNew(c, b, e))
  {
    hide LimitsOk, Process;
    if e.xoid in b.orders || e.side.None? || e.qty == 0 {
      SameLimits(b, OnNew(c, b, e));
    } else {
      var b1 := b.(orders := b.orders[e.xoid := Info(b.nextId, e.px, e.qty, e.side.value)], nextId := b.nextId + 1);
      SameLimits(b, b1);
      ProcessLimits(c, b1, PAdd(b.nextId, e.xoid, e.side.value, e.px, e.qty), e.tim);
    }
  }

  lemma ChangeLimits(c: Config, b: Book, e: Event)
    requires Tall(c, b) && LimitsOk(b) && e.Record?
    ensures LimitsOk(OnChange(c, b, e)) && Tall(c, OnChange(c, b, e))
  {
    hide LimitsOk, Process;
    if e.xoid !in b.orders || (e.side.None? && e.qty > b.orders[e.xoid].sz) {
      SameLimits(b, OnChange(c, b, e));
    } else if !Replaces(b.orders[e.xoid], e) {
      var o := b.orders[e.xoid];
      var b1 := b.(orders := b.orders[e.xoid := o.(sz := e.qty)]);
      SameLimits(b, b1);
      ProcessLimits(c, b1, PResize(o.id, o.side, o.px, e.qty), e.tim);
    } else {
      var o := b.orders[e.xoid];
      var s := if e.side.Some? then e.side.value else o.side;
      var px := if e.side.Some? then e.px else o.px;
      var b1 := Process(c, b, PCancel(o.id, o.side, o.px), e.tim);
      var i1 := b1.(nextId := b1.nextId + 1);
      var b2 := Process(c, i1, PAdd(b1.nextId, e.xoid, s, px, e.qty), e.tim);
      ProcessLimits(c, b, PCancel(o.id, o.side, o.px), e.tim);
      SameLimits(b1, i1);
      ProcessLimits(c, i1, PAdd(b1.nextId, e.xoid, s, px, e.qty), e.tim);
      SameLimits(b2, OnChange(c, b, e));
    }
  }

  lemma DeleteLimits(c: Config, b: Book, e: Event)
    requires Tall(c, b) && LimitsOk(b) && e.Record?
    ensures LimitsOk(OnDelete(c, b, e)) && Tall(c, OnDelete(c, b, e))
  {
    hide LimitsOk, Process;
    if e.xoid in b.orders {
      var o := b.orders[e.xoid];
      var b1 := Process(c, b, PCancel(o.id, o.side, o.px), e.tim);
      ProcessLimits(c, b, PCancel(o.id, o.side, o.px), e.tim);
      SameLimits(b1, OnDelete(c, b, e));
    }
  }

  lemma RecordLimits(c: Config, b: Book, e: Event)
    requires Tall(c, b) && LimitsOk(b) && e.Record?
    ensures LimitsOk(OnRecord(c, b, e)) && Tall(c, OnRecord(c, b, e))
  {
    hide LimitsOk, Clear, OnNew, OnChange, OnDelete;
    ClearLimits(c, b);
    SameLimits(Clear(c, b), Clear(c, b).(inRecovery := true));
    SameLimits(b, b.(inRecovery := false));
    var b1 := Recover(c, b, e.recovery);
    SameLimits(b1, b1.(dead := true));
    NewLimits(c, b1, e);
    ChangeLimits(c, b1, e);
    DeleteLimits(c, b1, e);
  }

  lemma StepLimits(c: Config, b: Book, e: Event)
    requires Tall(c, b) && LimitsOk(b)
    ensures LimitsOk(Step(c, b, e)) && Tall(c, Step(c, b, e))
  {
    hide LimitsOk, OnRecord, Process, Clear, ApplySim;
    if !b.dead {
      match e
      case Record(_, _, _, _, _, _, _) => RecordLimits(c, b, e);
      case Exec(n, s, px, sz, tim) => ProcessLimits(c, b, PExec(n, s, px, sz), tim);
      case ChannelReset => ClearLimits(c, b);
      case Status(on) => SameLimits(b, b.(matching := on));
      case FromUs(m) =>
        SimLimits(c, b, m, 0);
        SameLimits(b, b.(dead := true));
        SameLimits(b, b.(delQ := b.delQ + [m]));
    }
  }

  lemma {:induction false} RunLimits(c: Config, b: Book, es: seq<Event>)
    requires Tall(c, b) && LimitsOk(b)
    ensures LimitsOk(Run(c, b, es)) && Tall(c, Run(c, b, es))
  {
    hide LimitsOk, Step;
    if es != [] {
      RunLimits(c, b, es[..|es| - 1]);
      StepLimits(c, Run(c, b, es[..|es| - 1]), es[|es| - 1]);
    }
  }

  /**
    Over every run, in both modes and on any feed: each fill reported is of an order of ours that took
    effect, at a price no worse than that order's limit, and every order of ours rests at its own limit.
   */
  lemma FillsWithinLimit(c: Config, es: seq<Event>)
    requires c.maxPx >= 0
    ensures var b := Run(c, Init(c), es);
            && (forall t :: t in b.notes && t.Fill? ==>
                  exists s, px :: Sent(b.applied, t.n, s, px) && Within(s, px, t.px))
            && (forall s, p, n :: Holds(b.Lev(s, p), Sim(n)) ==> Sent(b.applied, n, s, p))
  {
    hide Run, Sent, Holds, Within, Book.Lev, LimitsOk;
    assert LimitsOk(Init(c)) by { InitLimits(c); }
    RunLimits(c, Init(c), es);
    LimitsAre(Run(c, Init(c), es));
  }

  lemma InitLimits(c: Config)
    requires c.maxPx >= 0
    ensures LimitsOk(Init(c)) && Tall(c, Init(c))
  {
    assert forall s, p :: Init(c).Lev(s, p) == [];
  }

  lemma LimitsAre(b: Book)
    requires LimitsOk(b)
    ensures forall t :: t in b.notes && t.Fill? ==> exists s, px :: Sent(b.applied, t.n, s, px) && Within(s, px, t.px)
    ensures forall s, p, n :: Holds(b.Lev(s, p), Sim(n)) ==> Sent(b.applied, n, s, p)
  {
    hide Sent, Holds, Within, Book.Lev;
    forall t | t in b.notes && t.Fill? ensures exists s, px :: Sent(b.applied, t.n, s, px) && Within(s, px, t.px) {
      assert WithinLimit(b.applied, t);
    }
  }
}
