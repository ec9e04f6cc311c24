/**
  What the probe reports, told from the events alone: its market volume and totals, and for every window
  the fills each leg measures, the times it is stamped with and the inventory it carried.
 */
module ProbeHistory {
  import opened Probe
  import opened ProbeTheorems
  import opened ProbeClock

  // ----- sums over the events

  datatype Count = Vol | Val | AggVol(s: Side) | AggVal(s: Side) | Lots(s: Side) | Money(s: Side) | Lights(s: Side)

  /** What one event adds: trades to the market's volume and value, and to the stream of the side they traded
      with; fills to the lots and money of their side; fills of a light to what its book has heard of. */
  function Adds(e: Event, k: Count): int {
    match e
    case Trade(resting, px, sz) =>
      (match k
       case Vol => sz
       case Val => px * sz
       case AggVol(s) => if resting == Some(s) then sz else 0
       case AggVal(s) => if resting == Some(s) then px * sz else 0
       case _ => 0)
    case Fill(s, px, sz, _) => if k == Lots(s) then sz else if k == Money(s) then px * sz else 0
    case LightFill(s, sz) => if k == Lights(s) && sz >= 1 then sz else 0
    case _ => 0
  }

  function Sum(es: seq<Event>, k: Count): int {
    if es == [] then 0 else Sum(es[..|es| - 1], k) + Adds(es[|es| - 1], k)
  }

  function Streamed(es: seq<Event>, s: Side): Cum {
    Cum(Sum(es, Vol), Sum(es, Val), Sum(es, AggVol(s)), Sum(es, AggVal(s)))
  }

  /** The signed lots filled. */
  function Net(es: seq<Event>): int { Sum(es, Lots(Buy)) - Sum(es, Lots(Sell)) }

  /** The last touch that is neither empty, locked nor crossed. */
  function Touch(es: seq<Event>): (int, int) {
    if es == [] then (0, 0)
    else
      var e := es[|es| - 1];
      if e.Burst? && 0 < e.bid < e.ask then (e.bid, e.ask) else Touch(es[..|es| - 1])
  }

  /** The last alarm with a time. */
  function LastAlarm(es: seq<Event>): nat {
    if es == [] then 0
    else
      var e := es[|es| - 1];
      if e.Alarm? && e.now != 0 then e.now else LastAlarm(es[..|es| - 1])
  }

  lemma Next(es: seq<Event>, e: Event)
    ensures forall k :: Sum(es + [e], k) == Sum(es, k) + Adds(e, k)
    ensures Touch(es + [e]) == if e.Burst? && 0 < e.bid < e.ask then (e.bid, e.ask) else Touch(es)
    ensures LastAlarm(es + [e]) == if e.Alarm? && e.now != 0 then e.now else LastAlarm(es)
  {
    assert (es + [e])[..|es|] == es;
  }

  // ----- totals

  /** The probe's totals are those of the events. */
  ghost predicate Tallies(p: Probe, es: seq<Event>) {
    && (forall s: Side :: p.Stream(s) == Streamed(es, s))
    && (forall s: Side :: p.D(s).filled == Sum(es, Lots(s)) && p.D(s).lights == Sum(es, Lights(s)))
    && p.inv.position == Net(es) && (p.bid, p.ask) == Touch(es) && p.lastTim == LastAlarm(es)
  }

  /** `q` counts the event on top of what `p` counts. */
  ghost predicate CountsOn(p: Probe, q: Probe, e: Event) {
    && (forall s: Side ::
          var t := p.Stream(s);
          && q.Stream(s) == Cum(t.vol + Adds(e, Vol), t.notional + Adds(e, Val),
                                t.aggVol + Adds(e, AggVol(s)), t.aggNotional + Adds(e, AggVal(s))))
    && (forall s: Side :: q.D(s).filled == p.D(s).filled + Adds(e, Lots(s)))
    && (forall s: Side :: q.D(s).lights == p.D(s).lights + Adds(e, Lights(s)))
    && q.inv.position == p.inv.position + Adds(e, Lots(Buy)) - Adds(e, Lots(Sell))
    && (q.bid, q.ask) == (if e.Burst? && 0 < e.bid < e.ask then (e.bid, e.ask) else (p.bid, p.ask))
    && q.lastTim == (if e.Alarm? && e.now != 0 then e.now else p.lastTim)
  }

  lemma CountedOn(p: Probe, q: Probe, e: Event, es: seq<Event>)
    requires Tallies(p, es) && CountsOn(p, q, e)
    ensures Tallies(q, es + [e])
  {
    hide Sum, Touch, LastAlarm, Adds;
    Next(es, e);
    forall s: Side ensures q.Stream(s) == Streamed(es + [e], s) { assert p.Stream(s) == Streamed(es, s); }
    forall s: Side
      ensures q.D(s).filled == Sum(es + [e], Lots(s)) && q.D(s).lights == Sum(es + [e], Lights(s))
    {
      assert p.D(s).filled == Sum(es, Lots(s));
    }
  }

  lemma StepTallies(c: Config, p: Probe, e: Event)
    requires Running(c, p) && Running(c, Step(c, p, e))
    ensures CountsOn(p, Step(c, p, e), e)
  {
    hide OnAlarm, OnFill, OnTrade, OnLight, CountsOn, Adds;
    match e
    case Alarm(now) => AlarmTallies(c, p, now); AlarmCountsOn(p, OnAlarm(c, p, now), now);
    case Fill(s, px, sz, tim) => FillTallies(c, p, s, px, sz, tim); FillCountsOn(p, OnFill(c, p, s, px, sz, tim), e);
    case Trade(resting, px, sz) => TradeCountsOn(p, resting, px, sz);
    case LightFill(s, sz) => LightTallies(p, s, sz); LightCountsOn(p, OnLight(p, s, sz), e);
    case Burst(bid, ask) => TouchCountsOn(p, Step(c, p, e), bid, ask);
    case Shutdown =>
  }

  lemma AlarmCountsOn(p: Probe, q: Probe, now: nat)
    requires q.bid == p.bid && q.ask == p.ask && q.hits == p.hits && q.takes == p.takes
    requires q.lastTim == (if now != 0 then now else p.lastTim) && q.inv.position == p.inv.position
    requires forall s: Side :: q.D(s).filled == p.D(s).filled && q.D(s).lights == p.D(s).lights
    ensures CountsOn(p, q, Alarm(now))
  {}

  lemma FillCountsOn(p: Probe, q: Probe, e: Event)
    requires e.Fill?
    requires q.bid == p.bid && q.ask == p.ask && q.hits == p.hits && q.takes == p.takes && q.lastTim == p.lastTim
    requires q.inv.position == p.inv.position + (if e.side.Buy? then e.sz else -e.sz)
    requires forall t: Side :: q.D(t).filled == p.D(t).filled + (if t == e.side then e.sz else 0)
                               && q.D(t).lights == p.D(t).lights
    ensures CountsOn(p, q, e)
  {}

  lemma TradeCountsOn(p: Probe, resting: Option<Side>, px: int, sz: int)
    ensures CountsOn(p, OnTrade(p, resting, px, sz), Trade(resting, px, sz))
  {}

  lemma LightCountsOn(p: Probe, q: Probe, e: Event)
    requires e.LightFill?
    requires q.bid == p.bid && q.ask == p.ask && q.hits == p.hits && q.takes == p.takes && q.lastTim == p.lastTim
    requires q.inv.position == p.inv.position
    requires forall t: Side :: q.D(t).filled == p.D(t).filled
                               && q.D(t).lights == p.D(t).lights + (if t == e.side && e.sz >= 1 then e.sz else 0)
    ensures CountsOn(p, q, e)
  {}

  lemma LightTallies(p: Probe, s: Side, sz: int)
    ensures var q := OnLight(p, s, sz);
            && q.bid == p.bid && q.ask == p.ask && q.hits == p.hits && q.takes == p.takes && q.lastTim == p.lastTim
            && q.inv == p.inv
            && forall t: Side :: q.D(t).filled == p.D(t).filled
                                 && q.D(t).lights == p.D(t).lights + (if t == s && sz >= 1 then sz else 0)
  {}

  lemma TouchCountsOn(p: Probe, q: Probe, bid: int, ask: int)
    requires q == if 0 < bid < ask then p.(bid := bid, ask := ask) else p
    ensures CountsOn(p, q, Burst(bid, ask))
  {}

  lemma AlarmTallies(c: Config, p: Probe, now: nat)
    requires Running(c, p)
    ensures var q := OnAlarm(c, p, now);
            && q.bid == p.bid && q.ask == p.ask && q.hits == p.hits && q.takes == p.takes
            && q.lastTim == (if now != 0 then now else p.lastTim) && q.inv.position == p.inv.position
            && forall s: Side :: q.D(s).filled == p.D(s).filled && q.D(s).lights == p.D(s).lights
  {
    hide NextSession, Tick;
    var p1 := p.(lastTim := now);
    NextSessionFrame(c, p1, now);
    TickSession(c, NextSession(c, p1, now), now);
  }

  lemma FillTallies(c: Config, p: Probe, s: Side, px: int, sz: int, tim: nat)
    requires Running(c, p) && !OnFill(c, p, s, px, sz, tim).dead
    ensures var q := OnFill(c, p, s, px, sz, tim);
            && q.bid == p.bid && q.ask == p.ask && q.hits == p.hits && q.takes == p.takes && q.lastTim == p.lastTim
            && q.inv.position == p.inv.position + (if s.Buy? then sz else -sz)
            && forall t: Side :: q.D(t).filled == p.D(t).filled + (if t == s then sz else 0)
                                 && q.D(t).lights == p.D(t).lights
  {
    hide FillLeg, MarkFails;
  }

  /** A probe that runs has been running from the start. */
  lemma RanBefore(c: Config, p: Probe, e: Event)
    requires Running(c, Step(c, p, e))
    ensures Running(c, p)
  {
    hide NextSession, Tick, FillLeg, MarkFails, Accrue, Move;
  }

  /**
    While the probe runs: its two streams are the market's volume and value and those of the trades that hit
    bids or took offers, each side's total is its fills, its position the signed fills, its touch the last
    valid one.
   */
  lemma {:induction false} TotalsTell(c: Config, start: nat, end: nat, es: seq<Event>)
    requires Running(c, Run(c, Init(c, start, end), es))
    ensures var p := Run(c, Init(c, start, end), es);
            && p.hits == Cum(Sum(es, Vol), Sum(es, Val), Sum(es, AggVol(Buy)), Sum(es, AggVal(Buy)))
            && p.takes == Cum(Sum(es, Vol), Sum(es, Val), Sum(es, AggVol(Sell)), Sum(es, AggVal(Sell)))
            && Tallies(p, es)
  {
    hide Step, Sum, Running, Run, Tallies, CountsOn;
    var p0 := Init(c, start, end);
    if es == [] {
      RunNothing(c, p0);
      NothingYet(c, start, end);
    } else {
      var n := |es| - 1;
      var p := Run(c, p0, es[..n]);
      RunNext(c, p0, es);
      RanBefore(c, p, es[n]);
      TotalsTell(c, start, end, es[..n]);
      StepTallies(c, p, es[n]);
      CountedOn(p, Run(c, p0, es), es[n], es[..n]);
      assert es[..n] + [es[n]] == es;
    }
    StreamsAre(Run(c, p0, es), es);
  }

  lemma StreamsAre(p: Probe, es: seq<Event>)
    requires Tallies(p, es)
    ensures p.hits == Streamed(es, Buy) && p.takes == Streamed(es, Sell)
  {
    assert p.Stream(Buy) == p.hits && p.Stream(Sell) == p.takes;
  }

  lemma NothingYet(c: Config, start: nat, end: nat)
    ensures Tallies(Init(c, start, end), [])
  {}

  // ----- what a leg measures

  predicate FillOf(e: Event, s: Side) { e.Fill? && e.side == s }

  /** What the events from `k` up to `m` add. */
  function Between(es: seq<Event>, k: nat, m: nat, n: Count): int
    requires k <= m <= |es|
  {
    Sum(es[..m], n) - Sum(es[..k], n)
  }

  /** How many events there were up to the last fill of side `s` after the first `k`, or `k` if there was none. */
  function LastFill(es: seq<Event>, k: nat, s: Side): (r: nat)
    requires k <= |es|
    ensures k <= r <= |es|
  {
    if |es| == k then k else if FillOf(es[|es| - 1], s) then |es| else LastFill(es[..|es| - 1], k, s)
  }

  /** The time of a fill that carries none is that of the last alarm before it. */
  function Stamp(before: seq<Event>, e: Event): nat
    requires e.Fill?
  {
    if e.tim != 0 then e.tim else LastAlarm(before)
  }

  /**
    The leg of side `s` of the window that opened at time `fire`, `k` events into the run, measures its
    side's fills up to event `m`: all of them so far while it is unfinished, and those up to the one that
    brought it to its work once it is done. It ends with that fill's time, but not before the window, and at
    that fill's mid.
   */
  ghost predicate LegTells(es: seq<Event>, k: nat, fire: nat, s: Side, l: Leg, m: nat) {
    && k <= m <= |es|
    && l.started == fire && l.anchored
    && l.filled == Between(es, k, m, Lots(s)) && l.notional == Between(es, k, m, Money(s))
    && l.first == Streamed(es[..k], s) && l.last == Streamed(es[..LastFill(es[..m], k, s)], s)
    && if l.done then Completes(es, k, fire, s, l, m) else m == |es| && l.filled < l.toDo
  }

  ghost predicate Completes(es: seq<Event>, k: nat, fire: nat, s: Side, l: Leg, m: nat)
    requires k <= m <= |es|
  {
    && k < m && FillOf(es[m - 1], s) && Between(es, k, m - 1, Lots(s)) < l.toDo <= l.filled
    && l.ended == Max(fire, Stamp(es[..m - 1], es[m - 1]))
    && var (bid, ask) := Touch(es[..m - 1]); l.endMid == bid + ask
  }

  lemma LegStays(es: seq<Event>, e: Event, k: nat, fire: nat, s: Side, l: Leg, m: nat)
    requires LegTells(es, k, fire, s, l, m) && (l.done || !FillOf(e, s))
    ensures LegTells(es + [e], k, fire, s, l, if l.done then m else m + 1)
  {
    hide Touch, Sum, Stamp, LastAlarm;
    var z := es + [e];
    assert z[..m] == es[..m] && z[..k] == es[..k];
    if l.done {
      assert z[..m - 1] == es[..m - 1];
      PrefixesOf(es, e);
      LastWithin(es[..m], k, s);
    } else {
      Next(es, e);
      assert z[..|z|] == z && z[..|es|] == es && es[..|es|] == es;
      PrefixesOf(es, e);
    }
  }

  lemma LastWithin(h: seq<Event>, k: nat, s: Side)
    requires k <= |h|
    ensures LastFill(h, k, s) <= |h|
  {}

  lemma PrefixesOf(es: seq<Event>, e: Event)
    ensures forall j :: 0 <= j <= |es| ==> (es + [e])[..j] == es[..j]
  {}

  lemma LegFilled(p: Probe, es: seq<Event>, e: Event, k: nat, fire: nat, s: Side, l: Leg)
    requires LegTells(es, k, fire, s, l, |es|) && !l.done && Tallies(p, es) && FillOf(e, s)
    ensures LegTells(es + [e], k, fire, s, FillLeg(p, l, p.Stream(s), e.px, e.sz, e.tim), |es| + 1)
  {
    hide Touch, Sum, LastAlarm, FillLeg, Tallies;
    var z := es + [e];
    Next(es, e);
    assert z[..|z|] == z && z[..|es|] == es && es[..|es|] == es && z[..k] == es[..k];
    assert LastFill(z, k, s) == |z|;
    TalliesAre(p, es, s);
    assert p.Stream(s) == Streamed(z, s);
    FilledLeg(p, l, p.Stream(s), e.px, e.sz, e.tim);
  }

  lemma TalliesAre(p: Probe, es: seq<Event>, s: Side)
    requires Tallies(p, es)
    ensures p.Stream(s) == Streamed(es, s) && p.lastTim == LastAlarm(es) && (p.bid, p.ask) == Touch(es)
  {}

  lemma FilledLeg(p: Probe, l: Leg, cum: Cum, px: int, sz: int, tim: nat)
    requires !l.done && l.anchored
    ensures var r := FillLeg(p, l, cum, px, sz, tim);
            && r.filled == l.filled + sz && r.notional == l.notional + px * sz && r.toDo == l.toDo
            && r.started == l.started && r.anchored && r.first == l.first && r.last == cum
            && (r.done <==> r.filled >= l.toDo)
            && (r.done ==> r.ended == Max(l.started, if tim != 0 then tim else p.lastTim) && r.endMid == p.bid + p.ask)
  {}

  // ----- what a window carries

  /** How far the inventory of the window is accounted: to the latest time of its fills. */
  function Clock(es: seq<Event>, k: nat, fire: nat): nat
    requires k <= |es|
  {
    if |es| == k then fire
    else
      var before, e := es[..|es| - 1], es[|es| - 1];
      if e.Fill? then Max(Clock(before, k, fire), Stamp(before, e)) else Clock(before, k, fire)
  }

  /** The position times the time it was held, summed over the window; `abs` for its size alone. */
  function Carried(es: seq<Event>, k: nat, fire: nat, abs: bool): int
    requires k <= |es|
  {
    if |es| == k then 0
    else
      var before := es[..|es| - 1];
      var held := Clock(es, k, fire) - Clock(before, k, fire);
      Carried(before, k, fire, abs) + (if abs then Abs(Net(before)) else Net(before)) * held
  }

  ghost predicate Extremes(es: seq<Event>, k: nat, v: Inventory)
    requires k <= |es|
  {
    && (forall j :: k <= j <= |es| ==> v.min <= Net(es[..j]) <= v.max)
    && (exists j :: k <= j <= |es| && Net(es[..j]) == v.max)
    && (exists j :: k <= j <= |es| && Net(es[..j]) == v.min)
  }

  /** The inventory is that of the window's fills. */
  ghost predicate InventoryTells(es: seq<Event>, k: nat, fire: nat, v: Inventory) {
    && k <= |es| && v.position == Net(es) && v.lastTim == Clock(es, k, fire) > 0
    && v.integral == Carried(es, k, fire, false) && v.absIntegral == Carried(es, k, fire, true)
    && Extremes(es, k, v)
  }

  lemma InventoryStays(es: seq<Event>, e: Event, k: nat, fire: nat, v: Inventory)
    requires InventoryTells(es, k, fire, v) && !e.Fill?
    ensures InventoryTells(es + [e], k, fire, v)
  {
    hide Sum, Extremes;
    Next(es, e);
    assert (es + [e])[..|es|] == es;
    NowWithin(es, k, v);
    ExtremesNext(es, e, k, v, v);
  }

  lemma NowWithin(es: seq<Event>, k: nat, v: Inventory)
    requires k <= |es| && Extremes(es, k, v)
    ensures v.min <= Net(es) <= v.max
  {
    hide Net;
    assert es[..|es|] == es;
  }

  /** A step moves the extremes to the new position if it is beyond them. */
  lemma ExtremesNext(es: seq<Event>, e: Event, k: nat, v: Inventory, w: Inventory)
    requires k <= |es| && Extremes(es, k, v)
    requires w.max == Max(v.max, Net(es + [e])) && w.min == Min(v.min, Net(es + [e]))
    ensures Extremes(es + [e], k, w)
  {
    hide Net;
    var z := es + [e];
    PrefixesOf(es, e);
    assert z[..|z|] == z;
    var a :| k <= a <= |es| && Net(es[..a]) == v.max;
    var b :| k <= b <= |es| && Net(es[..b]) == v.min;
    assert Net(z[..a]) == v.max && Net(z[..b]) == v.min && Net(z[..|z|]) == Net(z);
  }

  lemma InventoryMoves(es: seq<Event>, e: Event, k: nat, fire: nat, v: Inventory)
    requires InventoryTells(es, k, fire, v) && e.Fill?
    ensures InventoryTells(es + [e], k, fire,
                           Move(Accrue(v, fire, Stamp(es, e)), fire, if e.side.Buy? then e.sz else -e.sz))
  {
    hide Sum, Extremes, Accrue, Carried, Clock;
    var a := Accrue(v, fire, Stamp(es, e));
    var w := Move(a, fire, if e.side.Buy? then e.sz else -e.sz);
    Next(es, e);
    AccrueTells(v, fire, Stamp(es, e));
    CarriedNext(es, e, k, fire);
    assert Net(es + [e]) == w.position;
    ExtremesNext(es, e, k, v, w);
  }

  lemma CarriedNext(es: seq<Event>, e: Event, k: nat, fire: nat)
    requires k <= |es| && e.Fill?
    ensures var z, at := es + [e], Clock(es, k, fire);
            var held := Max(Stamp(es, e) - at, 0);
            && Clock(z, k, fire) == Max(at, Stamp(es, e))
            && Carried(z, k, fire, false) == Carried(es, k, fire, false) + Net(es) * held
            && Carried(z, k, fire, true) == Carried(es, k, fire, true) + Abs(Net(es)) * held
  {
    hide Sum, Net, LastAlarm;
    assert (es + [e])[..|es|] == es;
  }

  // ----- the open window of a run

  /** How many events of the run had happened when the last window opened. */
  function OpenedAt(c: Config, p0: Probe, es: seq<Event>): (k: nat)
    ensures k <= |es|
  {
    if es == [] then 0
    else if Run(c, p0, es).starts != Run(c, p0, es[..|es| - 1]).starts then |es|
    else OpenedAt(c, p0, es[..|es| - 1])
  }

  /** The window opened by event `k - 1`, an alarm, is what the fills since then make it. */
  ghost predicate WindowTells(es: seq<Event>, k: nat, p: Probe) {
    && 0 < k <= |es| && es[k - 1] == Alarm(p.fireTs) && p.fireTs > 0
    && InventoryTells(es, k, p.fireTs, p.inv)
    && forall s: Side :: LegIsTold(es, k, p.fireTs, s, p.D(s).leg)
  }

  ghost predicate LegIsTold(es: seq<Event>, k: nat, fire: nat, s: Side, l: Leg) {
    exists m :: LegTells(es, k, fire, s, l, m)
  }

  lemma FreshTells(c: Config, es: seq<Event>, p: Probe, q: Probe, now: nat)
    requires Fresh(p, q, now) && now > 0 && Tallies(p, es) && Good(c, q)
    ensures WindowTells(es + [Alarm(now)], |es| + 1, q)
  {
    hide Sum, Touch, LastAlarm, Good;
    var z := es + [Alarm(now)];
    Next(es, Alarm(now));
    assert z[..|z|] == z;
    assert Net(z) == Net(es);
    forall s: Side ensures LegIsTold(z, |z|, now, s, q.D(s).leg) {
      TalliesAre(p, es, s);
      GoodLeg(c, q, s);
      assert LegTells(z, |z|, now, s, q.D(s).leg, |z|);
    }
  }

  lemma GoodLeg(c: Config, q: Probe, s: Side)
    requires Good(c, q) && q.open
    ensures LegOk(c, q, q.D(s))
  {
    hide RowsOk, InvOk, LegOk;
  }

  lemma QuietTells(es: seq<Event>, e: Event, k: nat, p: Probe, q: Probe)
    requires WindowTells(es, k, p) && !e.Fill? && q.fireTs == p.fireTs && q.inv == p.inv
    requires forall s: Side :: q.D(s).leg == p.D(s).leg
    ensures WindowTells(es + [e], k, q)
  {
    hide InventoryTells, LegTells;
    InventoryStays(es, e, k, p.fireTs, p.inv);
    forall s: Side ensures LegIsTold(es + [e], k, q.fireTs, s, q.D(s).leg) {
      LegIsStill(es, e, k, p.fireTs, s, p.D(s).leg);
    }
  }

  lemma LegIsStill(es: seq<Event>, e: Event, k: nat, fire: nat, s: Side, l: Leg)
    requires LegIsTold(es, k, fire, s, l) && (l.done || !FillOf(e, s))
    ensures LegIsTold(es + [e], k, fire, s, l)
  {
    hide LegTells;
    var m :| LegTells(es, k, fire, s, l, m);
    LegStays(es, e, k, fire, s, l, m);
  }

  lemma FillTells(c: Config, p: Probe, es: seq<Event>, e: Event, k: nat)
    requires WindowTells(es, k, p) && Tallies(p, es) && Running(c, p) && p.open && e.Fill?
    requires Running(c, Step(c, p, e))
    ensures WindowTells(es + [e], k, Step(c, p, e))
  {
    hide InventoryTells, LegTells, Accrue, Move, FillLeg, MarkFails, Tallies;
    var q, d := Step(c, p, e), if e.side.Buy? then e.sz else -e.sz;
    TalliesAre(p, es, e.side);
    InventoryMoves(es, e, k, p.fireTs, p.inv);
    assert q.inv == Move(Accrue(p.inv, p.fireTs, Stamp(es, e)), p.fireTs, d);
    forall s: Side ensures LegIsTold(es + [e], k, q.fireTs, s, q.D(s).leg) {
      assert LegIsTold(es, k, p.fireTs, s, p.D(s).leg);
      if s == e.side && !p.D(s).leg.done {
        assert q.D(s).leg == FillLeg(p, p.D(s).leg, p.Stream(s), e.px, e.sz, e.tim);
        var m :| LegTells(es, k, p.fireTs, s, p.D(s).leg, m);
        assert m == |es| by { LegOpen(es, k, p.fireTs, s, p.D(s).leg, m); }
        LegFilled(p, es, e, k, p.fireTs, s, p.D(s).leg);
      } else {
        assert q.D(s).leg == p.D(s).leg;
        LegIsStill(es, e, k, p.fireTs, s, p.D(s).leg);
      }
    }
  }

  lemma LegOpen(es: seq<Event>, k: nat, fire: nat, s: Side, l: Leg, m: nat)
    requires LegTells(es, k, fire, s, l, m) && !l.done
    ensures m == |es|
  {}

  /** What one event does to the window that is open after it. */
  lemma WindowStep(c: Config, p: Probe, es: seq<Event>, e: Event, k: nat)
    requires Sound(c) && Good(c, p) && Tallies(p, es) && (e.Trade? ==> e.sz >= 0)
    requires p.open ==> WindowTells(es, k, p)
    requires Running(c, p) && Running(c, Step(c, p, e)) && Step(c, p, e).open
    ensures var q := Step(c, p, e);
            if q.starts != p.starts then WindowTells(es + [e], |es| + 1, q) else WindowTells(es + [e], k, q)
  {
    hide WindowTells, Good, Tallies, Fresh, OnAlarm, OnFill, Closing, Opening, ClosedRow;
    var q := Step(c, p, e);
    StepGood(c, p, e);
    match e
    case Alarm(now) =>
      if now == 0 {
        assert q == p by { AlarmIgnored(c, p, now); }
        QuietTells(es, e, k, p, q);
      } else {
        AlarmOutcome(c, p, now);
        if Opening(c, p, q, now) {
          FreshTells(c, es, p, q, now);
        } else {
          QuietTells(es, e, k, p, q);
        }
      }
    case Fill(s, px, sz, tim) =>
      FillWindow(c, p, s, px, sz, tim);
      FillTells(c, p, es, e, k);
    case _ => OtherWindow(c, p, e); QuietTells(es, e, k, p, q);
  }

  lemma FillWindow(c: Config, p: Probe, s: Side, px: int, sz: int, tim: nat)
    ensures var q := OnFill(c, p, s, px, sz, tim); q.open == p.open && q.starts == p.starts && q.rows == p.rows
  {
    hide Accrue, Move, FillLeg, MarkFails;
  }

  lemma OtherWindow(c: Config, p: Probe, e: Event)
    requires Running(c, p) && !e.Alarm? && !e.Fill? && !e.Shutdown?
    ensures var q := Step(c, p, e);
            && q.open == p.open && q.fireTs == p.fireTs && q.inv == p.inv && q.starts == p.starts && q.rows == p.rows
            && forall s: Side :: q.D(s).leg == p.D(s).leg
  {}

  /**
    The open window of every run, told from the events since the alarm that opened it: what each leg has
    measured, when and at which mid it was completed, what the market did meanwhile, and the inventory
    carried.
   */
  lemma {:induction false} WindowOfRun(c: Config, start: nat, end: nat, es: seq<Event>)
    requires Sound(c) && Orderly(es)
    requires Running(c, Run(c, Init(c, start, end), es)) && Run(c, Init(c, start, end), es).open
    ensures var p0 := Init(c, start, end); WindowTells(es, OpenedAt(c, p0, es), Run(c, p0, es))
  {
    hide Step, Running, Run, Tallies, WindowTells, Good;
    var p0 := Init(c, start, end);
    if es == [] {
      RunNothing(c, p0);
    } else {
      var n := |es| - 1;
      var p := Run(c, p0, es[..n]);
      RunNext(c, p0, es);
      RanBefore(c, p, es[n]);
      EveryRun(c, start, end, es[..n]);
      TotalsTell(c, start, end, es[..n]);
      if p.open { WindowOfRun(c, start, end, es[..n]); }
      WindowStep(c, p, es[..n], es[n], OpenedAt(c, p0, es[..n]));
      assert es[..n] + [es[n]] == es;
    }
  }

  // ----- the rows of a run

  /** The row of a window cut off by the shutdown: unfinished legs end with the last alarm, and so does it. */
  ghost predicate CutRow(p: Probe, w: Row) {
    && !w.ok && w.fireTs == p.fireTs && w.closeTs == p.lastTim && RowInventory(p, w)
    && forall s: Side :: w.L(s) == if p.D(s).leg.done then p.D(s).leg else p.D(s).leg.(ended := p.lastTim)
  }

  /** The shutdown ends the probe, with one more row exactly when it runs and a window is open. */
  lemma ShutdownOutcome(c: Config, p: Probe)
    requires Good(c, p) && !p.dead && !p.stopped
    ensures var r := Step(c, p, Shutdown);
            && r.stopped && !r.dead && !r.open
            && if p.open then |r.rows| == |p.rows| + 1 && p.rows <= r.rows && CutRow(p, r.rows[|p.rows|])
               else r.rows == p.rows
  {
    hide Good, Accrue;
    if p.open {
      GoodInventory(c, p);
      GoodRuns(c, p);
      AccrueTells(p.inv, p.fireTs, p.lastTim);
      var r := Step(c, p, Shutdown);
      assert forall s: Side :: r.rows[|p.rows|].L(s) == CutOff(p.D(s), p.lastTim).leg;
    }
  }

  lemma GoodRuns(c: Config, p: Probe)
    requires Good(c, p) && p.open
    ensures Enabled(c, p)
  {}

  /** The row was written by event `n`, which found its window open. */
  ghost predicate WrittenBy(c: Config, p0: Probe, es: seq<Event>, n: nat, w: Row) {
    n < |es| &&
    var p := Run(c, p0, es[..n]);
    && Running(c, p) && p.open
    && if w.ok
       then es[n].Alarm? && es[n].now >= p.fireTs + c.minWindow && p.buy.leg.done && p.sel.leg.done
            && ClosedRow(p, es[n].now, w)
       else es[n].Shutdown? && CutRow(p, w)
  }

  lemma StepRows(c: Config, p: Probe, e: Event)
    requires Sound(c) && Good(c, p) && !Step(c, p, e).dead
    ensures var q := Step(c, p, e);
            q.rows == p.rows ||
            (Running(c, p) && p.open && |q.rows| == |p.rows| + 1 && p.rows <= q.rows
             && var w := q.rows[|p.rows|];
                if e.Alarm? then e.now >= p.fireTs + c.minWindow && p.buy.leg.done && p.sel.leg.done
                                 && w.ok && ClosedRow(p, e.now, w)
                else e.Shutdown? && !w.ok && CutRow(p, w))
  {
    hide Good, OnAlarm, OnFill, OnShutdown, Fresh, ClosedRow, CutRow;
    if !p.dead && !p.stopped {
      match e
      case Alarm(now) => AlarmRows(c, p, now);
      case Fill(s, px, sz, tim) => FillWindow(c, p, s, px, sz, tim);
      case Shutdown => CutIsCut(c, p);
      case _ =>
    }
  }

  lemma CutIsCut(c: Config, p: Probe)
    requires Good(c, p) && !p.dead && !p.stopped
    ensures var q := Step(c, p, Shutdown);
            q.rows == p.rows ||
            (Running(c, p) && p.open && |q.rows| == |p.rows| + 1 && p.rows <= q.rows && !q.rows[|p.rows|].ok
             && CutRow(p, q.rows[|p.rows|]))
  {
    hide Good, Step;
    ShutdownOutcome(c, p);
    if p.open { GoodRuns(c, p); }
  }

  lemma AlarmRows(c: Config, p: Probe, now: nat)
    requires Sound(c) && Good(c, p) && !p.dead && !p.stopped && !OnAlarm(c, p, now).dead
    ensures var q := OnAlarm(c, p, now);
            q.rows == p.rows ||
            (Running(c, p) && p.open && |q.rows| == |p.rows| + 1 && p.rows <= q.rows
             && var w := q.rows[|p.rows|];
                now >= p.fireTs + c.minWindow && p.buy.leg.done && p.sel.leg.done && w.ok && ClosedRow(p, now, w))
  {
    hide Good, OnAlarm, Fresh, RowInventory;
    if Enabled(c, p) && now != 0 {
      AlarmOutcome(c, p, now);
      assert Step(c, p, Alarm(now)) == OnAlarm(c, p, now);
    } else {
      AlarmIgnored(c, p, now);
      assert Step(c, p, Alarm(now)) == OnAlarm(c, p, now);
    }
  }

  /**
    Every row of every run was written by one event of it, the alarm that ended its window or the shutdown
    that cut it off, and shows the legs and the inventory that `WindowOfRun` tells of the window at that
    event.
   */
  lemma {:induction false} RowsOfRun(c: Config, start: nat, end: nat, es: seq<Event>, w: Row)
    requires Sound(c) && Orderly(es) && !Run(c, Init(c, start, end), es).dead
    requires w in Run(c, Init(c, start, end), es).rows
    ensures var p0 := Init(c, start, end);
            exists n: nat :: WrittenBy(c, p0, es, n, w)
                        && WindowTells(es[..n], OpenedAt(c, p0, es[..n]), Run(c, p0, es[..n]))
  {
    hide Step, Run, Running, Good, WindowTells, ClosedRow, CutRow;
    var p0 := Init(c, start, end);
    if es == [] {
      RunNothing(c, p0);
    } else {
      var n := |es| - 1;
      var p := Run(c, p0, es[..n]);
      RunNext(c, p0, es);
      EveryRun(c, start, end, es[..n]);
      AliveBefore(c, p, es[n]);
      if w in p.rows {
        RowsOfRun(c, start, end, es[..n], w);
        var m: nat :| WrittenBy(c, p0, es[..n], m, w)
                 && WindowTells(es[..n][..m], OpenedAt(c, p0, es[..n][..m]), Run(c, p0, es[..n][..m]));
        assert es[..n][..m] == es[..m] && es[..n][m] == es[m];
        assert WrittenBy(c, p0, es, m, w);
      } else {
        StepRows(c, p, es[n]);
        var q := Run(c, p0, es);
        var i :| 0 <= i < |q.rows| && q.rows[i] == w;
        assert i == |p.rows|;
        WindowOfRun(c, start, end, es[..n]);
        assert WrittenBy(c, p0, es, n, w);
      }
    }
  }

  lemma AliveBefore(c: Config, p: Probe, e: Event)
    requires !Step(c, p, e).dead
    ensures !p.dead
  {}
}
