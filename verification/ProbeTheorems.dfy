/**
  What every run of the slippage probe keeps: its assertions, its work accounting, the
  spacing of its windows and its inventory integral.
 */
module ProbeTheorems {
  import opened Probe

  // ----- what the feed owes the probe

  /** Trades have sizes. Nothing is asked of alarms, touches, fills or the order in which fills arrive. */
  predicate Orderly(es: seq<Event>) { forall i :: 0 <= i < |es| && es[i].Trade? ==> es[i].sz >= 0 }

  predicate Sound(c: Config) { c.minWindow > 0 }

  /**
    A side for which a window cannot open: its book has run 1000 parents or more ahead, or the probe
    counts so many more fills than the book that the parents handed out leave nothing to do.
   */
  predicate Overrun(c: Config, d: Desk)
    requires c.parent > 0
  {
    || d.lights - d.given >= 1000 * c.parent
    || d.filled - d.given >= Rounds(c.parent, d.lights - d.given) * c.parent
  }

  /** The event fails an assertion: an alarm opens a window for an overrun side, or a fill has no size or price. */
  ghost predicate Aborts(c: Config, p: Probe, e: Event) {
    && !p.dead && !p.stopped && Enabled(c, p)
    && match e
       case Alarm(now) => Opens(c, p, now) && exists s: Side :: Overrun(c, p.D(s))
       case Fill(_, px, sz, _) => px <= 0 || sz <= 0
       case _ => false
  }

  /** The alarm opens a window, after moving to the next session and closing the last window. */
  predicate Opens(c: Config, p: Probe, now: nat) {
    Enabled(c, p) && now != 0 && OpensNow(c, NextSession(c, p, now), now)
  }

  predicate OpensNow(c: Config, q: Probe, now: nat) {
    && q.start <= now && q.bid > 0 && q.ask > 0
    && if q.open then CanClose(c, q, now) && now + c.minWindow <= q.end else now < q.end
  }

  predicate CanClose(c: Config, p: Probe, now: nat) {
    now >= p.fireTs + c.minWindow && p.buy.leg.done && p.sel.leg.done
  }

  // ----- the invariant

  /** Sum of what the rows measured on one side. */
  function Measured(rows: seq<Row>, s: Side): int {
    if rows == [] then 0 else Measured(rows[..|rows| - 1], s) + rows[|rows| - 1].L(s).filled
  }

  ghost predicate LegOk(c: Config, p: Probe, d: Desk) {
    var l := d.leg;
    && l.started == p.fireTs && 1 <= l.toDo
    && l.filled >= 0 && l.notional >= 0 && (l.filled > 0 ==> l.notional > 0)
    && (l.done <==> l.filled >= l.toDo)
    && (l.done ==> l.started <= l.ended)
    && (l.done <==> d.filled >= d.given)
    && (!l.done ==> d.filled == d.given - l.toDo + l.filled)
  }

  /** From one snapshot to a later one volume never falls, and the aggressor stream is part of it. */
  predicate Flows(a: Cum, b: Cum) { 0 <= b.aggVol - a.aggVol <= b.vol - a.vol }

  ghost predicate DeskOk(c: Config, p: Probe, s: Side) {
    var d := p.D(s);
    && Ahead(s, d.book) == d.lights - d.given
    && Flows(d.leg.first, d.leg.last) && Flows(d.leg.last, p.Stream(s)) && Flows(NoCum, p.Stream(s))
    && d.filled == Measured(p.rows, s) + d.excluded + (if p.open then d.leg.filled else 0)
    && (p.open ==> LegOk(c, p, d))
    && (!p.open && !p.stopped ==> d.filled >= d.given)
  }

  predicate TouchOk(p: Probe) { (p.bid == 0 && p.ask == 0) || 0 < p.bid < p.ask }

  /** The inventory law over a window that began at `fireTs`. */
  predicate InvOk(v: Inventory, fireTs: nat) {
    var T := v.lastTim - fireTs;
    && 0 < fireTs <= v.lastTim && v.accrued == T
    && v.min <= v.position <= v.max
    && v.min * T <= v.integral <= v.max * T
    && Abs(v.integral) <= v.absIntegral
    && v.integral == v.position * T - v.moment
  }

  /** What a written row says. */
  ghost predicate RowOk(c: Config, r: Row) {
    && InvOk(r.inv, r.fireTs) && r.closeTs <= r.inv.lastTim
    && (forall s: Side :: 1 <= r.L(s).toDo && r.L(s).started == r.fireTs)
    && (forall s: Side :: Flows(r.L(s).first, r.L(s).last))
    && (r.ok ==> r.fireTs + c.minWindow <= r.closeTs)
    && (r.ok ==> forall s: Side :: r.L(s).filled >= r.L(s).toDo && r.fireTs <= r.L(s).ended <= r.closeTs
                                   && r.L(s).notional > 0)
  }

  ghost predicate RowsOk(c: Config, rows: seq<Row>) { forall r :: r in rows ==> RowOk(c, r) }

  ghost predicate Good(c: Config, p: Probe) {
    && TouchOk(p) && RowsOk(c, p.rows) && DeskOk(c, p, Buy) && DeskOk(c, p, Sell)
    && (p.open ==> InvOk(p.inv, p.fireTs) && Enabled(c, p))
  }

  // ----- pieces

  lemma {:induction false} NextSessionFrame(c: Config, p: Probe, now: nat)
    ensures var q := NextSession(c, p, now);
            && q == p.(session := q.session, start := q.start, end := q.end)
            && (p.open ==> q == p)
    decreases |c.sessions| - p.session
  {
    if !p.open && now >= p.end && p.session + 1 < |c.sessions| {
      var k := p.session + 1;
      NextSessionFrame(c, p.(session := k, start := c.sessions[k].0, end := c.sessions[k].1), now);
    }
  }

  /** The work handed out leaves the side between one lot and one parent from flat. */
  lemma GiveLeavesWork(c: Config, s: Side, d: Desk)
    requires c.parent > 0 && Ahead(s, d.book) >= 0
    ensures 1 <= -Ahead(s, Give(c, s, d).book) <= c.parent
    ensures Give(c, s, d).given - d.given == Ahead(s, d.book) - Ahead(s, Give(c, s, d).book)
  {
    var a, q := Ahead(s, d.book), Rounds(c.parent, Ahead(s, d.book)) * c.parent;
    DivBounds(a, c.parent);
    assert q == a / c.parent * c.parent + c.parent;
  }

  /** A window hands a side whole parents: one to a side that still has work, and otherwise the fewest that
      put it back to work. */
  lemma GiveWholeParents(c: Config, s: Side, d: Desk)
    requires c.parent > 0
    ensures var more, ahead := Give(c, s, d).given - d.given, Ahead(s, d.book);
            && (exists n :: n >= 1 && more == n * c.parent) && Ahead(s, Give(c, s, d).book) == ahead - more
            && more > ahead && more - c.parent <= Max(ahead, 0)
  {
    var a, n := Ahead(s, d.book), Rounds(c.parent, Ahead(s, d.book));
    if a >= 0 {
      DivBounds(a, c.parent);
      assert n * c.parent == a / c.parent * c.parent + c.parent;
    }
    assert Give(c, s, d).given - d.given == n * c.parent;
  }

  lemma DivBounds(a: int, m: int)
    requires m > 0
    ensures a / m * m <= a < a / m * m + m
  {}

  lemma MeasuredNext(rows: seq<Row>, r: Row, s: Side)
    ensures Measured(rows + [r], s) == Measured(rows, s) + r.L(s).filled
  {
    assert (rows + [r])[..|rows|] == rows;
  }

  // ----- opening a window

  /** What a window asks of a side: the book's distance from flat, corrected by what the book has not heard of. */
  lemma OpenDeskWork(c: Config, p: Probe, s: Side, now: nat)
    requires c.parent > 0 && DeskOk(c, p, s) && !p.open && !p.stopped
    ensures var d := OpenDesk(c, p, s, now);
            && d.leg.toDo == d.given - d.filled == -Ahead(s, d.book) + d.lights - d.filled
            && Ahead(s, d.book) == d.lights - d.given < 0
            && (d.lights == d.filled ==> 1 <= d.leg.toDo <= c.parent)
  {
    hide Give, Measured, LegOk;
    GiveMoves(c, s, p.D(s));
    GiveFrame(c, s, p.D(s));
    if p.D(s).lights == p.D(s).filled { GiveLeavesWork(c, s, p.D(s)); }
  }

  /** The rounds put the side back to work, and move its book by what they hand out. */
  lemma GiveMoves(c: Config, s: Side, d: Desk)
    requires c.parent > 0
    ensures Ahead(s, Give(c, s, d).book) < 0
    ensures Give(c, s, d).given - d.given == Ahead(s, d.book) - Ahead(s, Give(c, s, d).book)
  {
    if Ahead(s, d.book) >= 0 { GiveLeavesWork(c, s, d); }
  }

  lemma GiveFrame(c: Config, s: Side, d: Desk)
    requires c.parent > 0
    ensures var g := Give(c, s, d); g == d.(book := g.book, given := g.given)
  {}

  lemma OpenDeskOk(c: Config, p: Probe, s: Side, now: nat, q: Probe)
    requires c.parent > 0 && DeskOk(c, p, s) && !p.open && !p.stopped && OpenDesk(c, p, s, now).leg.toDo > 0
    requires q.D(s) == OpenDesk(c, p, s, now) && q.open && q.fireTs == now
    requires q.Stream(s) == p.Stream(s) && q.rows == p.rows
    ensures DeskOk(c, q, s)
  {
    hide Give, Measured, Ahead;
    OpenDeskWork(c, p, s, now);
    GiveFrame(c, s, p.D(s));
  }

  /** The exact condition under which opening aborts, whether or not the counts agree. */
  lemma OpenAbortsIff(c: Config, p: Probe, now: nat)
    requires c.parent > 0 && 0 < p.bid < p.ask && p.hits.vol >= 0 && p.takes.vol >= 0
    requires forall s: Side :: Ahead(s, p.D(s).book) == p.D(s).lights - p.D(s).given
    ensures OpenFails(c, p, now) <==> exists s: Side :: Overrun(c, p.D(s))
  {
    hide Rounds;
    assert p.D(Buy) == p.buy && p.D(Sell) == p.sel;
    GiveMoves(c, Buy, p.buy);
    GiveMoves(c, Sell, p.sel);
    assert OpenDesk(c, p, Buy, now).leg.toDo ==
           p.buy.given + Rounds(c.parent, p.buy.lights - p.buy.given) * c.parent - p.buy.filled;
    assert OpenDesk(c, p, Sell, now).leg.toDo ==
           p.sel.given + Rounds(c.parent, p.sel.lights - p.sel.given) * c.parent - p.sel.filled;
    assert Overrun(c, p.D(Buy)) || Overrun(c, p.D(Sell)) <==> exists s: Side :: Overrun(c, p.D(s));
  }

  lemma OpenWindowGood(c: Config, p: Probe, now: nat)
    requires c.parent > 0 && Good(c, p) && !p.open && !p.stopped && !p.dead
    requires now > 0 && p.bid > 0 && Enabled(c, p)
    ensures OpenFails(c, p, now) <==> exists s: Side :: Overrun(c, p.D(s))
    ensures var q := OpenWindow(c, p, now);
            (q.dead <==> OpenFails(c, p, now)) && Good(c, q) && !q.stopped
  {
    hide DeskOk, OpenDesk, RowsOk, Ahead, Overrun, TooFarAhead, MarkFails;
    assert p.D(Buy) == p.buy && p.D(Sell) == p.sel;
    VolOk(c, p);
    BooksOk(c, p);
    OpenAbortsIff(c, p, now);
    if !OpenFails(c, p, now) {
      var q := OpenWindow(c, p, now);
      OpenDeskOk(c, p, Buy, now, q);
      OpenDeskOk(c, p, Sell, now, q);
    } else {
      DeadGood(c, p);
    }
  }

  lemma BooksOk(c: Config, p: Probe)
    requires DeskOk(c, p, Buy) && DeskOk(c, p, Sell)
    ensures forall s: Side :: Ahead(s, p.D(s).book) == p.D(s).lights - p.D(s).given
  {
    hide Ahead, LegOk, Measured;
  }

  lemma VolOk(c: Config, p: Probe)
    requires DeskOk(c, p, Buy) && DeskOk(c, p, Sell)
    ensures p.hits.vol >= 0 && p.takes.vol >= 0
  {}

  lemma DeadGood(c: Config, p: Probe)
    requires Good(c, p)
    ensures Good(c, p.(dead := true))
  {
    hide RowsOk, LegOk, Measured, Ahead;
    SameDesk(c, p, p.(dead := true), Buy);
    SameDesk(c, p, p.(dead := true), Sell);
  }

  lemma SameDesk(c: Config, p: Probe, q: Probe, s: Side)
    requires DeskOk(c, p, s) && q.D(s) == p.D(s) && q.rows == p.rows && q.open == p.open && q.fireTs == p.fireTs
    requires q.stopped == p.stopped && Flows(p.Stream(s), q.Stream(s))
    ensures DeskOk(c, q, s)
  {
    hide Measured, Ahead;
  }

  // ----- the inventory integral

  lemma AccrueOk(v: Inventory, fireTs: nat, now: nat)
    requires InvOk(v, fireTs)
    ensures var a := Accrue(v, fireTs, now);
            && InvOk(a, fireTs) && a.lastTim == Max(v.lastTim, now)
            && a == v.(integral := a.integral, absIntegral := a.absIntegral, lastTim := a.lastTim, accrued := a.accrued)
  {
    if now > v.lastTim {
      var T, dt := v.lastTim - fireTs, now - v.lastTim;
      Grow(v.min, v.position, T, dt);
      Grow(v.position, v.max, T, dt);
      Distribute(v.position, T, dt);
      Segment(v.integral, v.absIntegral, v.position, dt);
      assert now - fireTs == T + dt;
    }
  }

  lemma Segment(integral: int, absIntegral: int, pos: int, dt: nat)
    requires Abs(integral) <= absIntegral
    ensures Abs(integral + pos * dt) <= absIntegral + Abs(pos) * dt
  {
    if pos >= 0 { assert pos * dt >= 0; } else { assert (-pos) * dt >= 0 && pos * dt == -((-pos) * dt); }
  }

  lemma Distribute(x: int, T: int, dt: int)
    ensures x * (T + dt) == x * T + x * dt
  {}

  lemma Grow(lo: int, hi: int, T: int, dt: nat)
    requires lo <= hi
    ensures lo * (T + dt) == lo * T + lo * dt && hi * (T + dt) == hi * T + hi * dt
    ensures lo * dt <= hi * dt
  {
    assert (hi - lo) * dt >= 0;
  }

  lemma Scale(lo: int, hi: int, T: nat)
    requires lo <= hi
    ensures lo * T <= hi * T
  {}

  lemma Spread(x: int, y: int, T: int)
    ensures (x + y) * T == x * T + y * T
  {}

  lemma MoveOk(v: Inventory, fireTs: nat, delta: int)
    requires InvOk(v, fireTs)
    ensures InvOk(Move(v, fireTs, delta), fireTs)
  {
    var T := v.lastTim - fireTs;
    var m := Move(v, fireTs, delta);
    assert m == Inventory(v.position + delta, m.max, m.min, v.integral, v.absIntegral, v.lastTim, v.accrued,
                          v.moment + delta * T);
    Scale(m.min, v.min, T);
    Scale(v.max, m.max, T);
    Spread(v.position, delta, T);
  }

  // ----- writing a row

  lemma WriteRowGood(c: Config, p: Probe, ok: bool, closeTs: nat)
    requires Good(c, p) && p.open
    requires ok ==> !CloseFails(c, p, closeTs) && CloseTime(p, closeTs) == closeTs
    requires ok || p.stopped
    ensures Good(c, WriteRow(p, ok, closeTs))
  {
    hide InvOk, Accrue, Measured, Ahead;
    AccrueOk(p.inv, p.fireTs, closeTs);
    var q := WriteRow(p, ok, closeTs);
    var r := q.rows[|p.rows|];
    RowIsOk(c, p, ok, closeTs);
    MeasuredNext(p.rows, r, Buy);
    MeasuredNext(p.rows, r, Sell);
    assert r.L(Buy) == p.D(Buy).leg && r.L(Sell) == p.D(Sell).leg;
    assert q.D(Buy) == p.D(Buy) && q.D(Sell) == p.D(Sell);
  }

  lemma RowIsOk(c: Config, p: Probe, ok: bool, closeTs: nat)
    requires Good(c, p) && p.open
    requires ok ==> !CloseFails(c, p, closeTs) && CloseTime(p, closeTs) == closeTs
    ensures var v := Accrue(p.inv, p.fireTs, closeTs);
            RowOk(c, Row(ok, p.fireTs, closeTs, p.buy.leg, p.sel.leg, v))
  {
    hide InvOk, Accrue, Measured, Ahead, RowsOk;
    AccrueOk(p.inv, p.fireTs, closeTs);
    assert p.D(Buy) == p.buy && p.D(Sell) == p.sel;
    assert LegOk(c, p, p.buy) && LegOk(c, p, p.sel);
  }

  lemma CloseWindowGood(c: Config, p: Probe, now: nat)
    requires Sound(c) && Good(c, p) && p.open && !p.dead && !p.stopped && CanClose(c, p, now)
    ensures !CloseFails(c, p, now)
    ensures var q := CloseWindow(c, p, now);
            && Good(c, q) && !q.dead && !q.open && !q.stopped
            && q == WriteRow(p, true, CloseTime(p, now))
  {
    hide InvOk, Accrue, Measured, Ahead, RowsOk;
    assert p.D(Buy) == p.buy && p.D(Sell) == p.sel;
    assert LegOk(c, p, p.buy) && LegOk(c, p, p.sel);
    assert !CloseFails(c, p, now);
    WriteRowGood(c, p, true, CloseTime(p, now));
  }

  // ----- fills

  lemma FillLegOk(c: Config, p: Probe, d: Desk, cum: Cum, px: int, sz: int, tim: nat)
    requires LegOk(c, p, d) && !d.leg.done && px > 0 && sz > 0
    ensures var e := FillDesk(p, d, cum, px, sz, tim); LegOk(c, p, e)
  {
    assert px * sz > 0;
  }

  lemma FillDeskOk(c: Config, p: Probe, s: Side, px: int, sz: int, tim: nat, q: Probe)
    requires DeskOk(c, p, s) && px > 0 && sz > 0
    requires q.D(s) == FillDesk(p, p.D(s), p.Stream(s), px, sz, tim)
    requires q.rows == p.rows && q.open == p.open && q.fireTs == p.fireTs
    requires q.stopped == p.stopped && q.Stream(s) == p.Stream(s)
    ensures DeskOk(c, q, s)
  {
    hide Measured, Ahead;
    var d := p.D(s);
    if p.open && !d.leg.done { FillLegOk(c, p, d, p.Stream(s), px, sz, tim); }
  }

  lemma FillGood(c: Config, p: Probe, s: Side, px: int, sz: int, tim: nat)
    requires Good(c, p) && !p.dead
    ensures var q := OnFill(c, p, s, px, sz, tim); Good(c, q) && (q.dead <==> Enabled(c, p) && (px <= 0 || sz <= 0))
  {
    hide DeskOk, InvOk, Accrue, Move, FillDesk, RowsOk;
    NoMarkFail(c, p, s);
    var q := OnFill(c, p, s, px, sz, tim);
    DeadGood(c, p);
    if Enabled(c, p) && px > 0 && sz > 0 {
      var t := if tim != 0 then tim else p.lastTim;
      if p.open {
        AccrueOk(p.inv, p.fireTs, t);
        MoveOk(Accrue(p.inv, p.fireTs, t), p.fireTs, if s.Buy? then sz else -sz);
      }
      var o := if s.Buy? then Sell else Buy;
      FillDeskOk(c, p, s, px, sz, tim, q);
      SameDesk(c, p, q, o);
    }
  }

  lemma NoMarkFail(c: Config, p: Probe, s: Side)
    requires Good(c, p)
    ensures !MarkFails(p.D(s).leg, p.Stream(s))
  {
    hide Measured, Ahead, RowsOk, InvOk, LegOk;
  }

  lemma LightGood(c: Config, p: Probe, s: Side, sz: int)
    requires Good(c, p)
    ensures Good(c, OnLight(p, s, sz))
  {
    hide Measured, RowsOk, InvOk, RowOk;
    var q := OnLight(p, s, sz);
    SameDesk(c, p, q, if s.Buy? then Sell else Buy);
  }

  lemma ShutdownGood(c: Config, p: Probe)
    requires Good(c, p)
    ensures Good(c, OnShutdown(c, p)) && OnShutdown(c, p).dead == p.dead
  {
    hide RowsOk, InvOk, Accrue, RowOk, Ahead, Measured;
    if p.open {
      var q := p.(buy := CutOff(p.buy, p.lastTim), sel := CutOff(p.sel, p.lastTim), stopped := true);
      assert DeskOk(c, q, Buy) && DeskOk(c, q, Sell);
      WriteRowGood(c, q, false, p.lastTim);
      assert OnShutdown(c, p) == WriteRow(q, false, p.lastTim);
    }
  }

  // ----- alarms

  lemma AlarmGood(c: Config, p: Probe, now: nat)
    requires Sound(c) && Good(c, p) && !p.dead && !p.stopped
    ensures var q := OnAlarm(c, p, now);
            Good(c, q) && (q.dead <==> Aborts(c, p, Alarm(now)))
  {
    hide DeskOk, InvOk, RowsOk, NextSession, CloseWindow, OpenWindow, WriteRow, Overrun;
    var p1 := p.(lastTim := now);
    NextSessionFrame(c, p1, now);
    NextSessionFrame(c, p, now);
    NextSessionStamp(c, p, now);
    var q := NextSession(c, p1, now);
    if Enabled(c, p) && now != 0 {
      SameDesk(c, p, q, Buy);
      SameDesk(c, p, q, Sell);
      assert Good(c, q);
      TickGood(c, q, now);
      assert forall s: Side :: q.D(s) == p.D(s);
    }
  }

  /** The session walk does not look at the last alarm time. */
  lemma {:induction false} NextSessionStamp(c: Config, p: Probe, now: nat)
    ensures NextSession(c, p.(lastTim := now), now) == NextSession(c, p, now).(lastTim := now)
    decreases |c.sessions| - p.session
  {
    if !p.open && now >= p.end && p.session + 1 < |c.sessions| {
      var k := p.session + 1;
      var n := p.(session := k, start := c.sessions[k].0, end := c.sessions[k].1);
      NextSessionStamp(c, n, now);
      assert n.(lastTim := now) == p.(lastTim := now).(session := k, start := c.sessions[k].0, end := c.sessions[k].1);
    }
  }

  lemma TickGood(c: Config, q: Probe, now: nat)
    requires Sound(c) && c.parent > 0 && Good(c, q) && !q.dead && !q.stopped && now != 0
    ensures var r := Tick(c, q, now);
            && Good(c, r)
            && (r.dead <==> OpensNow(c, q, now) && exists s: Side :: Overrun(c, q.D(s)))
  {
    hide DeskOk, InvOk, RowsOk, CloseWindow, OpenWindow, Overrun, OpenFails, CloseFails;
    if q.start <= now && q.bid > 0 && q.ask > 0 {
      if !q.open {
        if now < q.end { OpenWindowGood(c, q, now); }
      } else if CanClose(c, q, now) {
        CloseWindowGood(c, q, now);
        var r := CloseWindow(c, q, now);
        assert forall s: Side :: r.D(s) == q.D(s);
        if now + c.minWindow <= r.end { OpenWindowGood(c, r, now); }
      }
    }
  }

  // ----- every run

  lemma StepGood(c: Config, p: Probe, e: Event)
    requires Sound(c) && Good(c, p) && (e.Trade? ==> e.sz >= 0)
    ensures Good(c, Step(c, p, e))
    ensures Step(c, p, e).dead <==> p.dead || Aborts(c, p, e)
  {
    hide DeskOk, InvOk, RowsOk, OnAlarm, OnFill, OnLight, OnShutdown, Opens;
    if !p.dead && !p.stopped {
      match e
      case Alarm(now) => AlarmGood(c, p, now);
      case Fill(s, px, sz, tim) => FillGood(c, p, s, px, sz, tim);
      case LightFill(s, sz) => LightGood(c, p, s, sz); LightAlive(p, s, sz);
      case Shutdown => ShutdownGood(c, p);
      case _ =>
        SameDesk(c, p, Step(c, p, e), Buy);
        SameDesk(c, p, Step(c, p, e), Sell);
    }
  }

  lemma LightAlive(p: Probe, s: Side, sz: int)
    ensures OnLight(p, s, sz).dead == p.dead
  {}

  lemma InitGood(c: Config, start: nat, end: nat)
    ensures Good(c, Init(c, start, end))
  {}

  lemma RunNothing(c: Config, p: Probe)
    ensures Run(c, p, []) == p
  {}

  lemma RunNext(c: Config, p: Probe, es: seq<Event>)
    requires es != []
    ensures var n := |es| - 1; Run(c, p, es) == Step(c, Run(c, p, es[..n]), es[n])
  {
    hide Step;
  }

  /**
    Accounting and assertions over every run, whenever fills reach the probe and the books: the
    invariant always holds, and the probe aborts exactly when an alarm opens a window for an overrun
    side or a fill without size or price arrives. No assertion of the close ever fails.
   */
  lemma {:induction false} EveryRun(c: Config, start: nat, end: nat, es: seq<Event>)
    requires Sound(c) && Orderly(es)
    ensures Good(c, Run(c, Init(c, start, end), es))
    ensures var p0 := Init(c, start, end);
            Run(c, p0, es).dead <==> exists i :: 0 <= i < |es| && Aborts(c, Run(c, p0, es[..i]), es[i])
  {
    hide Step, Good, Aborts, Run;
    var p0 := Init(c, start, end);
    if es == [] {
      InitGood(c, start, end);
      RunNothing(c, p0);
    } else {
      var n := |es| - 1;
      RunNext(c, p0, es);
      EveryRun(c, start, end, es[..n]);
      StepGood(c, Run(c, p0, es[..n]), es[n]);
      AbortsNext(c, p0, es);
    }
  }

  lemma AbortsNext(c: Config, p0: Probe, es: seq<Event>)
    requires es != []
    ensures var n := |es| - 1;
            (exists i :: 0 <= i < |es| && Aborts(c, Run(c, p0, es[..i]), es[i])) <==>
            || Aborts(c, Run(c, p0, es[..n]), es[n])
            || exists i :: 0 <= i < n && Aborts(c, Run(c, p0, es[..n][..i]), es[..n][i])
  {
    hide Aborts, Run;
    var n := |es| - 1;
    assert forall i :: 0 <= i < n ==> es[..n][..i] == es[..i] && es[..n][i] == es[i];
  }

  // ----- what the invariant says to a reader of the report

  /** The lots a side still has to trade to bring its book to flat. */
  function ToFlat(p: Probe, s: Side): int { -Ahead(s, p.D(s).book) }

  /** Whenever both counts agree, a side's leg is done exactly when its book is at or past flat,
      and an unfinished leg lacks exactly the book's distance from flat. */
  lemma FlatCompletesLeg(c: Config, start: nat, end: nat, es: seq<Event>, s: Side)
    requires Sound(c) && Orderly(es)
    ensures var p := Run(c, Init(c, start, end), es);
            p.open && p.D(s).lights == p.D(s).filled ==>
              && (p.D(s).leg.done <==> ToFlat(p, s) <= 0)
              && (!p.D(s).leg.done ==> p.D(s).leg.toDo - p.D(s).leg.filled == ToFlat(p, s))
  {
    hide Run, Orderly, Measured, RowsOk, InvOk;
    EveryRun(c, start, end, es);
  }

  /**
    Every window of every run opens with work on each side: the distance of the side's book from flat,
    corrected by what only one of the two counts has heard of. Where the counts agree at that alarm it is
    the distance itself, one lot to one parent.
   */
  lemma OpensWithWork(c: Config, start: nat, end: nat, es: seq<Event>, s: Side)
    requires Sound(c) && es != [] && Orderly(es)
    requires Run(c, Init(c, start, end), es).starts != Run(c, Init(c, start, end), es[..|es| - 1]).starts
    ensures var q := Run(c, Init(c, start, end), es); OpenedWith(c, q, q.D(s), s)
  {
    hide Step, Good, Run, OpenedWith;
    var p0, n := Init(c, start, end), |es| - 1;
    RunNext(c, p0, es);
    EveryRun(c, start, end, es[..n]);
    OpeningStep(c, Run(c, p0, es[..n]), es[n], s);
  }

  /** The work of a side whose window has just opened. */
  predicate OpenedWith(c: Config, q: Probe, d: Desk, s: Side) {
    && q.open && d.leg.filled == 0 && 1 <= d.leg.toDo == ToFlat(q, s) + d.lights - d.filled
    && (d.lights == d.filled ==> 1 <= d.leg.toDo == ToFlat(q, s) <= c.parent)
  }

  lemma OpeningStep(c: Config, p: Probe, e: Event, s: Side)
    requires Sound(c) && Good(c, p) && Step(c, p, e).starts != p.starts
    ensures var q := Step(c, p, e); OpenedWith(c, q, q.D(s), s)
    ensures e.Alarm? && Enabled(c, p) && !p.dead && !p.stopped
  {
    hide DeskOk, InvOk, RowsOk, NextSession, CloseWindow, OpenWindow, CloseFails;
    hide OpenFails, OpenDesk, Accrue, Move, FillDesk, OpenedWith;
    assert e.Alarm?;
    var p1 := p.(lastTim := e.now);
    NextSessionFrame(c, p1, e.now);
    var q := NextSession(c, p1, e.now);
    SameDesk(c, p, q, Buy);
    SameDesk(c, p, q, Sell);
    if q.open {
      CloseWindowGood(c, q, e.now);
      CloseKeepsStarts(c, q, e.now);
      OpenedDesk(c, CloseWindow(c, q, e.now), e.now, s);
    } else {
      OpenedDesk(c, q, e.now, s);
    }
  }

  lemma CloseKeepsStarts(c: Config, p: Probe, now: nat)
    ensures CloseWindow(c, p, now).starts == p.starts
  {
    hide CloseFails, Accrue;
  }

  lemma OpenedDesk(c: Config, p: Probe, now: nat, s: Side)
    requires c.parent > 0 && DeskOk(c, p, s) && !p.open && !p.stopped
    ensures var q := OpenWindow(c, p, now); q.starts != p.starts ==> OpenedWith(c, q, q.D(s), s)
  {
    hide DeskOk, Give;
    OpenDeskWork(c, p, s, now);
  }

  /** Session fills: everything a side filled is measured by exactly one row, belongs to the open
      window's leg, or was excluded as an overfill. */
  lemma FillsAccounted(c: Config, start: nat, end: nat, es: seq<Event>, s: Side)
    requires Sound(c) && Orderly(es)
    ensures var p := Run(c, Init(c, start, end), es);
            p.D(s).filled == Measured(p.rows, s) + p.D(s).excluded + (if p.open then p.D(s).leg.filled else 0)
  {
    hide Run, Orderly, Measured, RowsOk, InvOk, LegOk, Ahead;
    EveryRun(c, start, end, es);
  }

  /** Every row of every run: a complete row spans at least the minimum window, each leg did its
      work inside the window, and the inventory integral covers the accrued time. */
  lemma RowsTell(c: Config, start: nat, end: nat, es: seq<Event>, r: Row)
    requires Sound(c) && Orderly(es)
    requires r in Run(c, Init(c, start, end), es).rows
    ensures RowOk(c, r)
  {
    hide Run, Orderly, RowOk, InvOk, DeskOk;
    EveryRun(c, start, end, es);
  }

  // ----- runs whose counts agree at every alarm

  /** Every fill so far has reached both the probe and the position book. */
  ghost predicate Synced(p: Probe) { forall s: Side :: p.D(s).lights == p.D(s).filled }

  ghost predicate SyncedRun(c: Config, p: Probe, es: seq<Event>) {
    forall i :: 0 <= i < |es| && es[i].Alarm? && Enabled(c, Run(c, p, es[..i])) ==> Synced(Run(c, p, es[..i]))
  }

  lemma SyncedFront(c: Config, p: Probe, es: seq<Event>)
    requires es != [] && SyncedRun(c, p, es)
    ensures var n := |es| - 1;
            && SyncedRun(c, p, es[..n])
            && (es[n].Alarm? && Enabled(c, Run(c, p, es[..n])) ==> Synced(Run(c, p, es[..n])))
  {
    hide Run, Synced;
    var n := |es| - 1;
    assert forall i :: 0 <= i < n ==> es[..n][..i] == es[..i] && es[..n][i] == es[i];
  }

  /** No leg and no row asks for more than a parent. */
  ghost predicate WithinParent(c: Config, p: Probe) {
    && (p.open ==> p.buy.leg.toDo <= c.parent && p.sel.leg.toDo <= c.parent)
    && (forall r :: r in p.rows ==> r.buy.toDo <= c.parent && r.sel.toDo <= c.parent)
  }

  predicate SameToDo(p: Probe, buy: Leg, sel: Leg) { buy.toDo == p.buy.leg.toDo && sel.toDo == p.sel.leg.toDo }

  /** What an event that opens no window does to legs and rows. */
  ghost predicate KeepsWork(p: Probe, q: Probe) {
    && (q.open ==> p.open && SameToDo(p, q.buy.leg, q.sel.leg))
    && (q.rows == p.rows ||
        (p.open && exists r: Row :: q.rows == p.rows + [r] && SameToDo(p, r.buy, r.sel)))
  }

  lemma KeepsWithin(c: Config, p: Probe, q: Probe)
    requires WithinParent(c, p) && KeepsWork(p, q)
    ensures WithinParent(c, q)
  {
  }

  lemma RowWork(p: Probe, ok: bool, at: nat)
    requires p.open
    ensures var q := WriteRow(p, ok, at);
            KeepsWork(p, q) && !q.open && q.starts == p.starts && q.buy == p.buy && q.sel == p.sel
  {
    hide Accrue;
  }

  lemma TickWork(c: Config, p: Probe, now: nat)
    requires c.parent > 0
    ensures var q := Tick(c, p, now);
            KeepsWork(p, q) || (q.starts != p.starts && q.open && KeepsWork(p, q.(open := false)))
  {
    hide OpenFails, OpenDesk, CloseFails, WriteRow;
    if p.open { RowWork(p, true, CloseTime(p, now)); }
  }

  lemma FillWork(c: Config, p: Probe, s: Side, px: int, sz: int, tim: nat)
    ensures KeepsWork(p, OnFill(c, p, s, px, sz, tim))
  {
    hide Accrue, Move;
  }

  lemma ShutdownWork(c: Config, p: Probe)
    ensures KeepsWork(p, OnShutdown(c, p))
  {
    hide WriteRow;
    var p1 := p.(buy := CutOff(p.buy, p.lastTim), sel := CutOff(p.sel, p.lastTim));
    if p.open {
      RowWork(p1, false, p.lastTim);
      assert KeepsWork(p, WriteRow(p1, false, p.lastTim));
    }
  }

  lemma SameWork(p: Probe, n: Probe, q: Probe)
    requires n.open == p.open && n.buy == p.buy && n.sel == p.sel && n.rows == p.rows
    ensures KeepsWork(n, q) ==> KeepsWork(p, q)
  {}

  lemma StepWork(c: Config, p: Probe, e: Event)
    ensures var q := Step(c, p, e);
            KeepsWork(p, q) || (q.starts != p.starts && q.open && KeepsWork(p, q.(open := false)))
  {
    hide OnFill, OnShutdown, Tick, NextSession;
    match e
    case Alarm(now) =>
      var p1 := p.(lastTim := now);
      NextSessionFrame(c, p1, now);
      if Enabled(c, p) {
        var n := NextSession(c, p1, now);
        var q := Tick(c, n, now);
        TickWork(c, n, now);
        SameWork(p, n, q);
        SameWork(p, n, q.(open := false));
      }
    case Fill(s, px, sz, tim) => FillWork(c, p, s, px, sz, tim);
    case Shutdown => ShutdownWork(c, p);
    case _ =>
  }

  lemma StepWithin(c: Config, p: Probe, e: Event)
    requires Sound(c) && Good(c, p) && WithinParent(c, p) && (e.Alarm? && Enabled(c, p) ==> Synced(p))
    ensures WithinParent(c, Step(c, p, e))
  {
    hide Step, Good, KeepsWork, WithinParent;
    var q := Step(c, p, e);
    StepWork(c, p, e);
    if KeepsWork(p, q) {
      KeepsWithin(c, p, q);
    } else {
      OpeningStep(c, p, e, Buy);
      OpeningStep(c, p, e, Sell);
      AlarmCounts(c, p, e);
      KeepsWithin(c, p, q.(open := false));
      OpenWithin(c, q);
    }
  }

  lemma OpenWithin(c: Config, q: Probe)
    requires WithinParent(c, q.(open := false)) && q.buy.leg.toDo <= c.parent && q.sel.leg.toDo <= c.parent
    ensures WithinParent(c, q)
  {}

  /** An alarm moves neither count. */
  lemma AlarmCounts(c: Config, p: Probe, e: Event)
    requires e.Alarm?
    ensures var q := Step(c, p, e);
            forall s: Side :: q.D(s).lights == p.D(s).lights && q.D(s).filled == p.D(s).filled
  {
    hide NextSession, OpenFails, CloseFails, Accrue, Mark, Rounds;
    if Enabled(c, p) { NextSessionFrame(c, p.(lastTim := e.now), e.now); }
  }

  /** With counts that agree at every alarm, every leg and every row is within a parent. */
  lemma {:induction false} SyncedWithinParent(c: Config, start: nat, end: nat, es: seq<Event>)
    requires Sound(c) && Orderly(es) && SyncedRun(c, Init(c, start, end), es)
    ensures WithinParent(c, Run(c, Init(c, start, end), es))
  {
    hide Step, Good, Run, SyncedRun, WithinParent;
    var p0 := Init(c, start, end);
    if es == [] {
      RunNothing(c, p0);
      InitWithin(c, start, end);
    } else {
      var n := |es| - 1;
      SyncedFront(c, p0, es);
      RunNext(c, p0, es);
      SyncedWithinParent(c, start, end, es[..n]);
      EveryRun(c, start, end, es[..n]);
      StepWithin(c, Run(c, p0, es[..n]), es[n]);
    }
  }

  lemma InitWithin(c: Config, start: nat, end: nat)
    ensures WithinParent(c, Init(c, start, end))
  {}

  /** With agreeing counts a side overruns only by 1000 parents. */
  lemma SyncedOverrun(c: Config, d: Desk)
    requires c.parent > 0 && d.lights == d.filled >= d.given
    ensures Overrun(c, d) <==> FarAhead(c, d)
  {
    var a := d.filled - d.given;
    DivBounds(a, c.parent);
    assert Rounds(c.parent, a) * c.parent == a / c.parent * c.parent + c.parent;
  }

  predicate FarAhead(c: Config, d: Desk) { d.filled - d.given >= 1000 * c.parent }

  /** The alarm opens a window for a side 1000 or more parents ahead, or a fill has no size or price. */
  ghost predicate Runaway(c: Config, p: Probe, e: Event) {
    && !p.dead && !p.stopped && Enabled(c, p)
    && match e
       case Alarm(now) => Opens(c, p, now) && exists s: Side :: FarAhead(c, p.D(s))
       case Fill(_, px, sz, _) => px <= 0 || sz <= 0
       case _ => false
  }

  lemma SyncedAborts(c: Config, p: Probe, e: Event)
    requires Good(c, p) && (e.Alarm? && Enabled(c, p) ==> Synced(p))
    ensures Aborts(c, p, e) <==> Runaway(c, p, e)
  {
    hide Overrun, NextSession, Measured, RowsOk, InvOk, Ahead;
    if e.Alarm? && Opens(c, p, e.now) && !p.stopped {
      NextSessionFrame(c, p, e.now);
      assert p.D(Buy) == p.buy && p.D(Sell) == p.sel;
      SyncedOverrun(c, p.buy);
      SyncedOverrun(c, p.sel);
      assert Overrun(c, p.D(Buy)) || Overrun(c, p.D(Sell)) <==> exists s: Side :: Overrun(c, p.D(s));
      assert FarAhead(c, p.D(Buy)) || FarAhead(c, p.D(Sell)) <==> exists s: Side :: FarAhead(c, p.D(s));
    }
  }

  /** With counts that agree at every alarm the probe aborts exactly on a side 1000 parents ahead, or a bad fill. */
  lemma SyncedAbortsIff(c: Config, start: nat, end: nat, es: seq<Event>)
    requires Sound(c) && Orderly(es) && SyncedRun(c, Init(c, start, end), es)
    ensures var p0 := Init(c, start, end);
            Run(c, p0, es).dead <==> exists i :: 0 <= i < |es| && Runaway(c, Run(c, p0, es[..i]), es[i])
  {
    hide Run, Good, Aborts, Runaway, Synced;
    var p0 := Init(c, start, end);
    EveryRun(c, start, end, es);
    forall i | 0 <= i < |es| ensures Aborts(c, Run(c, p0, es[..i]), es[i]) <==> Runaway(c, Run(c, p0, es[..i]), es[i]) {
      EveryRun(c, start, end, es[..i]);
      SyncedAborts(c, Run(c, p0, es[..i]), es[i]);
    }
  }

  // ----- window spacing

  /** Alarms never go back. */
  ghost predicate ClockForward(es: seq<Event>) {
    forall i, j :: 0 <= i < j < |es| && es[i].Alarm? && es[j].Alarm? ==> es[i].now <= es[j].now
  }

  predicate Apart(c: Config, starts: seq<nat>) {
    forall i :: 0 < i < |starts| ==> starts[i - 1] + c.minWindow <= starts[i]
  }

  /** The last window's minimum has passed, unless it is still open. */
  ghost predicate Spaced(c: Config, p: Probe) {
    && Apart(c, p.starts)
    && (p.open ==> p.starts != [] && p.starts[|p.starts| - 1] == p.fireTs)
    && (p.starts != [] && !p.open && !p.stopped && !p.dead ==> p.starts[|p.starts| - 1] + c.minWindow <= p.lastTim)
  }

  lemma OpenSpaced(c: Config, p: Probe, now: nat)
    requires c.parent > 0 && Apart(c, p.starts) && !p.open && !p.dead && !p.stopped
    requires p.starts != [] ==> p.starts[|p.starts| - 1] + c.minWindow <= now
    ensures Spaced(c, OpenWindow(c, p, now))
  {
    hide OpenFails, OpenDesk;
  }

  lemma StepSpaced(c: Config, p: Probe, e: Event)
    requires Spaced(c, p) && (e.Alarm? ==> p.lastTim <= e.now)
    ensures Spaced(c, Step(c, p, e))
    ensures !e.Alarm? ==> Step(c, p, e).lastTim == p.lastTim
    ensures e.Alarm? ==> Step(c, p, e).lastTim in {p.lastTim, e.now}
  {
    hide NextSession, OpenFails, OpenDesk, CloseFails, Accrue, Move, FillDesk, Apart;
    if e.Alarm? && !p.dead && !p.stopped && Enabled(c, p) && e.now != 0 {
      var p1 := p.(lastTim := e.now);
      NextSessionFrame(c, p1, e.now);
      var q := NextSession(c, p1, e.now);
      if !q.open {
        OpenSpaced(c, q, e.now);
      } else if q.fireTs + c.minWindow <= e.now && !CloseFails(c, q, e.now) {
        OpenSpaced(c, CloseWindow(c, q, e.now), e.now);
      }
    }
  }

  /** Under alarms that never go back, consecutive windows start at least the minimum apart. */
  lemma {:induction false} StartsApart(c: Config, start: nat, end: nat, es: seq<Event>)
    requires ClockForward(es)
    ensures Apart(c, Run(c, Init(c, start, end), es).starts)
    ensures Spaced(c, Run(c, Init(c, start, end), es))
    ensures var t := Run(c, Init(c, start, end), es).lastTim; t == 0 || Alarm(t) in es
  {
    hide Step, Apart;
    var p0 := Init(c, start, end);
    if es != [] {
      var n := |es| - 1;
      StartsApart(c, start, end, es[..n]);
      var p := Run(c, p0, es[..n]);
      assert es[n].Alarm? ==> p.lastTim <= es[n].now;
      StepSpaced(c, p, es[n]);
    } else {
      assert Apart(c, p0.starts) by { ApartEmpty(c, p0); }
    }
  }

  lemma ApartEmpty(c: Config, p: Probe)
    requires p.starts == []
    ensures Apart(c, p.starts)
  {}

  // ----- counts that disagree

  /** One window; the buy side overfills threefold and its book hears of a third of it before the next alarm. */
  function LateBook(c: Config): seq<Event>
    requires c.parent > 0
  {
    [Burst(10, 12), Alarm(1), Fill(Buy, 10, 3 * c.parent, 1), Fill(Sell, 12, c.parent, 1),
     LightFill(Buy, c.parent), LightFill(Sell, c.parent), Alarm(1 + c.minWindow)]
  }

  /** One session, long enough for a second window. */
  predicate OneDay(c: Config, end: nat) { Sound(c) && c.parent > 0 && c.sessions == [] && end >= 1 + 2 * c.minWindow }

  lemma GiveFirst(c: Config, s: Side)
    requires c.parent > 0
    ensures Give(c, s, NewDesk) == NewDesk.(book := if s.Buy? then -c.parent else c.parent, given := c.parent)
  {
    assert Rounds(c.parent, 0) == 1;
  }

  /** The first window opens with a parent to do on each side. */
  lemma LateOpens(c: Config, end: nat)
    requires OneDay(c, end)
    ensures var q := Step(c, Step(c, Init(c, 1, end), Burst(10, 12)), Alarm(1));
            && !q.dead && !q.stopped && q.open && q.fireTs == 1 == q.start && q.end == end && q.session == 0
            && q.bid == 10 && q.ask == 12 && q.hits == NoCum && q.takes == NoCum
            && q.buy == Desk(Mark(NewLeg.(started := 1), NoCum).(toDo := c.parent), c.parent, 0, -c.parent, 0, 0)
            && q.sel == Desk(Mark(NewLeg.(started := 1), NoCum).(toDo := c.parent), c.parent, 0, c.parent, 0, 0)
  {
    hide Give;
    GiveFirst(c, Buy);
    GiveFirst(c, Sell);
    var p := Init(c, 1, end).(bid := 10, ask := 12, lastTim := 1);
    assert Step(c, Init(c, 1, end), Burst(10, 12)).(lastTim := 1) == p && NextSession(c, p, 1) == p;
    assert !OpenFails(c, p, 1);
  }

  /** A fill that meets the leg's work completes it. */
  lemma LateFill(c: Config, p: Probe, s: Side, px: int, sz: int)
    requires Enabled(c, p) && !p.dead && !p.stopped && p.open && px > 0 && sz > 0
    requires var l := p.D(s).leg;
             !l.done && sz >= l.toDo && l.filled == 0 && !MarkFails(l, p.Stream(s)) && l.started == 1
    ensures var q := Step(c, p, Fill(s, px, sz, 1));
            && q == p.(inv := q.inv, buy := q.buy, sel := q.sel)
            && q.D(s).leg.done && q.D(s).leg.ended == 1 && q.D(s).leg.started == 1
            && q.D(s).leg.notional == p.D(s).leg.notional + px * sz
            && q.D(s) == p.D(s).(leg := q.D(s).leg, filled := p.D(s).filled + sz, excluded := q.D(s).excluded)
            && (forall o: Side :: o != s ==> q.D(o) == p.D(o))
  {
    hide Accrue, Move;
  }

  /** The second alarm closes the window and aborts opening the next. */
  lemma LateAborts(c: Config, p: Probe)
    requires OneDay(c, p.end) && Enabled(c, p) && !p.dead && !p.stopped && p.open && p.fireTs == 1 == p.start
    requires p.bid == 10 && p.ask == 12 && p.hits == NoCum && p.takes == NoCum
    requires forall s: Side :: var l := p.D(s).leg; l.done && l.started == l.ended == 1 && l.notional > 0
    requires p.buy.book == 0 && p.buy.given == c.parent && p.buy.filled == 3 * c.parent
    ensures Step(c, p, Alarm(1 + c.minWindow)).dead
  {
    hide Accrue, Give;
    assert p.D(Buy) == p.buy && p.D(Sell) == p.sel;
    var now := 1 + c.minWindow;
    var q := p.(lastTim := now);
    assert !CloseFails(c, q, now);
    var r := CloseWindow(c, q, now);
    assert r.buy == p.buy && Ahead(Buy, r.buy.book) == 0;
    GiveOne(c, r.buy);
    assert OpenDesk(c, r, Buy, now).leg.toDo < 0;
  }

  lemma GiveOne(c: Config, d: Desk)
    requires c.parent > 0 && d.book == 0
    ensures Give(c, Buy, d) == d.(book := -c.parent, given := d.given + c.parent)
  {
    assert Rounds(c.parent, 0) == 1;
  }

  /** A book that hears of an overfill late makes the next window abort, for every parent size and minimum. */
  lemma LateBookAborts(c: Config, end: nat)
    requires OneDay(c, end)
    ensures Run(c, Init(c, 1, end), LateBook(c)).dead
  {
    hide Step, Run;
    var es, p0 := LateBook(c), Init(c, 1, end);
    RunNothing(c, p0);
    assert es[..0] == [] && es[..7] == es;
    RunPrefix(c, p0, es, 0); RunPrefix(c, p0, es, 1); RunPrefix(c, p0, es, 2); RunPrefix(c, p0, es, 3);
    RunPrefix(c, p0, es, 4); RunPrefix(c, p0, es, 5); RunPrefix(c, p0, es, 6);
    LateOpens(c, end);
    var p2 := Step(c, Step(c, p0, es[0]), es[1]);
    LateFill(c, p2, Buy, 10, 3 * c.parent);
    var p3 := Step(c, p2, es[2]);
    LateFill(c, p3, Sell, 12, c.parent);
    var p4 := Step(c, p3, es[3]);
    LightStep(c, p4, Buy, c.parent);
    var p5 := Step(c, p4, es[4]);
    LightStep(c, p5, Sell, c.parent);
    LateAborts(c, Step(c, p5, es[5]));
  }

  lemma LightStep(c: Config, p: Probe, s: Side, sz: int)
    requires !p.dead && !p.stopped && sz > 0
    ensures var q := Step(c, p, LightFill(s, sz)); var d := p.D(s);
            q == p.WithD(s, d.(book := if s.Buy? then d.book + sz else d.book - sz, lights := d.lights + sz))
  {}

  lemma RunPrefix(c: Config, p: Probe, es: seq<Event>, i: nat)
    requires i < |es|
    ensures Run(c, p, es[..i + 1]) == Step(c, Run(c, p, es[..i]), es[i])
  {
    hide Step;
    assert es[..i + 1][..i] == es[..i];
  }
}
