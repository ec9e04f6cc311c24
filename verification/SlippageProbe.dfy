/**
  The probe as the program runs it: an object whose handlers change its window, legs,
  totals and integrals in place. Each method is proved against the function of module
  Probe that gives its effect; once an assertion has failed nothing is promised but that.
 */
module SlippageProbe {
  import opened Probe
  import Spec = Probe

  /** give: hand out whole parents until the side has work, or give up after 1000 rounds. */
  method GiveWork(parent: int, s: Side, book0: int, given0: int) returns (book: int, given: int, ok: bool)
    requires parent > 0
    ensures ok <==> !TooFarAhead(parent, Ahead(s, book0))
    ensures ok ==> given == given0 + Rounds(parent, Ahead(s, book0)) * parent
    ensures ok ==> Ahead(s, book) == Ahead(s, book0) - (given - given0) < 0
  {
    book, given, ok := book0, given0, true;
    var rounds := 0;
    ghost var a := Ahead(s, book0);
    while true
      invariant 0 <= rounds < 1000 && ok
      invariant given == given0 + rounds * parent
      invariant Ahead(s, book) == a - rounds * parent
      invariant rounds > 0 ==> a >= rounds * parent
      decreases 1000 - rounds
    {
      book := if s.Buy? then book - parent else book + parent;
      given := given + parent;
      rounds := rounds + 1;
      assert rounds * parent == (rounds - 1) * parent + parent;
      if Ahead(s, book) < 0 {
        RoundsAre(parent, a, rounds);
        return;
      }
      if rounds >= 1000 { ok := false; return; }
    }
  }

  lemma RoundsAre(parent: int, a: int, r: nat)
    requires parent > 0 && 1 <= r <= 1000
    requires (r - 1) * parent <= a < r * parent || (r == 1 && a < parent)
    ensures Rounds(parent, a) == r && !TooFarAhead(parent, a)
  {
    assert r * parent <= 1000 * parent by { Mono(r, 1000, parent); }
    if a >= 0 { Quotient(a, parent, r - 1); }
  }

  lemma Mono(x: int, y: int, m: nat)
    requires x <= y
    ensures x * m <= y * m
  {}

  lemma Quotient(a: int, m: int, q: int)
    requires m > 0 && q * m <= a < q * m + m
    ensures a / m == q
  {
    var d := a / m;
    assert d * m <= a < d * m + m;
    assert d < q ==> (d + 1) * m <= q * m;
    assert d > q ==> (q + 1) * m <= d * m;
  }

  /** One side of open_window: a new leg, its work, and what it has to do. */
  method OpenSide(c: Config, ghost p: Probe, s: Side, now: nat, d0: Desk, cum: Cum) returns (d: Desk, ok: bool)
    requires c.parent > 0 && p.D(s) == d0 && p.Stream(s) == cum
    ensures ok ==> d == OpenDesk(c, p, s, now)
    ensures ok <==> !TooFarAhead(c.parent, Ahead(s, d0.book)) && OpenDesk(c, p, s, now).leg.toDo > 0
    ensures Ahead(s, OpenDesk(c, p, s, now).book) < 0
  {
    hide Rounds;
    d := d0.(leg := Mark(NewLeg.(started := now), cum));
    var book, given, gave := GiveWork(c.parent, s, d.book, d.given);
    GiveWorks(c.parent, Ahead(s, d0.book));
    if !gave { return d, false; }
    d := d.(book := book, given := given);
    d := d.(leg := d.leg.(toDo := given - d.filled));
    ok := d.leg.toDo > 0;
  }

  lemma GiveWorks(parent: int, a: int)
    requires parent > 0
    ensures a - Rounds(parent, a) * parent < 0
  {
    if a >= 0 {
      assert a < a / parent * parent + parent;
      assert Rounds(parent, a) * parent == a / parent * parent + parent;
    }
  }

  /** The part of fill_handler that moves one side's totals and its leg. */
  method FillSide(ghost p: Probe, open: bool, bid: int, ask: int, cum: Cum, lastTim: nat,
                  d0: Desk, px: int, sz: int, tim: nat) returns (d: Desk, ok: bool)
    requires p.open == open && p.bid == bid && p.ask == ask && p.lastTim == lastTim
    ensures ok <==> d0.leg.done || !MarkFails(d0.leg, cum)
    ensures ok ==> d == FillDesk(p, d0, cum, px, sz, tim)
  {
    d := d0.(filled := d0.filled + sz, excluded := d0.excluded + if open && !d0.leg.done then 0 else sz);
    if d.leg.done { return d, true; }
    if MarkFails(d.leg, cum) { return d, false; }
    var l := Mark(d.leg.(notional := d.leg.notional + px * sz, filled := d.leg.filled + sz), cum);
    if l.filled >= l.toDo {
      var stamp := if tim != 0 then tim else lastTim;
      l := l.(done := true, ended := Max(stamp, l.started), endMid := bid + ask);
    }
    if tim != 0 && tim > l.ended { l := l.(ended := Max(tim, l.started)); }
    return d.(leg := l), true;
  }

  class SlippageProbe {
    const c: Config
    var start: nat
    var end: nat
    var session: nat
    var open: bool
    var fireTs: nat
    var bid: int
    var ask: int
    var lastTim: nat
    var hits: Cum
    var takes: Cum
    var inv: Inventory
    var buy: Desk
    var sel: Desk
    var stopped: bool
    var dead: bool
    ghost var starts: seq<nat>
    ghost var rows: seq<Row>

    ghost function View(): Probe
      reads this
    {
      Probe(start, end, session, open, fireTs, bid, ask, lastTim, hits, takes, inv, buy, sel,
            stopped, dead, starts, rows)
    }

    /** The object shows `q`, or both have failed an assertion. */
    ghost predicate Shows(q: Probe)
      reads this
    {
      dead == q.dead && (!dead ==> View() == q)
    }

    constructor (c: Config, start: nat, end: nat)
      ensures this.c == c && View() == Init(c, start, end)
    {
      this.c := c;
      this.start, this.end, this.session, this.open, this.fireTs := start, end, 0, false, 0;
      this.bid, this.ask, this.lastTim, this.hits, this.takes := 0, 0, 0, NoCum, NoCum;
      this.inv := Inventory(0, 0, 0, 0, 0, 0, 0, 0);
      this.buy, this.sel, this.stopped, this.dead, this.starts, this.rows := NewDesk, NewDesk, false, false, [], [];
    }

    predicate IsEnabled()
      reads this
    {
      c.parent > 0 && end > start
    }

    method OpenWindow(now: nat)
      requires c.parent > 0 && !dead
      modifies this
      ensures Shows(Spec.OpenWindow(c, old(View()), now))
    {
      hide OpenDesk, MarkFails, TooFarAhead, Ahead;
      if !(0 < bid < ask) || MarkFails(NewLeg, hits) || MarkFails(NewLeg, takes) { dead := true; return; }
      var b, bok := OpenSide(c, View(), Buy, now, buy, hits);
      var s, sok := OpenSide(c, View(), Sell, now, sel, takes);
      if !bok || !sok { dead := true; return; }
      StartWindow(now, b, s);
    }

    /** The fields of a new window. */
    method StartWindow(now: nat, b: Desk, s: Desk)
      modifies this`inv, this`buy, this`sel, this`open, this`fireTs, this`starts
      ensures open && fireTs == now && buy == b && sel == s && starts == old(starts) + [now]
      ensures var pos := old(inv).position; inv == Inventory(pos, pos, pos, 0, 0, now, 0, 0)
    {
      inv := Inventory(inv.position, inv.position, inv.position, 0, 0, now, 0, 0);
      buy, sel, open, fireTs := b, s, true, now;
      starts := starts + [now];
    }

    method AccrueInventory(now: nat)
      modifies this`inv
      ensures inv == if open then Accrue(old(inv), fireTs, now) else old(inv)
    {
      if !open { return; }
      if inv.lastTim == 0 { inv := inv.(lastTim := fireTs); }
      if now > inv.lastTim {
        var dt := now - inv.lastTim;
        inv := inv.(integral := inv.integral + inv.position * dt,
                    absIntegral := inv.absIntegral + Abs(inv.position) * dt,
                    accrued := inv.accrued + dt);
        inv := inv.(lastTim := now);
      }
    }

    method CloseWindow(clock: nat)
      requires !dead
      modifies this
      ensures Shows(Spec.CloseWindow(c, old(View()), clock))
    {
      var now := clock;
      if buy.leg.ended > now { now := buy.leg.ended; }
      if sel.leg.ended > now { now := sel.leg.ended; }
      if !open || now < fireTs + c.minWindow || now <= fireTs
         || LegFails(buy.leg, fireTs, now) || LegFails(sel.leg, fireTs, now) { dead := true; return; }
      FinishWindow(true, now);
    }

    /** Close the last inventory segment, write the row and end the window. */
    method FinishWindow(ok: bool, now: nat)
      requires open
      modifies this`inv, this`rows, this`open
      ensures View() == WriteRow(old(View()), ok, now)
    {
      hide Accrue;
      AccrueInventory(now);
      rows := rows + [Row(ok, fireTs, now, buy.leg, sel.leg, inv)];
      open := false;
    }

    method OnClock(now: nat)
      requires c.parent > 0 && !dead
      modifies this
      ensures Shows(Tick(c, NextSession(c, old(View()), now), now))
    {
      hide OpenFails, CloseFails, OpenDesk;
      ghost var v := View();
      while !open && now >= end && session + 1 < |c.sessions|
        invariant !dead && NextSession(c, View(), now) == NextSession(c, v, now)
        decreases |c.sessions| - session
      {
        session := session + 1;
        start, end := c.sessions[session].0, c.sessions[session].1;
      }
      assert NextSession(c, View(), now) == View();
      if now < start || bid <= 0 || ask <= 0 { return; }
      if !open {
        if now < end { OpenWindow(now); }
        return;
      }
      if now < fireTs + c.minWindow || !buy.leg.done || !sel.leg.done { return; }
      CloseWindow(now);
      if !dead && now + c.minWindow <= end { OpenWindow(now); }
    }

    method AlarmHandler(now: nat)
      requires !dead
      modifies this
      ensures Shows(OnAlarm(c, old(View()), now))
    {
      hide Tick, NextSession;
      if !IsEnabled() || now == 0 { return; }
      lastTim := now;
      OnClock(now);
    }

    method EobHandler(newBid: int, newAsk: int)
      requires !dead && !stopped
      modifies this`bid, this`ask
      ensures View() == Step(c, old(View()), Burst(newBid, newAsk))
    {
      if IsEnabled() && newBid > 0 && newAsk > 0 && newBid < newAsk { bid, ask := newBid, newAsk; }
    }

    method TradeHandler(resting: Option<Side>, px: int, sz: int)
      requires !dead && !stopped
      modifies this`hits, this`takes
      ensures View() == Step(c, old(View()), Trade(resting, px, sz))
    {
      if !IsEnabled() { return; }
      var notional := px * sz;
      hits := hits.(vol := hits.vol + sz, notional := hits.notional + notional);
      takes := takes.(vol := takes.vol + sz, notional := takes.notional + notional);
      if resting == Some(Buy) {
        hits := hits.(aggVol := hits.aggVol + sz, aggNotional := hits.aggNotional + notional);
      } else if resting == Some(Sell) {
        takes := takes.(aggVol := takes.aggVol + sz, aggNotional := takes.aggNotional + notional);
      }
    }

    method FillHandler(s: Side, px: int, sz: int, tim: nat)
      requires !dead
      modifies this
      ensures Shows(OnFill(c, old(View()), s, px, sz, tim))
    {
      hide Accrue, Move, FillDesk;
      if !IsEnabled() { return; }
      if sz <= 0 || px <= 0 { dead := true; return; }
      var d, ok := FillSide(View(), open, bid, ask, if s.Buy? then hits else takes, lastTim,
                             if s.Buy? then buy else sel, px, sz, tim);
      AccrueInventory(if tim != 0 then tim else lastTim);
      inv := Move(inv, fireTs, if s.Buy? then sz else -sz);
      if !ok { dead := true; return; }
      if s.Buy? { buy := d; } else { sel := d; }
    }

    /** PCoord::add_position, as the lights call it. */
    method AddPosition(s: Side, sz: int)
      modifies this`buy, this`sel
      ensures View() == OnLight(old(View()), s, sz)
    {
      if sz < 1 { return; }
      if s.Buy? {
        buy := buy.(book := buy.book + sz, lights := buy.lights + sz);
      } else {
        sel := sel.(book := sel.book - sz, lights := sel.lights + sz);
      }
    }

    method ShutdownHandler()
      requires !dead
      modifies this
      ensures View() == OnShutdown(c, old(View()))
    {
      hide WriteRow, CutOff;
      if IsEnabled() && open {
        buy, sel := CutOff(buy, lastTim), CutOff(sel, lastTim);
        FinishWindow(false, lastTim);
      }
      stopped := true;
    }

    /** One message through the actor's dispatch. */
    method Handle(e: Event)
      modifies this
      ensures Shows(Step(c, old(View()), e))
    {
      hide OnAlarm, OnFill, OnLight, OnShutdown;
      if dead || stopped { return; }
      match e
      case Alarm(now) => AlarmHandler(now);
      case Burst(b, a) => EobHandler(b, a);
      case Trade(resting, px, sz) => TradeHandler(resting, px, sz);
      case Fill(s, px, sz, tim) => FillHandler(s, px, sz, tim);
      case LightFill(s, sz) => AddPosition(s, sz);
      case Shutdown => ShutdownHandler();
    }
  }
}
