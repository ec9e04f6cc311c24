/**
  The slippage probe as a function of its events: alarms of the market clock, touch
  updates, trades, fills reported to the probe, and the same fills reaching the two
  position books through the lights.

  Sizes, prices and integrals are integers. A failed assertion sets `dead`; after the
  shutdown message the actor handles nothing more.
 */
module Probe {

  datatype Side = Buy | Sell

  datatype Option<T> = None | Some(value: T)

  datatype Config = Config(parent: int, minWindow: nat, sessions: seq<(nat, nat)>)

  /** Session cumulatives a leg snapshots: the market's volume and notional, and those of the leg's own
      aggressor stream (hits for the buy leg, takes for the sell leg). */
  datatype Cum = Cum(vol: int, notional: int, aggVol: int, aggNotional: int)

  const NoCum := Cum(0, 0, 0, 0)

  datatype Leg = Leg(notional: int, filled: int, started: nat, ended: nat, toDo: int, endMid: int,
                     first: Cum, last: Cum, anchored: bool, done: bool)

  const NewLeg := Leg(0, 0, 0, 0, 0, 0, NoCum, NoCum, false, false)

  /**
    One side: its leg, the work handed out so far, everything it filled, and its position book,
    moved by handed-out work and by `lights`, the lots its lights have filled.
    `excluded` traces the fills that no leg measures.
   */
  datatype Desk = Desk(leg: Leg, given: int, filled: int, book: int, lights: int, excluded: int)

  const NewDesk := Desk(NewLeg, 0, 0, 0, 0, 0)

  /** A written row: the window, its two legs and its inventory. */
  datatype Row = Row(ok: bool, fireTs: nat, closeTs: nat, buy: Leg, sel: Leg, inv: Inventory) {
    function L(s: Side): Leg { if s.Buy? then buy else sel }
  }

  /** The inventory carried since the window opened. Traces: `accrued` sums the integrated time,
      `moment` the signed lots of each fill times the time into the window at which it counted. */
  datatype Inventory = Inventory(position: int, max: int, min: int, integral: int, absIntegral: int,
                                 lastTim: nat, accrued: int, moment: int)

  datatype Event =
    | Alarm(now: nat)
    | Burst(bid: int, ask: int)
    | Trade(resting: Option<Side>, px: int, sz: int) // `resting` is the side of the order that was hit or taken
    | Fill(side: Side, px: int, sz: int, tim: nat)   // the fill as the probe hears of it
    | LightFill(side: Side, sz: int)                 // the fill as the position book hears of it
    | Shutdown

  /** Traces: `starts` lists the window starts, `rows` the rows written. */
  datatype Probe = Probe(
    start: nat, end: nat, session: nat,
    open: bool, fireTs: nat,
    bid: int, ask: int, lastTim: nat, hits: Cum, takes: Cum,
    inv: Inventory, buy: Desk, sel: Desk,
    stopped: bool, dead: bool,
    starts: seq<nat>, rows: seq<Row>)
  {
    function D(s: Side): Desk { if s.Buy? then buy else sel }
    function Stream(s: Side): Cum { if s.Buy? then hits else takes }
    function WithD(s: Side, d: Desk): Probe { if s.Buy? then this.(buy := d) else this.(sel := d) }
  }

  function Init(c: Config, start: nat, end: nat): Probe {
    Probe(start, end, 0, false, 0, 0, 0, 0, NoCum, NoCum, Inventory(0, 0, 0, 0, 0, 0, 0, 0), NewDesk, NewDesk,
          false, false, [], [])
  }

  predicate Enabled(c: Config, p: Probe) { c.parent > 0 && p.end > p.start }

  function Abs(x: int): nat { if x < 0 then -x else x }
  function Max(a: int, b: int): int { if a >= b then a else b }
  function Min(a: int, b: int): int { if a <= b then a else b }

  // ----- give_work

  /** How far a side's book is past flat; negative means it still has work. */
  function Ahead(s: Side, book: int): int { if s.Buy? then book else -book }

  /** Parents handed out until the side has work: one, plus one per whole parent it ran ahead. */
  function Rounds(parent: int, ahead: int): (r: int)
    requires parent > 0
    ensures r >= 1
  {
    if ahead < 0 then 1 else ahead / parent + 1
  }

  /** The assertion on the number of rounds. */
  predicate TooFarAhead(parent: int, ahead: int) { ahead >= 1000 * parent }

  function Give(c: Config, s: Side, d: Desk): Desk
    requires c.parent > 0
  {
    var w := Rounds(c.parent, Ahead(s, d.book)) * c.parent;
    d.(book := if s.Buy? then d.book - w else d.book + w, given := d.given + w)
  }

  // ----- windows

  function Mark(l: Leg, cum: Cum): Leg {
    l.(first := if l.anchored then l.first else cum, anchored := true, last := cum)
  }

  predicate MarkFails(l: Leg, cum: Cum) { cum.vol < l.last.vol }

  function OpenDesk(c: Config, p: Probe, s: Side, now: nat): Desk
    requires c.parent > 0
  {
    var d := Give(c, s, p.D(s));
    d.(leg := Mark(NewLeg.(started := now), p.Stream(s)).(toDo := d.given - d.filled))
  }

  /** The assertions of open_window and give_work. */
  predicate OpenFails(c: Config, p: Probe, now: nat)
    requires c.parent > 0
  {
    || !(0 < p.bid < p.ask)
    || MarkFails(NewLeg, p.hits) || MarkFails(NewLeg, p.takes)
    || TooFarAhead(c.parent, Ahead(Buy, p.buy.book)) || TooFarAhead(c.parent, Ahead(Sell, p.sel.book))
    || Ahead(Buy, OpenDesk(c, p, Buy, now).book) >= 0 || Ahead(Sell, OpenDesk(c, p, Sell, now).book) >= 0
    || OpenDesk(c, p, Buy, now).leg.toDo <= 0 || OpenDesk(c, p, Sell, now).leg.toDo <= 0
  }

  function OpenWindow(c: Config, p: Probe, now: nat): Probe
    requires c.parent > 0
  {
    if OpenFails(c, p, now) then p.(dead := true)
    else
      p.(open := true, fireTs := now,
         inv := Inventory(p.inv.position, p.inv.position, p.inv.position, 0, 0, now, 0, 0),
         buy := OpenDesk(c, p, Buy, now), sel := OpenDesk(c, p, Sell, now),
         starts := p.starts + [now])
  }

  /** accrue_inventory inside a window: integrate the carried position up to `now`, never backwards. */
  function Accrue(v: Inventory, fireTs: nat, now: nat): Inventory {
    var last := if v.lastTim == 0 then fireTs else v.lastTim;
    if now > last then
      v.(integral := v.integral + v.position * (now - last),
         absIntegral := v.absIntegral + Abs(v.position) * (now - last),
         lastTim := now, accrued := v.accrued + (now - last))
    else v.(lastTim := last)
  }

  /** A fill moves the position and its extremes. */
  function Move(v: Inventory, fireTs: nat, delta: int): Inventory {
    var pos := v.position + delta;
    v.(position := pos, max := Max(v.max, pos), min := Min(v.min, pos),
       moment := v.moment + delta * (v.lastTim - fireTs))
  }

  predicate LegFails(l: Leg, fireTs: nat, now: nat) {
    !(l.done && l.started <= l.ended <= now && l.started == fireTs && l.notional > 0)
  }

  function CloseTime(p: Probe, now: nat): nat { Max(now, Max(p.buy.leg.ended, p.sel.leg.ended)) }

  /** The assertions of close_window. */
  predicate CloseFails(c: Config, p: Probe, now: nat) {
    var at := CloseTime(p, now);
    || !p.open || at < p.fireTs + c.minWindow || at <= p.fireTs
    || LegFails(p.buy.leg, p.fireTs, at) || LegFails(p.sel.leg, p.fireTs, at)
  }

  /** Write the row of the open window and end it. */
  function WriteRow(p: Probe, ok: bool, closeTs: nat): Probe {
    var v := Accrue(p.inv, p.fireTs, closeTs);
    p.(inv := v, open := false, rows := p.rows + [Row(ok, p.fireTs, closeTs, p.buy.leg, p.sel.leg, v)])
  }

  function CloseWindow(c: Config, p: Probe, now: nat): Probe {
    if CloseFails(c, p, now) then p.(dead := true) else WriteRow(p, true, CloseTime(p, now))
  }

  // ----- the clock

  /** Move to the next trading day once the current one is over and no window is open. */
  function NextSession(c: Config, p: Probe, now: nat): Probe
    decreases |c.sessions| - p.session
  {
    if !p.open && now >= p.end && p.session + 1 < |c.sessions| then
      var k := p.session + 1;
      NextSession(c, p.(session := k, start := c.sessions[k].0, end := c.sessions[k].1), now)
    else p
  }

  function Tick(c: Config, p: Probe, now: nat): Probe
    requires c.parent > 0
  {
    if now < p.start || p.bid <= 0 || p.ask <= 0 then p
    else if !p.open then
      if now < p.end then OpenWindow(c, p, now) else p
    else if now < p.fireTs + c.minWindow || !p.buy.leg.done || !p.sel.leg.done then p
    else
      var q := CloseWindow(c, p, now);
      if !q.dead && now + c.minWindow <= q.end then OpenWindow(c, q, now) else q
  }

  function OnAlarm(c: Config, p: Probe, now: nat): Probe {
    if !Enabled(c, p) || now == 0 then p
    else Tick(c, NextSession(c, p.(lastTim := now), now), now)
  }

  // ----- fills

  function FillLeg(p: Probe, l: Leg, cum: Cum, px: int, sz: int, tim: nat): Leg {
    var l1 := Mark(l.(notional := l.notional + px * sz, filled := l.filled + sz), cum);
    var stamp := if tim != 0 then tim else p.lastTim;
    var l2 := if l1.filled >= l1.toDo
              then l1.(done := true, ended := Max(stamp, l1.started), endMid := p.bid + p.ask) else l1;
    if tim != 0 && tim > l2.ended then l2.(ended := Max(tim, l2.started)) else l2
  }

  function OnFill(c: Config, p: Probe, s: Side, px: int, sz: int, tim: nat): Probe {
    if !Enabled(c, p) then p
    else if sz <= 0 || px <= 0 then p.(dead := true)
    else
      var a := if p.open then Accrue(p.inv, p.fireTs, if tim != 0 then tim else p.lastTim) else p.inv;
      var b := p.(inv := Move(a, p.fireTs, if s.Buy? then sz else -sz));
      var d := FillDesk(p, p.D(s), p.Stream(s), px, sz, tim);
      if !p.D(s).leg.done && MarkFails(p.D(s).leg, p.Stream(s)) then b.(dead := true) else b.WithD(s, d)
  }

  /** The side's total counts every fill; its leg only those before it is done. */
  function FillDesk(p: Probe, d: Desk, cum: Cum, px: int, sz: int, tim: nat): Desk {
    d.(filled := d.filled + sz,
       excluded := d.excluded + if p.open && !d.leg.done then 0 else sz,
       leg := if d.leg.done then d.leg else FillLeg(p, d.leg, cum, px, sz, tim))
  }

  /** The light's own fill handler: PCoord::add_position, which ignores sizes under one. */
  function OnLight(p: Probe, s: Side, sz: int): Probe {
    if sz < 1 then p
    else
      var d := p.D(s);
      p.WithD(s, d.(book := if s.Buy? then d.book + sz else d.book - sz, lights := d.lights + sz))
  }

  /** A trade counts in both streams' market totals, and in the one whose orders it traded with. */
  function OnTrade(p: Probe, resting: Option<Side>, px: int, sz: int): Probe {
    p.(hits := Traded(p.hits, px, sz, resting == Some(Buy)), takes := Traded(p.takes, px, sz, resting == Some(Sell)))
  }

  function Traded(t: Cum, px: int, sz: int, own: bool): Cum {
    Cum(t.vol + sz, t.notional + px * sz,
        t.aggVol + if own then sz else 0, t.aggNotional + if own then px * sz else 0)
  }

  /** A leg cut off by the shutdown is stamped with the last alarm. */
  function CutOff(d: Desk, tim: nat): Desk {
    if d.leg.done then d else d.(leg := d.leg.(ended := tim))
  }

  function OnShutdown(c: Config, p: Probe): Probe {
    if !Enabled(c, p) || !p.open then p.(stopped := true)
    else
      WriteRow(p.(buy := CutOff(p.buy, p.lastTim), sel := CutOff(p.sel, p.lastTim)), false, p.lastTim)
        .(stopped := true)
  }

  function Step(c: Config, p: Probe, e: Event): Probe {
    if p.dead || p.stopped then p
    else
      match e
      case Alarm(now) => OnAlarm(c, p, now)
      case Burst(bid, ask) =>
        if Enabled(c, p) && 0 < bid && 0 < ask && bid < ask then p.(bid := bid, ask := ask) else p
      case Trade(resting, px, sz) => if Enabled(c, p) then OnTrade(p, resting, px, sz) else p
      case Fill(s, px, sz, tim) => OnFill(c, p, s, px, sz, tim)
      case LightFill(s, sz) => OnLight(p, s, sz)
      case Shutdown => OnShutdown(c, p)
  }

  function Run(c: Config, p: Probe, es: seq<Event>): Probe {
    if es == [] then p else Step(c, Run(c, p, es[..|es| - 1]), es[|es| - 1])
  }
}
