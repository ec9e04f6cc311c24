/**
  The order book as a function of its events: one step per market-data record,
  released execution, status change or message from our own order manager.

  A failed assertion of the program ends the process; here it sets `dead`, and a
  dead book ignores everything that follows.
 */
module Book {
  import opened Levels

  /** `repair` is `!do_cross_check`: true in live trading, false in simulation. Delays in microseconds. */
  datatype Config = Config(repair: bool, maxPx: int, delay: int, cancelDelay: int, feedDelay: nat)

  /** An entry of `ordermap`: the order's book id and its last known price, size and side. */
  datatype Info = Info(id: nat, px: int, sz: int, side: Side)

  /** A message of our own order manager; `ts0` is the market time it was decided at, 0 if none. */
  datatype SimMsg =
    | SimAdd(n: nat, side: Side, px: nat, sz: int, ts0: nat)
    | SimCancel(n: nat, side: Side, px: nat, ts0: nat)

  datatype Action = New | Change | Delete

  datatype Option<T> = None | Some(value: T)

  datatype Event =
    | Record(action: Action, xoid: nat, side: Option<Side>, px: int, qty: nat, recovery: bool, tim: nat)
    | Exec(n: nat, at: Side, lvl: int, sz: int, tim: nat)
    | ChannelReset
    | Status(on: bool)
    | FromUs(msg: SimMsg)

  /** What data_handler hands to the queues for one record. */
  datatype Payload =
    | PAdd(n: nat, xoid: nat, side: Side, px: int, sz: int)
    | PCancel(n: nat, side: Side, px: int)
    | PResize(n: nat, side: Side, px: int, sz: int)
    | PExec(n: nat, side: Side, px: int, sz: int)

  datatype Book = Book(
    bids: Ladder, asks: Ladder,
    orders: map<nat, Info>,
    bestBid: int, bestAsk: int,
    nextId: nat,
    matching: bool, boundary: nat, inRecovery: bool,
    delQ: seq<SimMsg>,
    notes: seq<Note>,                 // trace of fills, cancel-acks and cancel-rejects
    applied: seq<(SimMsg, nat)>,      // trace of our messages that took effect, with the record time
    dead: bool)
  {
    function Lad(s: Side): Ladder { if s.Buy? then bids else asks }

    function WithLad(s: Side, l: Ladder): Book {
      if s.Buy? then this.(bids := l) else this.(asks := l)
    }

    function Lev(s: Side, p: int): Level { At(Lad(s), p) }

    function WithLev(s: Side, p: int, q: Level): Book { WithLad(s, Put(Lad(s), p, q)) }
  }

  function Other(s: Side): Side { if s.Buy? then Sell else Buy }

  function Min(a: int, b: int): int { if a <= b then a else b }
  function Max(a: int, b: int): int { if a >= b then a else b }

  function EmptyLadder(c: Config): Ladder {
    seq(if c.maxPx + 2 >= 0 then c.maxPx + 2 else 0, _ => [])
  }

  /** The book the constructor builds: levels 0..maxprice+1 on both sides. */
  function Init(c: Config): Book {
    Book(EmptyLadder(c), EmptyLadder(c), map[], 0, c.maxPx - 1, 0, true, 0, false, [], [], [], false)
  }

  /** What applying an order to the queues never touches. */
  ghost predicate SameRest(b: Book, r: Book) {
    && r.delQ == b.delQ && r.applied == b.applied && r.orders == b.orders && r.nextId == b.nextId
    && r.matching == b.matching && r.boundary == b.boundary && r.inRecovery == b.inRecovery
    && |r.bids| == |b.bids| && |r.asks| == |b.asks|
  }

  // ----- add(), real orders

  /** The contra levels an arriving real order at `px` sweeps; empty when lo > hi. */
  function SweepRange(c: Config, b: Book, s: Side, px: int): (int, int) {
    if s.Buy? then
      if px > b.bestBid || (c.repair && px >= b.bestAsk)
      then (if c.repair then Min(b.bestBid, b.bestAsk) else b.bestBid, px) else (1, 0)
    else
      if px < b.bestAsk || (c.repair && px <= b.bestBid)
      then (px, if c.repair then Max(b.bestAsk, b.bestBid) else b.bestAsk) else (1, 0)
  }

  /** fill_stray_sim_orders: fill the sim orders of the swept levels; live, cancel the real ones. */
  function Sweep(c: Config, b: Book, s: Side, px: int): (r: Book)
    ensures SameRest(b, r)
  {
    var (lo, hi) := SweepRange(c, b, s, px);
    var l := b.Lad(Other(s));
    b.WithLad(Other(s), Swept(l, lo, hi, c.repair))
    .(notes := b.notes + if s.Buy? then NotesUp(l, lo, hi) else NotesDown(l, lo, hi))
  }

  predicate Uncrosses(c: Config, b: Book, s: Side, px: int) {
    var (lo, hi) := SweepRange(c, b, s, px);
    c.repair && AnyReal(b.Lad(Other(s)), lo, hi)
  }

  /** check_for_bo_change: improve our side's inside; live, walk the other side past emptied levels. */
  function MoveInside(c: Config, b: Book, s: Side, px: int, uncrossed: bool): (r: Book)
    ensures SameRest(b, r)
  {
    if s.Buy? then
      var b1 := b.(bestBid := Max(b.bestBid, px));
      if c.repair && (uncrossed || b1.bestBid >= b1.bestAsk)
      then b1.(bestAsk := WalkUp(b1.asks, b1.bestAsk, |b1.asks| - 1)) else b1
    else
      var b1 := b.(bestAsk := Min(b.bestAsk, px));
      if c.repair && (uncrossed || b1.bestBid >= b1.bestAsk)
      then b1.(bestBid := WalkDown(b1.bids, b1.bestBid)) else b1
  }

  function Append(b: Book, s: Side, px: int, o: Order): (r: Book)
    ensures SameRest(b, r)
  {
    b.WithLev(s, px, b.Lev(s, px) + [o])
  }

  function AddReal(c: Config, b: Book, n: nat, xoid: nat, s: Side, px: int, sz: int): (r: Book)
    ensures SameRest(b, r)
  {
    if px >= c.maxPx then b
    else if sz <= 0 then b.(dead := true)
    else
      Append(MoveInside(c, Sweep(c, b, s, px), s, px, Uncrosses(c, b, s, px)),
             s, px, Order(Real(n), xoid, sz))
  }

  // ----- mod(), real orders

  /** The inside walk at the foot of mod(). */
  function Rewalk(c: Config, b: Book, s: Side, px: int): (r: Book)
    ensures SameRest(b, r)
  {
    if s.Buy? && px <= b.bestBid then b.(bestBid := WalkDown(b.bids, b.bestBid))
    else if s.Sell? && px >= b.bestAsk then b.(bestAsk := WalkUp(b.asks, b.bestAsk, c.maxPx - 1))
    else b
  }

  function CancelReal(c: Config, b: Book, n: nat, s: Side, px: int): (r: Book)
    ensures SameRest(b, r)
  {
    if px >= c.maxPx || !Holds(b.Lev(s, px), Real(n)) then b
    else Rewalk(c, b.WithLev(s, px, Remove(b.Lev(s, px), Real(n))), s, px)
  }

  function ResizeReal(c: Config, b: Book, n: nat, s: Side, px: int, sz: int): (r: Book)
    ensures SameRest(b, r)
  {
    if px >= c.maxPx || !Holds(b.Lev(s, px), Real(n)) then b
    else if sz <= 0 then b.(dead := true)
    else Rewalk(c, b.WithLev(s, px, Resize(b.Lev(s, px), Real(n), sz)), s, px)
  }

  /** The level after `sz` lots executed against its head real order. */
  function ExecLevel(q: Level, n: nat, sz: int, px: int): (Level, seq<Note>) {
    var k := HeadReal(q);
    if k < |q| && Find(q, Real(n)) == k then
      var f := FillBack(q[..k], sz, px);
      (f.0 + q[k..], f.1)
    else (q, [])
  }

  function ExecReal(c: Config, b: Book, n: nat, s: Side, px: int, sz: int): (r: Book)
    ensures SameRest(b, r)
  {
    if px >= c.maxPx || !Holds(b.Lev(s, px), Real(n)) then b
    else if sz <= 0 then b.(dead := true)
    else
      var f := ExecLevel(b.Lev(s, px), n, sz, px);
      Rewalk(c, b.WithLev(s, px, f.0).(notes := b.notes + f.1), s, px)
  }

  // ----- our own orders

  /** fill_sim_on_arrival: the order reaches the other side of a book that is not locked. */
  predicate FillsOnArrival(b: Book, s: Side, px: int) {
    b.bestBid < b.bestAsk && if s.Buy? then px >= b.bestAsk else px <= b.bestBid
  }

  function AddSim(c: Config, b: Book, n: nat, s: Side, px: int, sz: int): (r: Book)
    ensures SameRest(b, r)
  {
    if px >= c.maxPx then b
    else if sz <= 0 then b.(dead := true)
    else if FillsOnArrival(b, s, px) then
      b.(notes := b.notes + [Fill(n, sz, 0, if s.Buy? then b.bestAsk else b.bestBid)])
    else Append(b, s, px, Order(Sim(n), 0, sz))
  }

  function CancelSim(c: Config, b: Book, n: nat, s: Side, px: int): (r: Book)
    ensures SameRest(b, r)
  {
    if px >= c.maxPx then b
    else
      var q := b.Lev(s, px);
      var i := Find(q, Sim(n));
      if i < |q| then b.WithLev(s, px, Remove(q, Sim(n))).(notes := b.notes + [CancAck(n, q[i].sz)])
      else b.(notes := b.notes + [CancReject(n)])
  }

  function ApplySim(c: Config, b: Book, m: SimMsg, at: nat): (r: Book)
    ensures r.delQ == b.delQ
  {
    var b1 := b.(applied := b.applied + [(m, at)]);
    match m
    case SimAdd(n, s, px, sz, _) => AddSim(c, b1, n, s, px, sz)
    case SimCancel(n, s, px, _) => CancelSim(c, b1, n, s, px)
  }

  // ----- the latency queue

  /** Nanosecond market time at which a message reaches the matching engine. */
  function Due(c: Config, m: SimMsg): int {
    var eff := if m.SimCancel? && c.cancelDelay >= 0 then c.cancelDelay else c.delay;
    m.ts0 + c.feedDelay * 1000 + Max(40, eff) * 1000
  }

  function Drain(c: Config, b: Book, tim: nat): Book
    decreases |b.delQ|
  {
    if b.dead || b.delQ == [] || Due(c, b.delQ[0]) >= tim then b
    else
      Drain(c, ApplySim(c, b.(delQ := b.delQ[1..]), b.delQ[0], tim), tim)
  }

  // ----- one record

  predicate CrossFatal(c: Config, b: Book, tim: nat) {
    b.matching && b.boundary != 0 && tim > b.boundary && !c.repair && b.bestBid > b.bestAsk
  }

  function ApplyPayload(c: Config, b: Book, p: Payload): (r: Book)
    ensures SameRest(b, r)
  {
    match p
    case PAdd(n, x, s, px, sz) => AddReal(c, b, n, x, s, px, sz)
    case PCancel(n, s, px) => CancelReal(c, b, n, s, px)
    case PResize(n, s, px, sz) => ResizeReal(c, b, n, s, px, sz)
    case PExec(n, s, px, sz) => ExecReal(c, b, n, s, px, sz)
  }

  /** process_market_data for a real record. */
  function Market(c: Config, b: Book, p: Payload, tim: nat): Book {
    if b.dead then b
    else if CrossFatal(c, b, tim) then b.(dead := true)
    else ApplyPayload(c, b.(boundary := Max(b.boundary, tim)), p)
  }

  /** process_q. */
  function Process(c: Config, b: Book, p: Payload, tim: nat): Book {
    if b.dead || p.px <= 0 then b else Market(c, Drain(c, b, tim), p, tim)
  }

  function Clear(c: Config, b: Book): Book {
    b.(orders := map[], bids := Blank(|b.bids|), asks := Blank(|b.asks|),
       bestBid := 0, bestAsk := c.maxPx - 1,
       notes := b.notes + LadderAcks(b.bids) + LadderAcks(b.asks))
  }

  /** The recovery flag of a record: the first snapshot record clears the book. */
  function Recover(c: Config, b: Book, recovery: bool): Book {
    if recovery && !b.inRecovery then Clear(c, b).(inRecovery := true)
    else if !recovery then b.(inRecovery := false)
    else b
  }

  function OnNew(c: Config, b: Book, e: Event): Book
    requires e.Record?
  {
    if e.xoid in b.orders then
      if e.recovery && e.qty > 0 then
        if e.side.None? then b.(dead := true)
        else
          b.(orders := b.orders[e.xoid := Info(b.orders[e.xoid].id, e.px, e.qty, e.side.value)])
      else b
    else if e.side.None? || e.qty == 0 then b.(dead := true)
    else
      var b1 := b.(orders := b.orders[e.xoid := Info(b.nextId, e.px, e.qty, e.side.value)],
                   nextId := b.nextId + 1);
      Process(c, b1, PAdd(b.nextId, e.xoid, e.side.value, e.px, e.qty), e.tim)
  }

  /** Whether a Change loses its place: the size grew, or the price moved. */
  predicate Replaces(o: Info, e: Event)
    requires e.Record?
  {
    e.qty > o.sz || (e.side.Some? && e.px != o.px)
  }

  function OnChange(c: Config, b: Book, e: Event): Book
    requires e.Record?
  {
    if e.xoid !in b.orders then b
    else
      var o := b.orders[e.xoid];
      if e.side.None? && e.qty > o.sz then b.(dead := true)
      else if Replaces(o, e) then
        var b1 := Process(c, b, PCancel(o.id, o.side, o.px), e.tim);
        var s := if e.side.Some? then e.side.value else o.side;
        var px := if e.side.Some? then e.px else o.px;
        var b2 := Process(c, b1.(nextId := b1.nextId + 1), PAdd(b1.nextId, e.xoid, s, px, e.qty), e.tim);
        if s != o.side then b2.(dead := true)
        else b2.(orders := b2.orders[e.xoid := Info(b1.nextId, px, e.qty, o.side)])
      else
        var b1 := b.(orders := b.orders[e.xoid := o.(sz := e.qty)]);
        Process(c, b1, PResize(o.id, o.side, o.px, e.qty), e.tim)
  }

  function OnDelete(c: Config, b: Book, e: Event): Book
    requires e.Record?
  {
    if e.xoid !in b.orders then b
    else
      var o := b.orders[e.xoid];
      var b1 := Process(c, b, PCancel(o.id, o.side, o.px), e.tim);
      b1.(orders := b1.orders - {e.xoid})
  }

  predicate OnLadder(c: Config, px: int) { 0 < px < c.maxPx }

  /** data_handler for a book record. A price off the ladder drops a New and turns the rest into a delete. */
  function OnRecord(c: Config, b: Book, e: Event): Book
    requires e.Record?
  {
    if !OnLadder(c, e.px) && e.action.New? then b
    else
      var b1 := Recover(c, b, e.recovery);
      if e.recovery && !e.action.New? then b1.(dead := true)
      else if e.action.New? then OnNew(c, b1, e)
      else if e.action.Change? && OnLadder(c, e.px) then OnChange(c, b1, e)
      else OnDelete(c, b1, e)
  }

  function Step(c: Config, b: Book, e: Event): Book {
    if b.dead then b
    else
      match e
      case Record(_, _, _, _, _, _, _) => OnRecord(c, b, e)
      case Exec(n, s, px, sz, tim) => Process(c, b, PExec(n, s, px, sz), tim)
      case ChannelReset => Clear(c, b)
      case Status(on) => b.(matching := on)
      case FromUs(m) =>
        if m.ts0 == 0 then
          if b.delQ != [] then b.(dead := true) else ApplySim(c, b, m, 0)
        else b.(delQ := b.delQ + [m])
  }

  function Run(c: Config, b: Book, es: seq<Event>): Book {
    if es == [] then b else Step(c, Run(c, b, es[..|es| - 1]), es[|es| - 1])
  }

  // ----- a dead book stays dead

  lemma ProcessStaysDead(c: Config, b: Book, p: Payload, tim: nat)
    ensures b.dead ==> Process(c, b, p, tim).dead
  {}

  lemma StepStaysDead(c: Config, b: Book, e: Event)
    ensures b.dead ==> Step(c, b, e).dead
  {}
}
