/**
  The order book as the program runs it: an object whose handlers change the ladders,
  the order map and the walked inside prices in place, with loops over levels, queues
  and the latency queue. Every method is proved against the function of module Book
  that gives its effect.
 */
module OB {
  import opened Levels
  import opened Book

  // ----- facts the loops need

  lemma RealPartNext(q: Level, i: nat)
    requires i < |q|
    ensures RealPart(q[..i + 1]) == RealPart(q[..i]) + if q[i].IsSim() then [] else [q[i]]
  {
    assert q[..i + 1] == q[..i] + [q[i]];
    RealPartConcat(q[..i], [q[i]]);
  }

  lemma {:induction false} LevelFillsConcat(a: Level, b: Level, px: int)
    ensures LevelFills(a + b, px) == LevelFills(a, px) + LevelFills(b, px)
  {
    if a == [] {
      assert a + b == b;
    } else {
      assert (a + b)[1..] == a[1..] + b && (a + b)[0] == a[0];
      LevelFillsConcat(a[1..], b, px);
      var h := if a[0].IsSim() then [Fill(a[0].id.n, a[0].sz, 0, px)] else [];
      assert h + (LevelFills(a[1..], px) + LevelFills(b, px)) == h + LevelFills(a[1..], px) + LevelFills(b, px);
    }
  }

  lemma LevelFillsNext(q: Level, i: nat, px: int)
    requires i < |q|
    ensures LevelFills(q[..i + 1], px) ==
            LevelFills(q[..i], px) + if q[i].IsSim() then [Fill(q[i].id.n, q[i].sz, 0, px)] else []
  {
    assert q[..i + 1] == q[..i] + [q[i]];
    LevelFillsConcat(q[..i], [q[i]], px);
    assert [q[i]][1..] == [];
  }

  lemma NothingSwept(px: int)
    ensures RealPart([]) == [] && LevelFills([], px) == []
  {}

  lemma {:induction false} NotesUpNext(l: Ladder, lo: int, hi: int)
    requires lo <= hi
    ensures NotesUp(l, lo, hi) == NotesUp(l, lo, hi - 1) + LevelFills(At(l, hi), hi)
    decreases hi - lo
  {
    if lo < hi { NotesUpNext(l, lo + 1, hi); }
  }

  lemma {:induction false} NotesDownNext(l: Ladder, lo: int, hi: int)
    requires lo <= hi
    ensures NotesDown(l, lo, hi) == NotesDown(l, lo + 1, hi) + LevelFills(At(l, lo), lo)
    decreases hi - lo
  {
    if lo < hi { NotesDownNext(l, lo, hi - 1); }
  }

  // ----- loops over one queue

  /** get_head_no_sim: walk past the sim orders at the front. */
  method HeadNoSim(q: Level) returns (i: nat)
    ensures i == HeadReal(q)
  {
    i := 0;
    while i < |q| && q[i].IsSim()
      invariant i <= |q|
      invariant forall j :: 0 <= j < i ==> q[j].IsSim()
    {
      i := i + 1;
    }
    assert HeadReal(q) <= i && i <= HeadReal(q);
  }

  /** canc_notify_all: cancel from the lowest id on; our orders are acknowledged. */
  method AckLevel(q: Level) returns (ts: seq<Note>)
    ensures ts == LevelAcks(q)
  {
    ts := [];
    var rest := q;
    while LeastSim(rest) < |rest|
      invariant ts + LevelAcks(rest) == LevelAcks(q)
      decreases |rest|
    {
      var i := LeastSim(rest);
      ts := ts + [CancAck(rest[i].id.n, rest[i].sz)];
      rest := Without(rest, i);
    }
  }

  method AckLadder(l: Ladder) returns (ts: seq<Note>)
    ensures ts == LadderAcks(l)
  {
    hide LevelAcks;
    ts := [];
    for i := 0 to |l|
      invariant ts + LadderAcks(l[i..]) == LadderAcks(l)
    {
      var acks := AckLevel(l[i]);
      assert l[i..][1..] == l[i + 1..];
      ts := ts + acks;
    }
  }

  /** The inner loop of fill_stray_sim_orders: fill our orders, and live cancel the real ones. */
  method SweepLevel(q: Level, px: int, repair: bool) returns (rest: Level, fills: seq<Note>, hit: bool)
    ensures rest == if repair then [] else RealPart(q)
    ensures fills == LevelFills(q, px)
    ensures hit <==> repair && HasReal(q)
  {
    hide RealPart, LevelFills;
    rest, fills, hit := [], [], false;
    var i := 0;
    NothingSwept(px);
    assert q[..0] == [];
    while i < |q|
      invariant 0 <= i <= |q|
      invariant rest == if repair then [] else RealPart(q[..i])
      invariant fills == LevelFills(q[..i], px)
      invariant hit <==> repair && exists j :: 0 <= j < i && !q[j].IsSim()
    {
      RealPartNext(q, i);
      LevelFillsNext(q, i, px);
      if q[i].IsSim() {
        fills := fills + [Fill(q[i].id.n, q[i].sz, 0, px)];
      } else if repair {
        hit := true;
      } else {
        rest := rest + [q[i]];
      }
      i := i + 1;
    }
    assert q[..i] == q;
  }

  /** do_exec on the queue that holds real order `n`: only its head real order lets ours fill. */
  method ExecQueue(q: Level, n: nat, sz: int, px: int) returns (r: Level, fills: seq<Note>)
    requires Holds(q, Real(n))
    ensures (r, fills) == ExecLevel(q, n, sz, px)
  {
    hide FillBack;
    var h := HeadNoSim(q);
    r, fills := q, [];
    if Find(q, Real(n)) == h { r, fills := FillFrom(q, h, sz, px); }
  }

  /** fill: take `sz` lots from our orders, from position `k` - 1 back towards the head. */
  method FillFrom(q: Level, k: nat, sz: int, px: int) returns (r: Level, fills: seq<Note>)
    requires k <= |q|
    ensures r == FillBack(q[..k], sz, px).0 + q[k..]
    ensures fills == FillBack(q[..k], sz, px).1
    decreases k
  {
    if k == 0 || sz <= 0 || !q[k - 1].IsSim() {
      r, fills := q, [];
      assert q == q[..k] + q[k..];
    } else {
      var o := q[k - 1];
      assert q[..k][k - 1] == o && q[..k][..k - 1] == q[..k - 1];
      if o.sz <= sz {
        var without := q[..k - 1] + q[k..];
        assert without[..k - 1] == q[..k - 1] && without[k - 1..] == q[k..];
        r, fills := FillFrom(without, k - 1, sz - o.sz, px);
        fills := [Fill(o.id.n, o.sz, 0, px)] + fills;
      } else {
        r := q[k - 1 := o.(sz := o.sz - sz)];
        fills := [Fill(o.id.n, sz, o.sz - sz, px)];
        assert r == q[..k - 1] + [o.(sz := o.sz - sz)] + q[k..];
      }
    }
  }

  /** The level loop of a buy: every ask level from `lo` up to the arriving price. */
  method SweepUp(l: Ladder, lo: int, px: int, repair: bool, maxPx: int)
    returns (r: Ladder, ghost fills: seq<Note>, hit: bool)
    requires 0 <= lo <= px < maxPx <= |l|
    ensures r == Swept(l, lo, px, repair)
    ensures fills == NotesUp(l, lo, px)
    ensures hit <==> repair && AnyReal(l, lo, px)
  {
    hide RealPart, LevelFills, HasReal, Swept, NotesUp, AnyReal;
    r, fills, hit := l, [], false;
    var tmp := lo;
    SweepNothing(l, lo, lo - 1, repair);
    while tmp <= px
      invariant lo <= tmp <= px + 1
      invariant r == Swept(l, lo, tmp - 1, repair)
      invariant fills == NotesUp(l, lo, tmp - 1)
      invariant hit <==> repair && AnyReal(l, lo, tmp - 1)
    {
      assert r[tmp] == At(r, tmp) == At(l, tmp);
      var rest, f, h := SweepLevel(r[tmp], tmp, repair);
      SweepOneMore(l, r, lo, tmp, repair, false, rest);
      NotesUpNext(l, lo, tmp);
      AnyRealNext(l, lo, tmp);
      r := r[tmp := rest];
      fills := fills + f;
      hit := hit || h;
      tmp := tmp + 1;
      if tmp >= maxPx { break; }
    }
  }

  /** The level loop of a sell: every bid level from `hi` down to the arriving price. */
  method SweepDown(l: Ladder, px: int, hi: int, repair: bool)
    returns (r: Ladder, ghost fills: seq<Note>, hit: bool)
    requires 1 <= px <= hi < |l|
    ensures r == Swept(l, px, hi, repair)
    ensures fills == NotesDown(l, px, hi)
    ensures hit <==> repair && AnyReal(l, px, hi)
  {
    hide RealPart, LevelFills, HasReal, Swept, NotesDown, AnyReal;
    r, fills, hit := l, [], false;
    var tmp := hi;
    SweepNothing(l, hi + 1, hi, repair);
    while tmp >= px
      invariant px - 1 <= tmp <= hi
      invariant r == Swept(l, tmp + 1, hi, repair)
      invariant fills == NotesDown(l, tmp + 1, hi)
      invariant hit <==> repair && AnyReal(l, tmp + 1, hi)
      decreases tmp
    {
      assert r[tmp] == At(r, tmp) == At(l, tmp);
      var rest, f, h := SweepLevel(r[tmp], tmp, repair);
      SweepOneMore(l, r, tmp, hi, repair, true, rest);
      NotesDownNext(l, tmp, hi);
      AnyRealFirst(l, tmp, hi);
      r := r[tmp := rest];
      fills := fills + f;
      hit := hit || h;
      tmp := tmp - 1;
      if tmp <= 0 { break; }
    }
  }

  /** Replacing the next level of a partly swept ladder sweeps one level more. */
  lemma SweepOneMore(l: Ladder, r: Ladder, lo: int, hi: int, repair: bool, low: bool, rest: Level)
    requires 0 <= lo <= hi < |l| && r == SweptBut(l, lo, hi, repair, low)
    requires rest == if repair then [] else RealPart(At(l, if low then lo else hi))
    ensures |r| == |l| && r[if low then lo else hi := rest] == Swept(l, lo, hi, repair)
  {
    hide RealPart;
    SweptNext(l, lo, hi, repair, low);
  }

  lemma AnyRealNext(l: Ladder, lo: int, hi: int)
    requires lo <= hi
    ensures AnyReal(l, lo, hi) <==> AnyReal(l, lo, hi - 1) || HasReal(At(l, hi))
  {}

  lemma AnyRealFirst(l: Ladder, lo: int, hi: int)
    requires lo <= hi
    ensures AnyReal(l, lo, hi) <==> AnyReal(l, lo + 1, hi) || HasReal(At(l, lo))
  {}

  lemma SweepNothing(l: Ladder, lo: int, hi: int, repair: bool)
    requires lo > hi
    ensures Swept(l, lo, hi, repair) == l && NotesUp(l, lo, hi) == [] && NotesDown(l, lo, hi) == []
    ensures !AnyReal(l, lo, hi)
  {
    SweptNone(l, lo, hi, repair);
  }

  class OB {
    const c: Config
    var bidqs: Ladder
    var askqs: Ladder
    var ordermap: map<nat, Info>
    var bestBid: int
    var bestAsk: int
    var bookoid: nat
    var matching: bool
    var xcheckTx: nat
    var inRecovery: bool
    var delQ: seq<SimMsg>
    var dead: bool
    ghost var notes: seq<Note>
    ghost var applied: seq<(SimMsg, nat)>

    ghost function View(): Book
      reads this
    {
      Book(bidqs, askqs, ordermap, bestBid, bestAsk, bookoid, matching, xcheckTx, inRecovery,
           delQ, notes, applied, dead)
    }

    /** Ladders of levels 0..maxprice+1, inside prices that index them, entries priced on the ladder. */
    ghost predicate Valid()
      reads this
    {
      && c.maxPx >= 2 && |bidqs| == c.maxPx + 2 && |askqs| == c.maxPx + 2
      && 0 <= bestBid < c.maxPx && 1 <= bestAsk <= c.maxPx + 1
      && forall x :: x in ordermap ==> OnLadder(c, ordermap[x].px)
    }

    constructor (c: Config)
      requires c.maxPx >= 2
      ensures Valid() && this.c == c && View() == Init(c)
    {
      this.c := c;
      bidqs, askqs := EmptyLadder(c), EmptyLadder(c);
      ordermap := map[];
      bestBid, bestAsk, bookoid := 0, c.maxPx - 1, 0;
      matching, xcheckTx, inRecovery, dead := true, 0, false, false;
      delQ, notes, applied := [], [], [];
    }

    // ----- add()

    /** fill_stray_sim_orders: which levels an arriving real order sweeps, and the sweep. */
    method FillStraySimOrders(s: Side, px: int) returns (uncrossed: bool)
      requires Valid() && OnLadder(c, px)
      modifies this`bidqs, this`askqs, this`notes
      ensures Valid()
      ensures View() == Sweep(c, old(View()), s, px)
      ensures uncrossed == Uncrosses(c, old(View()), s, px)
    {
      hide Swept, NotesUp, NotesDown, AnyReal;
      uncrossed := false;
      ghost var fills: seq<Note> := [];
      if s.Buy? && (px > bestBid || (c.repair && px >= bestAsk)) {
        var from := if c.repair then Min(bestBid, bestAsk) else bestBid;
        askqs, fills, uncrossed := SweepUp(askqs, from, px, c.repair, c.maxPx);
      } else if s.Sell? && (px < bestAsk || (c.repair && px <= bestBid)) {
        var from := if c.repair then Max(bestAsk, bestBid) else bestAsk;
        bidqs, fills, uncrossed := SweepDown(bidqs, px, from, c.repair);
      } else {
        SweepNothing(if s.Buy? then askqs else bidqs, 1, 0, c.repair);
      }
      notes := notes + fills;
    }

    /** Walk the best ask up past levels without a real order. */
    method WalkAsk(stop: int)
      requires Valid() && stop < |askqs|
      modifies this`bestAsk
      ensures Valid() && bestAsk == WalkUp(askqs, old(bestAsk), stop)
    {
      while bestAsk < stop && !HasReal(askqs[bestAsk])
        invariant old(bestAsk) <= bestAsk <= Max(stop, old(bestAsk))
        invariant WalkUp(askqs, bestAsk, stop) == WalkUp(askqs, old(bestAsk), stop)
      {
        bestAsk := bestAsk + 1;
      }
    }

    /** Walk the best bid down past levels without a real order, stopping at 1. */
    method WalkBid()
      requires Valid()
      modifies this`bestBid
      ensures Valid() && bestBid == WalkDown(bidqs, old(bestBid))
    {
      while bestBid > 1 && !HasReal(bidqs[bestBid])
        invariant 0 <= bestBid <= old(bestBid)
        invariant WalkDown(bidqs, bestBid) == WalkDown(bidqs, old(bestBid))
      {
        bestBid := bestBid - 1;
      }
    }

    method CheckForBoChange(s: Side, px: int, uncrossed: bool)
      requires Valid() && OnLadder(c, px)
      modifies this`bestBid, this`bestAsk
      ensures Valid() && View() == MoveInside(c, old(View()), s, px, uncrossed)
    {
      hide WalkUp, WalkDown, HasReal;
      if s.Buy? {
        if px > bestBid { bestBid := px; }
        if c.repair && (uncrossed || bestBid >= bestAsk) { WalkAsk(|askqs| - 1); }
      } else {
        if px < bestAsk { bestAsk := px; }
        if c.repair && (uncrossed || bestBid >= bestAsk) { WalkBid(); }
      }
    }

    /** add() for a real order. */
    method AddRealOrder(n: nat, xoid: nat, s: Side, px: int, sz: int)
      requires Valid() && px > 0
      modifies this
      ensures Valid() && View() == AddReal(c, old(View()), n, xoid, s, px, sz)
    {
      hide Sweep, MoveInside, Uncrosses;
      if px >= c.maxPx { return; }
      if sz <= 0 { dead := true; return; }
      var uncrossed := FillStraySimOrders(s, px);
      CheckForBoChange(s, px, uncrossed);
      Enqueue(s, px, Order(Real(n), xoid, sz));
    }

    /** OrderQ::append. */
    method Enqueue(s: Side, px: int, o: Order)
      requires Valid() && 0 <= px < c.maxPx
      modifies this`bidqs, this`askqs
      ensures Valid() && View() == Append(old(View()), s, px, o)
    {
      if s.Buy? { bidqs := bidqs[px := bidqs[px] + [o]]; }
      else { askqs := askqs[px := askqs[px] + [o]]; }
    }

    /** add() for an order of ours: filled on arrival, or queued. */
    method AddSimOrder(n: nat, s: Side, px: nat, sz: int)
      requires Valid()
      modifies this
      ensures Valid() && View() == AddSim(c, old(View()), n, s, px, sz)
    {
      hide Append;
      if px >= c.maxPx { return; }
      if sz <= 0 { dead := true; return; }
      if s.Buy? && px >= bestAsk && bestBid < bestAsk {
        notes := notes + [Fill(n, sz, 0, bestAsk)];
      } else if s.Sell? && px <= bestBid && bestBid < bestAsk {
        notes := notes + [Fill(n, sz, 0, bestBid)];
      } else {
        Enqueue(s, px, Order(Sim(n), 0, sz));
      }
    }

    // ----- mod()

    /** The queue of one side and price. */
    method Queue(s: Side, px: int) returns (q: Level)
      requires Valid() && 0 <= px < c.maxPx
      ensures q == View().Lev(s, px)
    {
      q := if s.Buy? then bidqs[px] else askqs[px];
    }

    method SetQueue(s: Side, px: int, q: Level)
      requires Valid() && 0 <= px < c.maxPx
      modifies this`bidqs, this`askqs
      ensures Valid() && View() == old(View()).WithLev(s, px, q)
    {
      if s.Buy? { bidqs := bidqs[px := q]; } else { askqs := askqs[px := q]; }
    }

    /** The foot of mod(): walk the inside if the record touched it. */
    method AdjustInside(s: Side, px: int)
      requires Valid()
      modifies this`bestBid, this`bestAsk
      ensures Valid() && View() == Rewalk(c, old(View()), s, px)
    {
      hide WalkUp, WalkDown;
      if s.Buy? && px <= bestBid { WalkBid(); }
      else if s.Sell? && px >= bestAsk { WalkAsk(c.maxPx - 1); }
    }

    /** mod() with CANCD on a real order; an order that is not found is ignored. */
    method CancelRealOrder(n: nat, s: Side, px: int)
      requires Valid() && px > 0
      modifies this
      ensures Valid() && View() == CancelReal(c, old(View()), n, s, px)
    {
      hide Rewalk, Remove, Book.WithLev, Book.Lev, Find;
      if px >= c.maxPx { return; }
      var q := Queue(s, px);
      var i := Find(q, Real(n));
      if i == |q| { return; }
      RemoveSlices(q, Real(n));
      SetQueue(s, px, q[..i] + q[i + 1..]);
      AdjustInside(s, px);
    }

    /** mod() with CANC: the order keeps its place and takes the displayed size. */
    method ResizeRealOrder(n: nat, s: Side, px: int, sz: int)
      requires Valid() && px > 0
      modifies this
      ensures Valid() && View() == ResizeReal(c, old(View()), n, s, px, sz)
    {
      hide Rewalk, Resize, Book.WithLev, Book.Lev, Find;
      if px >= c.maxPx { return; }
      var q := Queue(s, px);
      var i := Find(q, Real(n));
      if i == |q| { return; }
      if sz <= 0 { dead := true; return; }
      ResizeUpdates(q, Real(n), sz);
      SetQueue(s, px, q[..i] + [q[i].(sz := sz)] + q[i + 1..]);
      AdjustInside(s, px);
    }

    /** mod() with EXEC: fill our orders ahead of the head real order. */
    method ExecRealOrder(n: nat, s: Side, px: int, sz: int)
      requires Valid() && px > 0
      modifies this
      ensures Valid() && View() == ExecReal(c, old(View()), n, s, px, sz)
    {
      hide Rewalk, ExecLevel, Find, Book.WithLev, Book.Lev;
      if px >= c.maxPx { return; }
      var q := Queue(s, px);
      if Find(q, Real(n)) == |q| { return; }
      if sz <= 0 { dead := true; return; }
      var r, fills := ExecQueue(q, n, sz, px);
      SetQueue(s, px, r);
      notes := notes + fills;
      AdjustInside(s, px);
    }

    /** mod() with CANCD on an order of ours: acknowledged if it rests here, rejected if not. */
    method CancelSimOrder(n: nat, s: Side, px: nat)
      requires Valid()
      modifies this
      ensures Valid() && View() == CancelSim(c, old(View()), n, s, px)
    {
      hide Remove, Book.WithLev, Book.Lev, Find;
      if px >= c.maxPx { return; }
      var q := Queue(s, px);
      var i := Find(q, Sim(n));
      if i == |q| {
        notes := notes + [CancReject(n)];
      } else {
        RemoveSlices(q, Sim(n));
        SetQueue(s, px, q[..i] + q[i + 1..]);
        notes := notes + [CancAck(n, q[i].sz)];
      }
    }

    // ----- the record path

    /** process_market_data for a message of ours. */
    method ApplyOurs(m: SimMsg, ghost at: nat)
      requires Valid()
      modifies this
      ensures Valid() && View() == ApplySim(c, old(View()), m, at)
    {
      hide AddSim, CancelSim;
      applied := applied + [(m, at)];
      match m
      case SimAdd(n, s, px, sz, _) => AddSimOrder(n, s, px, sz);
      case SimCancel(n, s, px, _) => CancelSimOrder(n, s, px);
    }

    /** process_market_data for a real record: the boundary check, then the queues. */
    method ProcessMarketData(p: Payload, tim: nat)
      requires Valid() && p.px > 0
      modifies this
      ensures Valid() && View() == Market(c, old(View()), p, tim)
    {
      hide AddReal, CancelReal, ResizeReal, ExecReal;
      if dead { return; }
      if matching && xcheckTx != 0 && tim > xcheckTx && !c.repair && bestBid > bestAsk {
        dead := true;
        return;
      }
      if tim > xcheckTx { xcheckTx := tim; }
      match p
      case PAdd(n, x, s, px, sz) => AddRealOrder(n, x, s, px, sz);
      case PCancel(n, s, px) => CancelRealOrder(n, s, px);
      case PResize(n, s, px, sz) => ResizeRealOrder(n, s, px, sz);
      case PExec(n, s, px, sz) => ExecRealOrder(n, s, px, sz);
    }

    /** The scan of process_q: release our messages while the head is due. */
    method ScanDelayQueue(tim: nat)
      requires Valid()
      modifies this
      ensures Valid() && View() == Drain(c, old(View()), tim)
    {
      hide ApplySim;
      while !dead && delQ != [] && Due(c, delQ[0]) < tim
        invariant Valid() && Drain(c, View(), tim) == Drain(c, old(View()), tim)
        decreases |delQ|
      {
        var m := delQ[0];
        delQ := delQ[1..];
        ApplyOurs(m, tim);
      }
    }

    method ProcessQ(p: Payload, tim: nat)
      requires Valid()
      modifies this
      ensures Valid() && View() == Process(c, old(View()), p, tim)
    {
      hide Drain, Market;
      if dead || p.px <= 0 { return; }
      ScanDelayQueue(tim);
      ProcessMarketData(p, tim);
    }

    method AckAll()
      modifies this`notes
      ensures notes == old(notes) + LadderAcks(bidqs) + LadderAcks(askqs)
    {
      var bidAcks := AckLadder(bidqs);
      var askAcks := AckLadder(askqs);
      notes := notes + bidAcks + askAcks;
    }

    /** clear(): cancel everything, acknowledge our orders, reset the inside. */
    method ClearBook()
      requires Valid()
      modifies this
      ensures Valid() && View() == Clear(c, old(View()))
    {
      hide LadderAcks, Blank, At;
      AckAll();
      ordermap := map[];
      bidqs, askqs := Blank(|bidqs|), Blank(|askqs|);
      bestBid, bestAsk := 0, c.maxPx - 1;
    }

    // ----- data_handler

    method HandleNew(e: Event)
      requires Valid() && e.Record? && OnLadder(c, e.px)
      modifies this
      ensures Valid() && View() == OnNew(c, old(View()), e)
    {
      hide Process;
      if e.xoid in ordermap {
        if e.recovery && e.qty > 0 {
          if e.side.None? { dead := true; return; }
          ordermap := ordermap[e.xoid := Info(ordermap[e.xoid].id, e.px, e.qty, e.side.value)];
        }
        return;
      }
      if e.side.None? || e.qty == 0 { dead := true; return; }
      var n := bookoid;
      bookoid := bookoid + 1;
      ordermap := ordermap[e.xoid := Info(n, e.px, e.qty, e.side.value)];
      ProcessQ(PAdd(n, e.xoid, e.side.value, e.px, e.qty), e.tim);
    }

    method HandleChange(e: Event)
      requires Valid() && e.Record? && OnLadder(c, e.px)
      modifies this
      ensures Valid() && View() == OnChange(c, old(View()), e)
    {
      hide Process;
      if e.xoid !in ordermap { return; }
      var o := ordermap[e.xoid];
      if e.side.None? && e.qty > o.sz { dead := true; return; }
      if e.qty > o.sz || (e.side.Some? && e.px != o.px) {
        var s := if e.side.Some? then e.side.value else o.side;
        var px := if e.side.Some? then e.px else o.px;
        ProcessQ(PCancel(o.id, o.side, o.px), e.tim);
        var n := bookoid;
        bookoid := bookoid + 1;
        ProcessQ(PAdd(n, e.xoid, s, px, e.qty), e.tim);
        if s != o.side { dead := true; return; }
        ordermap := ordermap[e.xoid := Info(n, px, e.qty, o.side)];
      } else {
        ordermap := ordermap[e.xoid := o.(sz := e.qty)];
        ProcessQ(PResize(o.id, o.side, o.px, e.qty), e.tim);
      }
    }

    method HandleDelete(e: Event)
      requires Valid() && e.Record?
      modifies this
      ensures Valid() && View() == OnDelete(c, old(View()), e)
    {
      hide Process;
      if e.xoid !in ordermap { return; }
      var o := ordermap[e.xoid];
      ProcessQ(PCancel(o.id, o.side, o.px), e.tim);
      ordermap := ordermap - {e.xoid};
    }

    method HandleRecord(e: Event)
      requires Valid() && e.Record?
      modifies this
      ensures Valid() && View() == OnRecord(c, old(View()), e)
    {
      hide OnNew, OnChange, OnDelete, Clear;
      if !OnLadder(c, e.px) && e.action.New? { return; }
      if e.recovery && !inRecovery { ClearBook(); inRecovery := true; }
      else if !e.recovery { inRecovery := false; }
      if e.recovery && !e.action.New? { dead := true; return; }
      if e.action.New? { HandleNew(e); }
      else if e.action.Change? && OnLadder(c, e.px) { HandleChange(e); }
      else { HandleDelete(e); }
    }

    /** The book's message handler: one event, one step. */
    method Handle(e: Event)
      requires Valid()
      modifies this
      ensures Valid() && View() == Step(c, old(View()), e)
    {
      hide OnRecord, Process, Clear, ApplySim;
      if dead { return; }
      match e
      case Record(_, _, _, _, _, _, _) => HandleRecord(e);
      case Exec(n, s, px, sz, tim) => ProcessQ(PExec(n, s, px, sz), tim);
      case ChannelReset => ClearBook();
      case Status(on) => matching := on;
      case FromUs(m) =>
        if m.ts0 == 0 {
          if delQ != [] { dead := true; } else { ApplyOurs(m, 0); }
        } else {
          delQ := delQ + [m];
        }
    }
  }
}
