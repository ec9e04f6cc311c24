/**
  What every record keeps: `ordermap`, the level queues and the walked inside prices
  stay in step.

  The invariant speaks of real orders only, so it is proved on books that hold nothing
  of ours and carried to full runs by non-interference.
 */
module BookIndex {
  import opened Levels
  import opened Book
  import opened NonInterference
  import opened BookPrices

  // ----- the invariant

  /** Every resting order is the one `om` describes. */
  ghost predicate Listed(b: Book, om: map<nat, Info>) {
    forall s, p, o :: o in b.Lev(s, p) ==> o.xoid in om && om[o.xoid] == Info(o.id.n, p, o.sz, s)
  }

  /** Every entry of `om` describes an order that rests. */
  ghost predicate Complete(b: Book, om: map<nat, Info>) {
    forall x :: x in om ==> Order(Real(om[x].id), x, om[x].sz) in b.Lev(om[x].side, om[x].px)
  }

  /** Entries have distinct book ids below `top` and prices on the ladder. */
  ghost predicate Entries(c: Config, om: map<nat, Info>, top: nat) {
    && (forall x :: x in om ==> om[x].id < top && OnLadder(c, om[x].px))
    && (forall x, y :: x in om && y in om && om[x].id == om[y].id ==> x == y)
  }

  /** The whole invariant; simulation never drops a real order, so there the index is exact. */
  ghost predicate Good(c: Config, b: Book) {
    && Bare(b) && Prices(c, b) && Fifo(b)
    && Listed(b, b.orders) && Entries(c, b.orders, b.nextId)
    && (!c.repair ==> Complete(b, b.orders))
  }

  // ----- an arriving order

  /** The arriving order joins the back of its queue, and the index gains exactly its entry. */
  lemma AddIndex(c: Config, b: Book, n: nat, x: nat, s: Side, px: int, sz: int, om: map<nat, Info>)
    requires Bare(b) && Shape(c, b) && OnLadder(c, px) && sz > 0
    requires Fifo(b) && Listed(b, om) && Entries(c, om, n) && x !in om
    ensures var r := AddReal(c, b, n, x, s, px, sz);
            var om' := om[x := Info(n, px, sz, s)];
            && Bare(r) && Fifo(r) && Listed(r, om') && Entries(c, om', n + 1)
            && (!c.repair && Complete(b, om) ==> Complete(r, om'))
  {
    hide AddReal, HasReal, Book.Lev, SweepRange, Bare, Fifo, Listed, Entries, Complete, Shape;
    AddFacts(c, b, n, x, s, px, sz);
    var r, o := AddReal(c, b, n, x, s, px, sz), Order(Real(n), x, sz);
    AddQueues(c, b, r, n, s, px, o, om);
    AddListed(c, b, r, s, px, o, om);
    EntriesNext(c, om, n, x, Info(n, px, sz, s));
    if !c.repair && Complete(b, om) { AddComplete(c, b, r, s, px, o, om); }
  }

  /** `r` is `b` with `o` at the back of a queue of side `s`, and perhaps levels of the other side emptied. */
  ghost predicate Joined(c: Config, b: Book, r: Book, s: Side, px: int, o: Order) {
    forall t, k :: if t == s then r.Lev(t, k) == if k == px then b.Lev(t, k) + [o] else b.Lev(t, k)
                   else r.Lev(t, k) == b.Lev(t, k) || (c.repair && r.Lev(t, k) == [])
  }

  lemma AddQueues(c: Config, b: Book, r: Book, n: nat, s: Side, px: int, o: Order, om: map<nat, Info>)
    requires Bare(b) && Fifo(b) && Listed(b, om) && Entries(c, om, n) && Joined(c, b, r, s, px, o)
    requires o.id == Real(n) && o.sz > 0 && r.delQ == b.delQ
    ensures Bare(r) && Fifo(r)
  {
    hide Book.Lev, Sorted, RealOnly, Positive;
    AppendLevel(b.Lev(s, px), o);
    EmptyLevel();
  }

  lemma AddListed(c: Config, b: Book, r: Book, s: Side, px: int, o: Order, om: map<nat, Info>)
    requires Listed(b, om) && Joined(c, b, r, s, px, o) && o.xoid !in om && o.id.Real?
    ensures Listed(r, om[o.xoid := Info(o.id.n, px, o.sz, s)])
  {
    hide Book.Lev;
    forall t, k, u | u in r.Lev(t, k) ensures u in b.Lev(t, k) || (t == s && k == px && u == o) {}
  }

  lemma EntriesNext(c: Config, om: map<nat, Info>, n: nat, x: nat, i: Info)
    requires Entries(c, om, n) && x !in om && i.id == n && OnLadder(c, i.px)
    ensures Entries(c, om[x := i], n + 1)
  {}

  lemma AddComplete(c: Config, b: Book, r: Book, s: Side, px: int, o: Order, om: map<nat, Info>)
    requires !c.repair && Complete(b, om) && Joined(c, b, r, s, px, o) && o.xoid !in om && o.id.Real?
    ensures Complete(r, om[o.xoid := Info(o.id.n, px, o.sz, s)])
  {
    hide Book.Lev;
    forall t, k, u | u in b.Lev(t, k) ensures u in r.Lev(t, k) {}
    assert o in r.Lev(s, px);
  }

  // ----- an edit of one level, followed by the inside walk

  /** Cancelling the order of an entry removes that order and no other. */
  lemma CancelIndex(c: Config, b: Book, x: nat, om: map<nat, Info>, top: nat)
    requires Bare(b) && Shape(c, b) && Fifo(b) && Listed(b, om) && Entries(c, om, top) && x in om
    ensures var r := CancelReal(c, b, om[x].id, om[x].side, om[x].px);
            && Bare(r) && Fifo(r) && Listed(r, om - {x}) && Entries(c, om - {x}, top)
            && (Complete(b, om) ==> Complete(r, om - {x}))
  {
    hide HasReal, WalkDown, WalkUp, Rewalk, Sorted, Remove, Positive;
    var e := om[x];
    var q := b.Lev(e.side, e.px);
    var q' := Remove(q, Real(e.id));
    RemoveLevel(q, Real(e.id));
    EditLevels(b, e.side, e.px, q');
    RewalkLevels(c, b.WithLev(e.side, e.px, q'), e.side, e.px);
    if !Holds(q, Real(e.id)) { RemoveAbsent(q, Real(e.id)); }
    var r := CancelReal(c, b, e.id, e.side, e.px);
    assert forall t, k :: r.Lev(t, k) == if t == e.side && k == e.px then q' else b.Lev(t, k);
    RestListed(b, r, x, om, top);
  }

  lemma RestListed(b: Book, r: Book, x: nat, om: map<nat, Info>, top: nat)
    requires Bare(b) && Listed(b, om) && x in om
    requires forall y, z :: y in om && z in om && om[y].id == om[z].id ==> y == z
    requires forall t, p, o :: o in r.Lev(t, p) <==>
               o in b.Lev(t, p) && !(t == om[x].side && p == om[x].px && o.id == Real(om[x].id))
    ensures Listed(r, om - {x})
    ensures Complete(b, om) ==> Complete(r, om - {x})
  {
    hide Book.Lev;
    forall t, p, o | o in r.Lev(t, p) ensures o.xoid != x {
      assert RealOnly(b.Lev(t, p));
    }
  }

  /** A smaller size changes the entry and the order alike; the order keeps its place. */
  lemma ResizeIndex(c: Config, b: Book, x: nat, sz: int, om: map<nat, Info>, top: nat)
    requires Bare(b) && Shape(c, b) && Fifo(b) && Listed(b, om) && Entries(c, om, top) && x in om
    requires sz > 0 || !Holds(b.Lev(om[x].side, om[x].px), Real(om[x].id))
    ensures var r := ResizeReal(c, b, om[x].id, om[x].side, om[x].px, sz);
            var om' := om[x := om[x].(sz := sz)];
            && Bare(r) && Fifo(r) && Listed(r, om') && Entries(c, om', top)
            && (Complete(b, om) ==> Complete(r, om'))
  {
    hide HasReal, WalkDown, WalkUp, Rewalk, Sorted, Resize, Positive;
    var e := om[x];
    var q := b.Lev(e.side, e.px);
    if Holds(q, Real(e.id)) {
      var r := ResizeReal(c, b, e.id, e.side, e.px, sz);
      ResizeFacts(c, b, e.id, e.side, e.px, sz);
      hide ResizeReal, Book.Lev, Find;
      ResizeLevel(q, Real(e.id), sz);
      OwnerOf(b, q[Find(q, Real(e.id))], x, om);
      ResizedListed(b, r, x, sz, om);
    } else {
      AbsentListed(b, x, sz, om);
    }
  }

  lemma OwnerOf(b: Book, o: Order, x: nat, om: map<nat, Info>)
    requires x in om && Listed(b, om) && o.id == Real(om[x].id) && o in b.Lev(om[x].side, om[x].px)
    requires forall y, z :: y in om && z in om && om[y].id == om[z].id ==> y == z
    ensures o == Order(Real(om[x].id), x, om[x].sz)
  {}

  lemma ResizedListed(b: Book, r: Book, x: nat, sz: int, om: map<nat, Info>)
    requires Bare(b) && Listed(b, om) && x in om
    requires forall y, z :: y in om && z in om && om[y].id == om[z].id ==> y == z
    requires forall t, p, o :: o in r.Lev(t, p) <==>
               if t == om[x].side && p == om[x].px
               then (o in b.Lev(t, p) && o.id != Real(om[x].id)) || o == Order(Real(om[x].id), x, sz)
               else o in b.Lev(t, p)
    ensures Listed(r, om[x := om[x].(sz := sz)])
    ensures Complete(b, om) ==> Complete(r, om[x := om[x].(sz := sz)])
  {
    hide Book.Lev;
    forall t, p, o | o in r.Lev(t, p) && o != Order(Real(om[x].id), x, sz) ensures o.xoid != x {
      assert RealOnly(b.Lev(t, p));
    }
  }

  lemma AbsentListed(b: Book, x: nat, sz: int, om: map<nat, Info>)
    requires Bare(b) && Listed(b, om) && x in om
    requires !Holds(b.Lev(om[x].side, om[x].px), Real(om[x].id))
    ensures Listed(b, om[x := om[x].(sz := sz)])
    ensures !Complete(b, om)
  {
    var q := b.Lev(om[x].side, om[x].px);
    assert forall o :: o in q ==> o.id != Real(om[x].id);
    forall t, p, o | o in b.Lev(t, p) ensures o.xoid != x {
      assert RealOnly(b.Lev(t, p));
    }
  }

  // ----- whole records

  /** Everything the invariant says of queues and prices depends on the queues and prices alone. */
  lemma SameQueues(c: Config, b: Book, r: Book, om: map<nat, Info>)
    requires r.bids == b.bids && r.asks == b.asks && r.bestBid == b.bestBid && r.bestAsk == b.bestAsk
    requires r.delQ == b.delQ
    ensures forall t, k :: r.Lev(t, k) == b.Lev(t, k)
    ensures Bare(b) <==> Bare(r)
    ensures Prices(c, b) <==> Prices(c, r)
    ensures Fifo(b) <==> Fifo(r)
    ensures Listed(b, om) <==> Listed(r, om)
    ensures Complete(b, om) <==> Complete(r, om)
  {
    hide HasReal, Sorted, RealOnly, Positive;
    assert forall t, k :: r.Lev(t, k) == b.Lev(t, k);
  }

  lemma GoodResize(c: Config, b: Book, e: Event)
    requires Good(c, b) && e.Record? && e.xoid in b.orders && !Replaces(b.orders[e.xoid], e)
    requires !OnChange(c, b, e).dead
    ensures Good(c, OnChange(c, b, e))
  {
    hide ResizeReal, Process, HasReal, Book.Lev;
    var o := b.orders[e.xoid];
    var b1 := b.(orders := b.orders[e.xoid := o.(sz := e.qty)]);
    var b2 := b1.(boundary := Max(b1.boundary, e.tim));
    ProcessBare(c, b1, PResize(o.id, o.side, o.px, e.qty), e.tim);
    SameQueues(c, b, b2, b.orders);
    LivesWithSize(c, b2, o.id, o.side, o.px, e.qty);
    ResizeIndex(c, b2, e.xoid, e.qty, b.orders, b.nextId);
    ResizePrices(c, b2, o.id, o.side, o.px, e.qty);
  }

  /** The invariant with one entry of the map left out. */
  ghost predicate GoodFor(c: Config, b: Book, om: map<nat, Info>, top: nat) {
    && Bare(b) && Prices(c, b) && Fifo(b)
    && Listed(b, om) && Entries(c, om, top)
    && (!c.repair ==> Complete(b, om))
  }

  lemma CancelGood(c: Config, b: Book, x: nat, om: map<nat, Info>, top: nat, tim: nat)
    requires GoodFor(c, b, om, top) && x in om
    requires !Process(c, b, PCancel(om[x].id, om[x].side, om[x].px), tim).dead
    ensures GoodFor(c, Process(c, b, PCancel(om[x].id, om[x].side, om[x].px), tim), om - {x}, top)
    ensures Process(c, b, PCancel(om[x].id, om[x].side, om[x].px), tim).nextId == b.nextId
    ensures Process(c, b, PCancel(om[x].id, om[x].side, om[x].px), tim).orders == b.orders
  {
    hide CancelReal, Process, HasReal, Book.Lev;
    var o := om[x];
    ProcessBare(c, b, PCancel(o.id, o.side, o.px), tim);
    var b2 := b.(boundary := Max(b.boundary, tim));
    SameQueues(c, b, b2, om);
    CancelIndex(c, b2, x, om, top);
    CancelPrices(c, b2, o.id, o.side, o.px);
  }

  lemma AddGood(c: Config, b: Book, n: nat, x: nat, s: Side, px: int, sz: int, om: map<nat, Info>, tim: nat)
    requires GoodFor(c, b, om, n) && x !in om && OnLadder(c, px)
    requires !Process(c, b, PAdd(n, x, s, px, sz), tim).dead
    ensures GoodFor(c, Process(c, b, PAdd(n, x, s, px, sz), tim), om[x := Info(n, px, sz, s)], n + 1)
    ensures Process(c, b, PAdd(n, x, s, px, sz), tim).nextId == b.nextId
    ensures Process(c, b, PAdd(n, x, s, px, sz), tim).orders == b.orders
  {
    hide AddReal, Process, HasReal, Book.Lev;
    ProcessBare(c, b, PAdd(n, x, s, px, sz), tim);
    var b2 := b.(boundary := Max(b.boundary, tim));
    SameQueues(c, b, b2, om);
    AddLives(c, b2, n, x, s, px, sz);
    AddIndex(c, b2, n, x, s, px, sz, om);
    if s.Buy? { AddBuyPrices(c, b2, n, x, px, sz); } else { AddSellPrices(c, b2, n, x, px, sz); }
  }

  lemma SameGood(c: Config, b: Book, r: Book, om: map<nat, Info>, top: nat)
    requires r.bids == b.bids && r.asks == b.asks && r.bestBid == b.bestBid && r.bestAsk == b.bestAsk
    requires r.delQ == b.delQ && GoodFor(c, b, om, top)
    ensures GoodFor(c, r, om, top)
  {
    hide Prices, Fifo, Listed, Complete, Entries, Bare;
    SameQueues(c, b, r, om);
  }

  /** The order an entry describes is in its queue. */
  predicate Rests(b: Book, x: nat)
    requires x in b.orders
  {
    var o := b.orders[x];
    Order(Real(o.id), x, o.sz) in b.Lev(o.side, o.px)
  }

  /** The record names a resting order and gives it another price, size or side. */
  predicate Mismatch(b: Book, e: Event) {
    && e.Record? && e.qty > 0 && e.side.Some? && e.xoid in b.orders && Rests(b, e.xoid)
    && b.orders[e.xoid] != Info(b.orders[e.xoid].id, e.px, e.qty, e.side.value)
  }

  lemma NotHeld(b: Book, e: Event)
    requires e.Record? && e.xoid !in b.orders
    ensures !Mismatch(b, e)
  {}

  /** A record for an order already held changes at most its entry. */
  lemma GoodResend(c: Config, b: Book, e: Event)
    requires Good(c, b) && e.Record? && OnLadder(c, e.px) && !OnNew(c, b, e).dead && e.xoid in b.orders
    ensures Good(c, OnNew(c, b, e)) <==> !(e.recovery && Mismatch(b, e))
  {
    hide Prices, Fifo, Book.Lev, Process;
    var r, o := OnNew(c, b, e), b.orders[e.xoid];
    if e.recovery && e.qty > 0 {
      var i := Info(o.id, e.px, e.qty, e.side.value);
      SameQueues(c, b, r, b.orders);
      if i == o {
        assert r.orders == b.orders;
      } else if Rests(b, e.xoid) {
        assert Order(Real(o.id), e.xoid, o.sz) in r.Lev(o.side, o.px);
      } else {
        StaleEntry(c, b, r, e.xoid);
      }
    }
  }

  /** The entry of an order that rests nowhere may say anything on the ladder. */
  lemma StaleEntry(c: Config, b: Book, r: Book, x: nat)
    requires Good(c, b) && x in b.orders && !Rests(b, x)
    requires x in r.orders && r == b.(orders := b.orders[x := r.orders[x]])
    requires r.orders[x].id == b.orders[x].id && OnLadder(c, r.orders[x].px)
    ensures Good(c, r)
  {
    hide Prices, Fifo, Book.Lev;
    SameQueues(c, b, r, b.orders);
    forall s, p, o | o in r.Lev(s, p) ensures o.xoid in r.orders && r.orders[o.xoid] == Info(o.id.n, p, o.sz, s) {
      assert o in b.Lev(s, p) && b.orders[o.xoid] == Info(o.id.n, p, o.sz, s);
      assert RealOnly(b.Lev(s, p)) && !o.IsSim();
      assert o == Order(Real(o.id.n), o.xoid, o.sz);
    }
  }

  lemma GoodNew(c: Config, b: Book, e: Event)
    requires Good(c, b) && e.Record? && OnLadder(c, e.px) && !OnNew(c, b, e).dead
    ensures Good(c, OnNew(c, b, e)) <==> !(e.recovery && Mismatch(b, e))
  {
    hide Process, Prices, Fifo, Listed, Complete, Bare, Mismatch;
    if e.xoid in b.orders {
      GoodResend(c, b, e);
    } else {
      assert !Mismatch(b, e) by { NotHeld(b, e); }
      var s := e.side.value;
      var b1 := b.(orders := b.orders[e.xoid := Info(b.nextId, e.px, e.qty, s)], nextId := b.nextId + 1);
      SameGood(c, b, b1, b.orders, b.nextId);
      AddGood(c, b1, b.nextId, e.xoid, s, e.px, e.qty, b.orders, e.tim);
    }
  }

  lemma GoodDelete(c: Config, b: Book, e: Event)
    requires Good(c, b) && e.Record? && !OnDelete(c, b, e).dead
    ensures Good(c, OnDelete(c, b, e))
  {
    hide Process, Prices, Fifo, Listed, Complete, Bare;
    if e.xoid in b.orders {
      var o := b.orders[e.xoid];
      CancelGood(c, b, e.xoid, b.orders, b.nextId, e.tim);
      var r := Process(c, b, PCancel(o.id, o.side, o.px), e.tim);
      SameGood(c, r, r.(orders := r.orders - {e.xoid}), b.orders - {e.xoid}, b.nextId);
    }
  }

  lemma GoodReplace(c: Config, b: Book, e: Event)
    requires Good(c, b) && e.Record? && e.xoid in b.orders && Replaces(b.orders[e.xoid], e)
    requires OnLadder(c, e.px) && !OnChange(c, b, e).dead
    ensures Good(c, OnChange(c, b, e))
  {
    hide Process, Prices, Fifo, Listed, Complete, Bare;
    var x, o := e.xoid, b.orders[e.xoid];
    var px := if e.side.Some? then e.px else o.px;
    var r1 := Process(c, b, PCancel(o.id, o.side, o.px), e.tim);
    var n := r1.nextId;
    var i1 := r1.(nextId := n + 1);
    var p2 := PAdd(n, x, o.side, px, e.qty);
    ProcessStaysDead(c, i1, p2, e.tim);
    CancelGood(c, b, x, b.orders, b.nextId, e.tim);
    SameGood(c, r1, i1, b.orders - {x}, n);
    AddGood(c, i1, n, x, o.side, px, e.qty, b.orders - {x}, e.tim);
    var om := b.orders[x := Info(n, px, e.qty, o.side)];
    assert (b.orders - {x})[x := Info(n, px, e.qty, o.side)] == om;
    var r2 := Process(c, i1, p2, e.tim);
    SameGood(c, r2, r2.(orders := om), om, n + 1);
  }

  lemma GoodClear(c: Config, b: Book)
    requires c.maxPx >= 2 && |b.bids| == c.maxPx + 2 && |b.asks| == c.maxPx + 2 && b.delQ == []
    ensures Good(c, Clear(c, b))
  {
    var r := Clear(c, b);
    assert forall s, p :: r.Lev(s, p) == [];
  }

  /** One real event keeps the invariant, exactly unless it is a snapshot that contradicts a held order. */
  lemma GoodStep(c: Config, b: Book, e: Event)
    requires Good(c, b) && !e.FromUs? && !Step(c, b, e).dead
    ensures Good(c, Step(c, b, e)) <==> !Contradicts(c, b, e)
  {
    hide OnNew, OnChange, OnDelete, Book.Lev, Clear, Process, ExecReal, Mismatch;
    match e
    case Record(_, _, _, _, _, _, _) =>
      if OnLadder(c, e.px) || !e.action.New? {
        var b1 := Recover(c, b, e.recovery);
        GoodRecover(c, b, e.recovery);
        if e.action.New? {
          if e.recovery { SameMismatch(c, b, e); }
          GoodNew(c, b1, e);
        } else if e.action.Change? && OnLadder(c, e.px) {
          GoodChange(c, b1, e);
        } else {
          GoodDelete(c, b1, e);
        }
      }
    case Exec(n, s, px, sz, tim) => GoodExec(c, b, PExec(n, s, px, sz), tim);
    case ChannelReset => GoodClear(c, b);
    case Status(on) => SameQueues(c, b, b.(matching := on), b.orders);
    case FromUs(_) =>
  }

  /** A snapshot re-sends an order the book still holds, with another price, size or side. */
  predicate Contradicts(c: Config, b: Book, e: Event) {
    e.Record? && e.action.New? && OnLadder(c, e.px) && e.recovery && b.inRecovery && Mismatch(b, e)
  }

  lemma SameMismatch(c: Config, b: Book, e: Event)
    requires e.Record? && e.recovery
    ensures Mismatch(Recover(c, b, e.recovery), e) <==> b.inRecovery && Mismatch(b, e)
  {}

  lemma GoodRecover(c: Config, b: Book, recovery: bool)
    requires Good(c, b)
    ensures Good(c, Recover(c, b, recovery))
  {
    hide Clear, Book.Lev;
    GoodClear(c, b);
    SameQueues(c, b, b.(inRecovery := false), b.orders);
    SameQueues(c, Clear(c, b), Clear(c, b).(inRecovery := true), Clear(c, b).orders);
  }

  lemma GoodChange(c: Config, b: Book, e: Event)
    requires Good(c, b) && e.Record? && OnLadder(c, e.px) && !OnChange(c, b, e).dead
    ensures Good(c, OnChange(c, b, e))
  {
    hide Process, Good;
    if e.xoid in b.orders {
      if Replaces(b.orders[e.xoid], e) { GoodReplace(c, b, e); } else { GoodResize(c, b, e); }
    }
  }

  lemma GoodExec(c: Config, b: Book, p: Payload, tim: nat)
    requires Good(c, b) && p.PExec? && !Process(c, b, p, tim).dead
    ensures Good(c, Process(c, b, p, tim))
  {
    hide ExecReal, Book.Lev, HasReal;
    if p.px > 0 {
      ProcessBare(c, b, p, tim);
      var b2 := b.(boundary := Max(b.boundary, tim));
      SameQueues(c, b, b2, b.orders);
      if p.sz > 0 { ExecNothing(c, b2, p.n, p.side, p.px, p.sz); }
      else { ExecRefuses(c, b2, p.n, p.side, p.px, p.sz); }
    }
  }

  // ----- whole runs

  /** No snapshot of the run contradicts an order the book still holds. */
  predicate CleanFeed(c: Config, b: Book, es: seq<Event>) {
    es == [] ||
    (CleanFeed(c, b, es[..|es| - 1]) && !Contradicts(c, Run(c, b, es[..|es| - 1]), es[|es| - 1]))
  }

  lemma ContradictsErased(c: Config, b: Book, e: Event)
    ensures Contradicts(c, Erase(b), e) == Contradicts(c, b, e)
  {
    hide RealPart, HasReal;
    ErasedLevels(b);
    if e.Record? && e.xoid in b.orders {
      var o := b.orders[e.xoid];
      assert !Order(Real(o.id), e.xoid, o.sz).IsSim();
      assert Rests(Erase(b), e.xoid) <==> Rests(b, e.xoid);
    }
  }

  lemma GoodErasedStep(c: Config, b: Book, e: Event)
    requires Good(c, Erase(b)) && !Step(c, b, e).dead && !Contradicts(c, b, e)
    ensures Good(c, Erase(Step(c, b, e)))
  {
    hide Good, Step, Erase, Contradicts;
    EraseStep(c, b, e);
    if !e.FromUs? {
      ContradictsErased(c, b, e);
      assert !Step(c, Erase(b), e).dead by { ErasedDead(Step(c, b, e)); }
      GoodStep(c, Erase(b), e);
    }
  }

  lemma {:induction false} GoodRun(c: Config, b: Book, es: seq<Event>)
    requires Good(c, Erase(b)) && !Run(c, b, es).dead && CleanFeed(c, b, es)
    ensures Good(c, Erase(Run(c, b, es)))
  {
    hide Good, Step, Erase, Contradicts;
    if es != [] {
      var b1 := Run(c, b, es[..|es| - 1]);
      StepStaysDead(c, b1, es[|es| - 1]);
      GoodRun(c, b, es[..|es| - 1]);
      GoodErasedStep(c, b1, es[|es| - 1]);
    }
  }

  lemma GoodInit(c: Config)
    requires c.maxPx >= 2
    ensures Good(c, Erase(Init(c)))
  {
    var r := Erase(Init(c));
    assert forall s, p :: r.Lev(s, p) == [];
  }

  /**
    After every run from the empty book, in both modes: real orders rest on the ladder, within the
    walked inside prices, which hold a real order or stand at their stop, and real book ids grow
    along every queue. If no snapshot contradicted a resting order, every resting real order is
    described by its entry, in simulation exactly.
   */
  lemma BookInvariant(c: Config, es: seq<Event>)
    requires c.maxPx >= 2 && !Run(c, Init(c), es).dead
    ensures var b := Run(c, Init(c), es);
            && OnRungs(c, b) && Bounded(b) && Inside(c, b)
            && (forall s, p :: Sorted(RealPart(b.Lev(s, p))))
            && (CleanFeed(c, Init(c), es) ==>
                  && (forall s, p, o :: o in b.Lev(s, p) && !o.IsSim() ==>
                        o.xoid in b.orders && b.orders[o.xoid] == Info(o.id.n, p, o.sz, s))
                  && (!c.repair ==> Complete(b, b.orders)))
  {
    hide Run, HasReal, Sorted, CleanFeed, OnRungs, Bounded, Inside;
    PricesInvariant(c, es);
    if CleanFeed(c, Init(c), es) {
      var b := Run(c, Init(c), es);
      GoodInit(c);
      GoodRun(c, Init(c), es);
      var r := Erase(b);
      ErasedLevels(b);
      assert r.orders == b.orders;
      hide Erase, RealPart, Book.Lev;
    }
  }
}
