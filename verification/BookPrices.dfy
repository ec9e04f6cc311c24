/**
  The ladders themselves, without `ordermap`: after every event of every run real orders rest on
  prices the ladder can trade at and within the walked inside prices, queues keep their order, and
  in live trading the book is never left crossed.

  The invariant speaks of real orders only, so it is proved on books that hold nothing of ours and
  carried to full runs by non-interference.
 */
module BookPrices {
  import opened Levels
  import opened Book
  import opened NonInterference

  predicate RealOnly(q: Level) { forall o :: o in q ==> !o.IsSim() }

  predicate Positive(q: Level) { forall o :: o in q ==> o.sz > 0 }

  predicate Sorted(q: Level) { forall i, j :: 0 <= i < j < |q| ==> q[i].id.n < q[j].id.n }

  ghost predicate Bare(b: Book) {
    b.delQ == [] && forall s, p :: RealOnly(b.Lev(s, p))
  }

  // ----- the invariant

  ghost predicate Shape(c: Config, b: Book) {
    && c.maxPx >= 2 && |b.bids| == c.maxPx + 2 && |b.asks| == c.maxPx + 2
    && 0 <= b.bestBid < c.maxPx && 1 <= b.bestAsk <= c.maxPx + 1
  }

  /** Real orders rest only on prices the ladder can trade at. */
  ghost predicate OnRungs(c: Config, b: Book) {
    forall s, p :: HasReal(b.Lev(s, p)) ==> OnLadder(c, p)
  }

  /** No real bid above the best bid, no real ask below the best ask. */
  ghost predicate Bounded(b: Book) {
    && (forall p :: p > b.bestBid ==> !HasReal(b.Lev(Buy, p)))
    && (forall p :: p < b.bestAsk ==> !HasReal(b.Lev(Sell, p)))
  }

  /** Each inside price holds a real order or stands at its stop. */
  ghost predicate Inside(c: Config, b: Book) {
    && (HasReal(b.Lev(Buy, b.bestBid)) || b.bestBid <= 1)
    && (HasReal(b.Lev(Sell, b.bestAsk)) || b.bestAsk >= c.maxPx - 1)
  }

  ghost predicate Uncrossed(b: Book) {
    forall p, q :: HasReal(b.Lev(Buy, p)) && HasReal(b.Lev(Sell, q)) ==> p < q
  }

  ghost predicate Prices(c: Config, b: Book) {
    Shape(c, b) && OnRungs(c, b) && Bounded(b) && Inside(c, b) && (c.repair ==> Uncrossed(b))
  }

  /** Book ids grow along every queue, so no order ever overtakes another, and sizes are positive. */
  ghost predicate Fifo(b: Book) {
    forall s, p :: Sorted(b.Lev(s, p)) && Positive(b.Lev(s, p))
  }

  // ----- small facts

  lemma {:induction false} RealOnlyIsRealPart(q: Level)
    requires RealOnly(q)
    ensures RealPart(q) == q
  {
    if q != [] {
      assert RealOnly(q[1..]);
      RealOnlyIsRealPart(q[1..]);
    }
  }

  lemma AppendHasReal(q: Level, o: Order)
    requires !o.IsSim()
    ensures HasReal(q + [o])
  {
    assert (q + [o])[|q|] == o;
  }

  lemma BareDrain(c: Config, b: Book, tim: nat)
    requires b.delQ == []
    ensures Drain(c, b, tim) == b
  {}

  // ----- an arriving order

  /** The levels and inside prices after an accepted real order, on a book without sim orders. */
  lemma AddFacts(c: Config, b: Book, n: nat, x: nat, s: Side, px: int, sz: int)
    requires Bare(b) && Shape(c, b) && OnLadder(c, px) && sz > 0
    ensures var r := AddReal(c, b, n, x, s, px, sz);
            var (lo, hi) := SweepRange(c, b, s, px);
            && r.dead == b.dead && |r.bids| == |b.bids| && |r.asks| == |b.asks|
            && (forall t, k :: r.Lev(t, k) ==
                               if t == s then
                                 (if k == px then b.Lev(t, k) + [Order(Real(n), x, sz)] else b.Lev(t, k))
                               else if c.repair && lo <= k <= hi then [] else b.Lev(t, k))
  {
    var (lo, hi) := SweepRange(c, b, s, px);
    var l := b.Lad(Other(s));
    hide HasReal, NotesUp, NotesDown, WalkUp, WalkDown, RealPart;
    forall k ensures At(Swept(l, lo, hi, c.repair), k) ==
                     if c.repair && lo <= k <= hi then [] else At(l, k)
    {
      assert RealOnly(b.Lev(Other(s), k));
      RealOnlyIsRealPart(At(l, k));
    }
  }

  lemma AddBests(c: Config, b: Book, n: nat, x: nat, s: Side, px: int, sz: int)
    requires Bare(b) && Shape(c, b) && OnLadder(c, px) && sz > 0
    ensures var r := AddReal(c, b, n, x, s, px, sz);
            if s.Buy? then
              && r.bestBid == Max(b.bestBid, px)
              && r.bestAsk == if c.repair && (Uncrosses(c, b, s, px) || r.bestBid >= b.bestAsk)
                              then WalkUp(r.asks, b.bestAsk, |r.asks| - 1) else b.bestAsk
            else
              && r.bestAsk == Min(b.bestAsk, px)
              && r.bestBid == if c.repair && (Uncrosses(c, b, s, px) || b.bestBid >= r.bestAsk)
                              then WalkDown(r.bids, b.bestBid) else b.bestBid
  {
    hide Swept, HasReal, NotesUp, NotesDown;
  }

  /** Where real orders rest after the arrival. */
  lemma AddReals(c: Config, b: Book, n: nat, x: nat, s: Side, px: int, sz: int)
    requires Bare(b) && Shape(c, b) && OnLadder(c, px) && sz > 0
    ensures var r := AddReal(c, b, n, x, s, px, sz);
            var (lo, hi) := SweepRange(c, b, s, px);
            forall t, k :: HasReal(r.Lev(t, k)) <==>
                           if t == s then k == px || HasReal(b.Lev(t, k))
                           else HasReal(b.Lev(t, k)) && !(c.repair && lo <= k <= hi)
  {
    hide AddReal;
    AddFacts(c, b, n, x, s, px, sz);
    AppendHasReal(b.Lev(s, px), Order(Real(n), x, sz));
  }

  lemma AddBuyPrices(c: Config, b: Book, n: nat, x: nat, px: int, sz: int)
    requires Bare(b) && Prices(c, b) && OnLadder(c, px) && sz > 0
    ensures Prices(c, AddReal(c, b, n, x, Buy, px, sz))
  {
    hide AddReal, HasReal, WalkDown, WalkUp, Bare;
    AddReals(c, b, n, x, Buy, px, sz);
    AddBests(c, b, n, x, Buy, px, sz);
    var r := AddReal(c, b, n, x, Buy, px, sz);
    assert r.Lad(Sell) == r.asks;
    // the sweep reaches down to the lower inside price, below which no real ask rests
    assert c.repair ==> forall k :: k <= px ==> !HasReal(r.Lev(Sell, k));
    assert OnRungs(c, r);
    assert forall k :: k < b.bestAsk ==> !HasReal(r.Lev(Sell, k));
    assert Bounded(r);
  }

  lemma AddSellPrices(c: Config, b: Book, n: nat, x: nat, px: int, sz: int)
    requires Bare(b) && Prices(c, b) && OnLadder(c, px) && sz > 0
    ensures Prices(c, AddReal(c, b, n, x, Sell, px, sz))
  {
    hide AddReal, HasReal, WalkDown, WalkUp, Bare;
    AddReals(c, b, n, x, Sell, px, sz);
    AddBests(c, b, n, x, Sell, px, sz);
    var r := AddReal(c, b, n, x, Sell, px, sz);
    assert r.Lad(Buy) == r.bids;
    assert c.repair ==> forall k :: k >= px ==> !HasReal(r.Lev(Buy, k));
    assert OnRungs(c, r);
    assert forall k :: k > b.bestBid ==> !HasReal(r.Lev(Buy, k));
    assert Bounded(r);
  }

  lemma AppendLevel(q: Level, o: Order)
    requires Sorted(q) && RealOnly(q) && Positive(q)
    requires !o.IsSim() && o.sz > 0 && forall u :: u in q ==> u.id.n < o.id.n
    ensures Sorted(q + [o]) && RealOnly(q + [o]) && Positive(q + [o])
  {}

  lemma EmptyLevel()
    ensures RealOnly([]) && Sorted([]) && Positive([])
  {}

  // ----- an edit of one level, followed by the inside walk

  lemma RewalkLevels(c: Config, b: Book, s: Side, px: int)
    ensures forall t, k :: Rewalk(c, b, s, px).Lev(t, k) == b.Lev(t, k)
    ensures Rewalk(c, b, s, px).dead == b.dead
  {}

  lemma EditLevels(b: Book, s: Side, px: int, q: Level)
    requires 0 <= px < |b.Lad(s)|
    ensures forall t, k :: b.WithLev(s, px, q).Lev(t, k) == if t == s && k == px then q else b.Lev(t, k)
    ensures b.WithLev(s, px, q).dead == b.dead
  {}

  /** Emptying or keeping a level that held a real order keeps the inside, once it is walked. */
  lemma EditPrices(c: Config, b: Book, s: Side, px: int, q: Level)
    requires Prices(c, b) && HasReal(b.Lev(s, px))
    ensures Prices(c, Rewalk(c, b.WithLev(s, px, q), s, px))
  {
    hide HasReal, WalkDown, WalkUp;
    assert OnLadder(c, px);
    EditLevels(b, s, px, q);
    var b1 := b.WithLev(s, px, q);
    RewalkLevels(c, b1, s, px);
    var r := Rewalk(c, b1, s, px);
    assert forall t, k :: HasReal(r.Lev(t, k)) ==> HasReal(b.Lev(t, k));
    assert r.Lad(Buy) == r.bids && r.Lad(Sell) == r.asks;
    if s.Buy? { assert px <= b.bestBid; } else { assert px >= b.bestAsk; }
  }

  lemma CancelPrices(c: Config, b: Book, n: nat, s: Side, px: int)
    requires Bare(b) && Prices(c, b)
    ensures Prices(c, CancelReal(c, b, n, s, px))
  {
    hide HasReal, WalkDown, WalkUp, Rewalk;
    var q := b.Lev(s, px);
    if px < c.maxPx && Holds(q, Real(n)) {
      HeldIsReal(q, n);
      EditPrices(c, b, s, px, Remove(q, Real(n)));
    }
  }

  lemma HeldIsReal(q: Level, n: nat)
    requires Holds(q, Real(n))
    ensures HasReal(q)
  {
    assert !q[Find(q, Real(n))].IsSim();
  }

  lemma SortedCons(a: Order, t: Level)
    ensures Sorted([a] + t) <==> Sorted(t) && forall o :: o in t ==> a.id.n < o.id.n
  {
    var q := [a] + t;
    if Sorted(q) {
      forall i, j | 0 <= i < j < |t| ensures t[i].id.n < t[j].id.n {
        assert q[i + 1].id.n < q[j + 1].id.n;
      }
      forall o | o in t ensures a.id.n < o.id.n {
        var i :| 0 <= i < |t| && t[i] == o;
        assert q[0].id.n < q[i + 1].id.n;
      }
    }
  }

  lemma {:induction false} RemoveLevel(q: Level, id: OrderId)
    requires Sorted(q) && RealOnly(q) && id.Real?
    ensures Sorted(Remove(q, id)) && RealOnly(Remove(q, id)) && (Positive(q) ==> Positive(Remove(q, id)))
    ensures forall o :: o in Remove(q, id) <==> o in q && o.id != id
  {
    hide Sorted;
    if q == [] {
    } else {
      var t := q[1..];
      assert q == [q[0]] + t;
      SortedCons(q[0], t);
      if q[0].id != id {
        RemoveLevel(t, id);
        SortedCons(q[0], Remove(t, id));
      }
    }
  }

  lemma {:induction false} ResizeLevel(q: Level, id: OrderId, sz: int)
    requires Sorted(q) && RealOnly(q) && Positive(q) && Holds(q, id) && sz > 0
    ensures Sorted(Resize(q, id, sz)) && RealOnly(Resize(q, id, sz)) && Positive(Resize(q, id, sz))
    ensures forall o :: o in Resize(q, id, sz) <==>
                        (o in q && o.id != id) || o == q[Find(q, id)].(sz := sz)
  {
    hide Sorted;
    var t := q[1..];
    assert q == [q[0]] + t;
    SortedCons(q[0], t);
    if q[0].id != id {
      ResizeLevel(t, id, sz);
      assert t[Find(t, id)] in t;
      SortedCons(q[0], Resize(t, id, sz));
    } else {
      SortedCons(q[0].(sz := sz), t);
      assert q[0] in q;
    }
  }

  lemma ResizeFacts(c: Config, b: Book, n: nat, s: Side, px: int, sz: int)
    requires Shape(c, b) && OnLadder(c, px) && Holds(b.Lev(s, px), Real(n)) && sz > 0
    ensures var r := ResizeReal(c, b, n, s, px, sz);
            && r.delQ == b.delQ
            && forall t, k :: r.Lev(t, k) ==
                              if t == s && k == px then Resize(b.Lev(s, px), Real(n), sz) else b.Lev(t, k)
  {
    hide HasReal, WalkDown, WalkUp, Rewalk, Resize;
    var q' := Resize(b.Lev(s, px), Real(n), sz);
    EditLevels(b, s, px, q');
    RewalkLevels(c, b.WithLev(s, px, q'), s, px);
  }

  lemma ResizePrices(c: Config, b: Book, n: nat, s: Side, px: int, sz: int)
    requires Bare(b) && Prices(c, b) && (sz > 0 || !Holds(b.Lev(s, px), Real(n)))
    ensures Prices(c, ResizeReal(c, b, n, s, px, sz))
  {
    hide HasReal, WalkDown, WalkUp, Rewalk;
    var q := b.Lev(s, px);
    if px < c.maxPx && Holds(q, Real(n)) {
      HeldIsReal(q, n);
      EditPrices(c, b, s, px, Resize(q, Real(n), sz));
    }
  }

  /** Without sim orders an execution changes nothing at all. */
  lemma ExecNothing(c: Config, b: Book, n: nat, s: Side, px: int, sz: int)
    requires Bare(b) && Prices(c, b) && sz > 0
    ensures ExecReal(c, b, n, s, px, sz) == b
  {
    hide HasReal;
    var q := b.Lev(s, px);
    assert RealOnly(q);
    RealOnlyIsRealPart(q);
    EraseExecLevel(q, n, sz, px);
    PutBack(b, s, px);
    assert b.notes + [] == b.notes;
    assert b.Lad(Buy) == b.bids && b.Lad(Sell) == b.asks;
  }

  // ----- whole records

  /** A payload on a book without our messages is applied directly, unless the book was crossed. */
  lemma ProcessBare(c: Config, b: Book, p: Payload, tim: nat)
    requires b.delQ == [] && p.px > 0 && !Process(c, b, p, tim).dead
    ensures Process(c, b, p, tim) == ApplyPayload(c, b.(boundary := Max(b.boundary, tim)), p)
    ensures !b.dead
  {
    hide ApplyPayload;
    BareDrain(c, b, tim);
  }

  lemma LivesWithSize(c: Config, b: Book, n: nat, s: Side, px: int, sz: int)
    requires !ResizeReal(c, b, n, s, px, sz).dead && px < c.maxPx
    ensures sz > 0 || !Holds(b.Lev(s, px), Real(n))
  {}

  lemma AddLives(c: Config, b: Book, n: nat, x: nat, s: Side, px: int, sz: int)
    requires !AddReal(c, b, n, x, s, px, sz).dead && px < c.maxPx
    ensures sz > 0
  {}

  lemma ExecRefuses(c: Config, b: Book, n: nat, s: Side, px: int, sz: int)
    requires sz <= 0 && !ExecReal(c, b, n, s, px, sz).dead
    ensures ExecReal(c, b, n, s, px, sz) == b
  {}

  lemma ErasedDead(b: Book)
    ensures Erase(b).dead == b.dead
  {}

  lemma ErasedLevels(b: Book)
    ensures forall s, p :: Erase(b).Lev(s, p) == RealPart(b.Lev(s, p))
    ensures forall s, p :: HasReal(Erase(b).Lev(s, p)) <==> HasReal(b.Lev(s, p))
    ensures forall s, p, o :: o in Erase(b).Lev(s, p) <==> o in b.Lev(s, p) && !o.IsSim()
  {
    hide RealPart, HasReal;
    forall s, p
      ensures HasReal(Erase(b).Lev(s, p)) <==> HasReal(b.Lev(s, p))
      ensures forall o :: o in Erase(b).Lev(s, p) <==> o in b.Lev(s, p) && !o.IsSim()
    {
      RealPartHasReal(b.Lev(s, p));
      RealPartMembers(b.Lev(s, p));
    }
  }

  lemma InsideUncrossed(c: Config, b: Book, p: int, q: int)
    requires Prices(c, b) && Uncrossed(b) && HasReal(b.Lev(Buy, p)) && HasReal(b.Lev(Sell, q))
    ensures p < q && p <= b.bestBid < b.bestAsk <= q
  {
    hide HasReal, Book.Lev;
    assert OnLadder(c, p) && OnLadder(c, q);
    assert HasReal(b.Lev(Buy, b.bestBid)) || b.bestBid <= 1;
    assert HasReal(b.Lev(Sell, b.bestAsk)) || b.bestAsk >= c.maxPx - 1;
  }

  // ----- what every event keeps, whatever `ordermap` says

  /** Every resting order has a book id below `top`. */
  ghost predicate Below(b: Book, top: nat) {
    forall s, p, o :: o in b.Lev(s, p) ==> o.id.n < top
  }

  /** Prices and queues in order; the next book id is `top`. */
  ghost predicate Sane(c: Config, b: Book, top: nat) { Bare(b) && Prices(c, b) && Fifo(b) && Below(b, top) }

  lemma SameSane(c: Config, b: Book, r: Book, top: nat)
    requires r.bids == b.bids && r.asks == b.asks && r.bestBid == b.bestBid && r.bestAsk == b.bestAsk
    requires r.delQ == b.delQ
    ensures Sane(c, b, top) <==> Sane(c, r, top)
  {
    hide HasReal, Sorted, RealOnly, Positive;
    assert forall t, k :: r.Lev(t, k) == b.Lev(t, k);
  }

  lemma AddSane(c: Config, b: Book, n: nat, x: nat, s: Side, px: int, sz: int)
    requires Sane(c, b, n) && OnLadder(c, px) && sz > 0
    ensures Sane(c, AddReal(c, b, n, x, s, px, sz), n + 1)
  {
    hide AddReal, HasReal, Book.Lev, SweepRange, Sorted, RealOnly, Positive, Prices;
    assert Shape(c, b) by { PricesShape(c, b); }
    AddFacts(c, b, n, x, s, px, sz);
    AppendLevel(b.Lev(s, px), Order(Real(n), x, sz));
    EmptyLevel();
    if s.Buy? { AddBuyPrices(c, b, n, x, px, sz); } else { AddSellPrices(c, b, n, x, px, sz); }
  }

  lemma PricesShape(c: Config, b: Book)
    requires Prices(c, b)
    ensures Shape(c, b)
  {}

  /** The levels after a cancel. */
  lemma CancelLevels(c: Config, b: Book, n: nat, s: Side, px: int)
    requires Shape(c, b) && px < c.maxPx && Holds(b.Lev(s, px), Real(n))
    ensures var r := CancelReal(c, b, n, s, px);
            && r.delQ == b.delQ
            && forall t, k :: r.Lev(t, k) ==
                              if t == s && k == px then Remove(b.Lev(s, px), Real(n)) else b.Lev(t, k)
  {
    hide HasReal, WalkDown, WalkUp, Rewalk, Remove;
    var q := Remove(b.Lev(s, px), Real(n));
    EditLevels(b, s, px, q);
    RewalkLevels(c, b.WithLev(s, px, q), s, px);
  }

  lemma CancelSane(c: Config, b: Book, n: nat, s: Side, px: int, top: nat)
    requires Sane(c, b, top)
    ensures Sane(c, CancelReal(c, b, n, s, px), top)
  {
    hide HasReal, Rewalk, Sorted, Remove, RealOnly, Positive, Prices, Book.Lev;
    CancelPrices(c, b, n, s, px);
    if px < c.maxPx && Holds(b.Lev(s, px), Real(n)) {
      assert Shape(c, b) by { PricesShape(c, b); }
      RemoveLevel(b.Lev(s, px), Real(n));
      CancelLevels(c, b, n, s, px);
    }
  }

  lemma ResizeSane(c: Config, b: Book, n: nat, s: Side, px: int, sz: int, top: nat)
    requires Sane(c, b, top) && !ResizeReal(c, b, n, s, px, sz).dead
    ensures Sane(c, ResizeReal(c, b, n, s, px, sz), top)
  {
    hide HasReal, Rewalk, Sorted, Resize, RealOnly, Positive, Prices, Book.Lev;
    if px < c.maxPx && Holds(b.Lev(s, px), Real(n)) {
      LivesWithSize(c, b, n, s, px, sz);
      ResizePrices(c, b, n, s, px, sz);
      assert OnLadder(c, px) by { HeldOnLadder(c, b, s, px, n); }
      assert Shape(c, b) by { PricesShape(c, b); }
      var q := b.Lev(s, px);
      ResizeLevel(q, Real(n), sz);
      ResizeFacts(c, b, n, s, px, sz);
      assert q[Find(q, Real(n))] in q;
    }
  }

  lemma HeldOnLadder(c: Config, b: Book, s: Side, px: int, n: nat)
    requires Prices(c, b) && Holds(b.Lev(s, px), Real(n))
    ensures OnLadder(c, px)
  {
    hide HasReal, Book.Lev;
    HeldIsReal(b.Lev(s, px), n);
  }

  /** A payload names book ids from `top` on only when it adds an order. */
  function TopAfter(p: Payload, top: nat): nat { if p.PAdd? then p.n + 1 else top }

  lemma PayloadSane(c: Config, b: Book, p: Payload, top: nat)
    requires Sane(c, b, top) && (p.PAdd? ==> p.n == top) && p.px > 0 && !ApplyPayload(c, b, p).dead
    ensures Sane(c, ApplyPayload(c, b, p), TopAfter(p, top))
  {
    hide AddReal, CancelReal, ResizeReal, ExecReal, Prices, Fifo, Bare;
    match p
    case PAdd(n, x, s, px, sz) =>
      AddLivesOrNot(c, b, n, x, s, px, sz);
      if OnLadder(c, px) { AddSane(c, b, n, x, s, px, sz); } else { Higher(c, b, top, n + 1); }
    case PCancel(n, s, px) => CancelSane(c, b, n, s, px, top);
    case PResize(n, s, px, sz) => ResizeSane(c, b, n, s, px, sz, top);
    case PExec(n, s, px, sz) =>
      if sz > 0 { ExecNothing(c, b, n, s, px, sz); } else { ExecRefuses(c, b, n, s, px, sz); }
  }

  lemma AddLivesOrNot(c: Config, b: Book, n: nat, x: nat, s: Side, px: int, sz: int)
    requires !AddReal(c, b, n, x, s, px, sz).dead
    ensures px >= c.maxPx ==> AddReal(c, b, n, x, s, px, sz) == b
    ensures px < c.maxPx ==> sz > 0
  {}

  lemma Higher(c: Config, b: Book, top: nat, higher: nat)
    requires Sane(c, b, top) && top <= higher
    ensures Sane(c, b, higher)
  {
    hide Prices, Fifo, Bare, Book.Lev;
  }

  lemma ProcessSane(c: Config, b: Book, p: Payload, tim: nat, top: nat)
    requires Sane(c, b, top) && (p.PAdd? ==> p.n == top) && !Process(c, b, p, tim).dead
    ensures Sane(c, Process(c, b, p, tim), TopAfter(p, top))
    ensures Process(c, b, p, tim).nextId == b.nextId
  {
    hide ApplyPayload, Sane;
    if p.px > 0 {
      assert b.delQ == [] by { SaneQueue(c, b, top); }
      ProcessBare(c, b, p, tim);
      var b1 := b.(boundary := Max(b.boundary, tim));
      SameSane(c, b, b1, top);
      PayloadSane(c, b1, p, top);
    } else {
      Higher(c, b, top, TopAfter(p, top));
    }
  }

  lemma SaneQueue(c: Config, b: Book, top: nat)
    requires Sane(c, b, top)
    ensures b.delQ == [] && Shape(c, b)
  {}

  lemma NewSane(c: Config, b: Book, e: Event)
    requires e.Record? && Sane(c, b, b.nextId) && !OnNew(c, b, e).dead
    ensures Sane(c, OnNew(c, b, e), OnNew(c, b, e).nextId)
  {
    hide Process, Sane;
    if e.xoid in b.orders {
      SameSane(c, b, OnNew(c, b, e), b.nextId);
    } else {
      var n := b.nextId;
      var b1 := b.(orders := b.orders[e.xoid := Info(n, e.px, e.qty, e.side.value)], nextId := n + 1);
      SameSane(c, b, b1, n);
      ProcessSane(c, b1, PAdd(n, e.xoid, e.side.value, e.px, e.qty), e.tim, n);
    }
  }

  lemma DeleteSane(c: Config, b: Book, e: Event)
    requires e.Record? && Sane(c, b, b.nextId) && !OnDelete(c, b, e).dead
    ensures Sane(c, OnDelete(c, b, e), OnDelete(c, b, e).nextId)
  {
    hide Process, Sane;
    if e.xoid in b.orders {
      var o := b.orders[e.xoid];
      var p := PCancel(o.id, o.side, o.px);
      ProcessSane(c, b, p, e.tim, b.nextId);
      var r := Process(c, b, p, e.tim);
      SameSane(c, r, r.(orders := r.orders - {e.xoid}), b.nextId);
    }
  }

  lemma ChangeSane(c: Config, b: Book, e: Event)
    requires e.Record? && Sane(c, b, b.nextId) && !OnChange(c, b, e).dead
    ensures Sane(c, OnChange(c, b, e), OnChange(c, b, e).nextId)
  {
    hide Process, Sane;
    if e.xoid in b.orders {
      var o := b.orders[e.xoid];
      if Replaces(o, e) {
        ReplaceSane(c, b, e);
      } else {
        var b1 := b.(orders := b.orders[e.xoid := o.(sz := e.qty)]);
        SameSane(c, b, b1, b.nextId);
        ProcessSane(c, b1, PResize(o.id, o.side, o.px, e.qty), e.tim, b.nextId);
      }
    }
  }

  lemma ReplaceSane(c: Config, b: Book, e: Event)
    requires e.Record? && Sane(c, b, b.nextId) && !OnChange(c, b, e).dead
    requires e.xoid in b.orders && Replaces(b.orders[e.xoid], e)
    ensures Sane(c, OnChange(c, b, e), OnChange(c, b, e).nextId)
  {
    hide Process, Sane;
    var o, n := b.orders[e.xoid], b.nextId;
    var s := if e.side.Some? then e.side.value else o.side;
    var px := if e.side.Some? then e.px else o.px;
    var b1 := Process(c, b, PCancel(o.id, o.side, o.px), e.tim);
    var i1 := b1.(nextId := b1.nextId + 1);
    var p2 := PAdd(b1.nextId, e.xoid, s, px, e.qty);
    ProcessStaysDead(c, i1, p2, e.tim);
    ProcessSane(c, b, PCancel(o.id, o.side, o.px), e.tim, n);
    SameSane(c, b1, i1, n);
    ProcessSane(c, i1, p2, e.tim, n);
    SameSane(c, Process(c, i1, p2, e.tim), OnChange(c, b, e), n + 1);
  }

  lemma ClearSane(c: Config, b: Book, top: nat)
    requires Shape(c, b) && b.delQ == []
    ensures Sane(c, Clear(c, b), top)
  {
    hide LadderAcks;
    var r := Clear(c, b);
    assert forall s, p :: r.Lev(s, p) == [];
  }

  lemma RecoverSane(c: Config, b: Book, recovery: bool)
    requires Sane(c, b, b.nextId)
    ensures Sane(c, Recover(c, b, recovery), Recover(c, b, recovery).nextId)
  {
    hide Clear, Sane;
    SaneQueue(c, b, b.nextId);
    ClearSane(c, b, b.nextId);
    SameSane(c, b, b.(inRecovery := false), b.nextId);
    SameSane(c, Clear(c, b), Clear(c, b).(inRecovery := true), b.nextId);
    assert Clear(c, b).nextId == b.nextId by { ClearNext(c, b); }
  }

  lemma ClearNext(c: Config, b: Book)
    ensures Clear(c, b).nextId == b.nextId
  {}

  /** One event keeps prices and queues in order, on any feed. */
  lemma StepSane(c: Config, b: Book, e: Event)
    requires Sane(c, b, b.nextId) && !e.FromUs? && !Step(c, b, e).dead
    ensures Sane(c, Step(c, b, e), Step(c, b, e).nextId)
  {
    hide OnNew, OnChange, OnDelete, Clear, Process, Sane;
    match e
    case Record(_, _, _, _, _, _, _) =>
      if OnLadder(c, e.px) || !e.action.New? {
        var b1 := Recover(c, b, e.recovery);
        RecoverSane(c, b, e.recovery);
        if e.action.New? { NewSane(c, b1, e); }
        else if e.action.Change? && OnLadder(c, e.px) { ChangeSane(c, b1, e); }
        else { DeleteSane(c, b1, e); }
      }
    case Exec(n, s, px, sz, tim) => ProcessSane(c, b, PExec(n, s, px, sz), tim, b.nextId);
    case ChannelReset => SaneQueue(c, b, b.nextId); ClearSane(c, b, b.nextId); ClearNext(c, b);
    case Status(on) => SameSane(c, b, b.(matching := on), b.nextId);
    case FromUs(_) =>
  }

  lemma {:induction false} RunSane(c: Config, es: seq<Event>)
    requires c.maxPx >= 2 && !Run(c, Init(c), es).dead
    ensures var b := Erase(Run(c, Init(c), es)); Sane(c, b, b.nextId)
  {
    hide Sane, Step, Erase;
    if es == [] {
      InitSane(c);
    } else {
      var b, e := Run(c, Init(c), es[..|es| - 1]), es[|es| - 1];
      StepStaysDead(c, b, e);
      RunSane(c, es[..|es| - 1]);
      EraseStep(c, b, e);
      ErasedDead(Step(c, b, e));
      if !e.FromUs? { StepSane(c, Erase(b), e); }
    }
  }

  lemma InitSane(c: Config)
    requires c.maxPx >= 2
    ensures var b := Erase(Init(c)); Sane(c, b, b.nextId)
  {
    assert forall s, p :: Erase(Init(c)).Lev(s, p) == [];
  }

  /**
    After every run from the empty book, in both modes and on any feed: real orders rest on the
    ladder, within the walked inside prices, which hold a real order or stand at their stop, and
    real book ids grow along every queue.
   */
  lemma PricesInvariant(c: Config, es: seq<Event>)
    requires c.maxPx >= 2 && !Run(c, Init(c), es).dead
    ensures var b := Run(c, Init(c), es);
            && OnRungs(c, b) && Bounded(b) && Inside(c, b)
            && (forall s, p :: Sorted(RealPart(b.Lev(s, p))))
  {
    hide Run, HasReal, Sorted;
    var b := Run(c, Init(c), es);
    RunSane(c, es);
    var r := Erase(b);
    ErasedLevels(b);
    assert r.bestBid == b.bestBid && r.bestAsk == b.bestAsk;
    hide Erase, RealPart, Book.Lev;
    assert forall s, p :: Sorted(r.Lev(s, p));
  }

  /** Live trading, on any feed: no reachable book has a real bid at or above a real ask. */
  lemma NeverCrossed(c: Config, es: seq<Event>, p: int, q: int)
    requires c.repair && c.maxPx >= 2 && !Run(c, Init(c), es).dead
    requires HasReal(Run(c, Init(c), es).Lev(Buy, p)) && HasReal(Run(c, Init(c), es).Lev(Sell, q))
    ensures p < q && p <= Run(c, Init(c), es).bestBid < Run(c, Init(c), es).bestAsk <= q
  {
    hide Run, HasReal, Erased, RealPart;
    var b := Run(c, Init(c), es);
    RunSane(c, es);
    ErasedLevels(b);
    var r := Erase(b);
    assert HasReal(r.Lev(Buy, p)) && HasReal(r.Lev(Sell, q));
    InsideUncrossed(c, r, p, q);
  }
}
