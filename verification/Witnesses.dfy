/**
  Runs from the empty book that reach the failures the exact conditions elsewhere describe.
 */
module Witnesses {
  import opened Levels
  import opened Book
  import opened NonInterference
  import opened BookPrices
  import opened BookIndex
  import opened LatencyQueue
  import opened StraySims
  import RB = RefBook
  import R = Refinement

  // ----- New records on a book without our orders

  function Arrival(x: nat, s: Side, px: int, qty: nat, snapshot: bool): Event {
    Record(New, x, Some(s), px, qty, snapshot, 0)
  }

  /** What a New of an unknown id leaves: its order at the back of its queue, and its entry. */
  lemma Arrives(c: Config, b: Book, x: nat, s: Side, px: int, qty: nat, snapshot: bool)
    requires Bare(b) && Shape(c, b) && !b.dead && b.boundary == 0
    requires OnLadder(c, px) && qty > 0 && x !in b.orders
    ensures var r := OnNew(c, b, Arrival(x, s, px, qty, snapshot));
            && r == AddReal(c, b.(orders := r.orders, nextId := b.nextId + 1), b.nextId, x, s, px, qty)
            && r.orders == b.orders[x := Info(b.nextId, px, qty, s)]
            && !r.dead && r.boundary == 0 && r.delQ == [] && r.inRecovery == b.inRecovery && r.applied == b.applied
            && Order(Real(b.nextId), x, qty) in r.Lev(s, px)
  {
    hide AddReal, Book.Lev;
    var om := b.orders[x := Info(b.nextId, px, qty, s)];
    var b1 := b.(orders := om, nextId := b.nextId + 1);
    assert Bare(b1) && Shape(c, b1) by { SameBare(c, b, b1); }
    BareDrain(c, b1, 0);
    assert b1.(boundary := Max(b1.boundary, 0)) == b1;
    AddFacts(c, b1, b.nextId, x, s, px, qty);
  }

  lemma SameBare(c: Config, b: Book, r: Book)
    requires Bare(b) && Shape(c, b) && r == b.(orders := r.orders, nextId := r.nextId)
    ensures Bare(r) && Shape(c, r)
  {
    assert forall s, p :: r.Lev(s, p) == b.Lev(s, p);
  }

  /** The empty book, before or after the clear a snapshot begins with. */
  function Empty(c: Config, snapshot: bool): Book { Recover(c, Init(c), snapshot) }

  lemma EmptyBook(c: Config, snapshot: bool)
    requires c.maxPx >= 2
    ensures var b := Empty(c, snapshot);
            && Bare(b) && Shape(c, b) && !b.dead && b.boundary == 0 && b.orders == map[] && b.nextId == 0
            && b.inRecovery == snapshot && b.bestBid == 0 && b.bestAsk == c.maxPx - 1 && b.applied == []
  {
    hide LadderAcks;
    var b := Empty(c, snapshot);
    assert forall s, p :: b.Lev(s, p) == [];
  }

  lemma RunTwo(c: Config, b: Book, e: Event, f: Event)
    ensures Run(c, b, [e, f]) == Step(c, Step(c, b, e), f)
    ensures Run(c, b, [e]) == Step(c, b, e)
  {
    hide Step;
    assert [e, f][..1] == [e] && [e][..0] == [];
    assert Run(c, b, []) == b;
  }

  // ----- a snapshot that contradicts a resting order

  const Resent: seq<Event> := [Arrival(1, Buy, 5, 1, true), Arrival(1, Buy, 6, 1, true)]

  /** Two snapshot records of one order at two prices: it rests at the first, its entry names the second. */
  lemma ResendBreaksIndex(c: Config)
    requires c.maxPx > 6
    ensures var b := Run(c, Init(c), Resent);
            && !b.dead && Contradicts(c, Run(c, Init(c), Resent[..1]), Resent[1])
            && Order(Real(0), 1, 1) in b.Lev(Buy, 5) && b.orders == map[1 := Info(0, 6, 1, Buy)]
            && !Listed(b, b.orders) && !Complete(b, b.orders)
  {
    hide OnNew, Book.Lev, Recover, Init, Run, Step, Listed, Complete, Contradicts;
    var e, f := Resent[0], Resent[1];
    var b1 := Step(c, Init(c), e);
    FirstResent(c);
    RunTwo(c, Init(c), e, f);
    assert Resent[..1] == [e];
    ResendEntry(c, b1, f);
    var b := Run(c, Init(c), Resent);
    SameLevels(b1, b);
    assert b.orders == map[1 := Info(0, 6, 1, Buy)];
    IndexBroken(b);
    assert Contradicts(c, b1, f) by { ResentContradicts(c, b1); }
  }

  lemma FirstResent(c: Config)
    requires c.maxPx > 6
    ensures var b1 := Step(c, Init(c), Resent[0]);
            && !b1.dead && b1.inRecovery && b1.orders == map[1 := Info(0, 5, 1, Buy)]
            && Order(Real(0), 1, 1) in b1.Lev(Buy, 5) && b1.Lev(Buy, 6) == []
  {
    hide OnNew, Book.Lev, Recover, Init;
    var b0 := Empty(c, true);
    EmptyBook(c, true);
    Arrives(c, b0, 1, Buy, 5, 1, true);
    AliveInit(c);
    OneLevel(c, b0, OnNew(c, b0, Resent[0]));
  }

  lemma IndexBroken(b: Book)
    requires Order(Real(0), 1, 1) in b.Lev(Buy, 5) && b.Lev(Buy, 6) == [] && b.orders == map[1 := Info(0, 6, 1, Buy)]
    ensures !Listed(b, b.orders) && !Complete(b, b.orders)
  {}

  lemma ResentContradicts(c: Config, b: Book)
    requires c.maxPx > 6 && b.inRecovery && b.orders == map[1 := Info(0, 5, 1, Buy)]
    requires Order(Real(0), 1, 1) in b.Lev(Buy, 5)
    ensures Contradicts(c, b, Resent[1])
  {}

  lemma AliveInit(c: Config)
    ensures !Init(c).dead
  {}

  /** A re-sent order overwrites its entry, and only that. */
  lemma ResendEntry(c: Config, b: Book, f: Event)
    requires f.Record? && f.action.New? && f.recovery && OnLadder(c, f.px) && f.qty > 0 && f.side.Some?
    requires !b.dead && b.inRecovery && f.xoid in b.orders
    ensures var i := Info(b.orders[f.xoid].id, f.px, f.qty, f.side.value);
            Step(c, b, f) == b.(orders := b.orders[f.xoid := i])
  {}

  lemma SameLevels(b: Book, r: Book)
    requires r.bids == b.bids && r.asks == b.asks
    ensures forall s, p :: r.Lev(s, p) == b.Lev(s, p)
  {}

  /** The first order is alone in the book. */
  lemma OneLevel(c: Config, b0: Book, b1: Book)
    requires c.maxPx > 6 && b0 == Empty(c, true) && b1 == OnNew(c, b0, Arrival(1, Buy, 5, 1, true))
    ensures b1.Lev(Buy, 6) == []
  {
    hide OnNew, AddReal, Recover;
    EmptyBook(c, true);
    Arrives(c, b0, 1, Buy, 5, 1, true);
    var b2 := b0.(orders := b1.orders, nextId := 1);
    SameBare(c, b0, b2);
    SameLevels(b0, b2);
    AddFacts(c, b2, 0, 1, Buy, 5, 1);
    EmptyLevels(c, b0);
  }

  lemma EmptyLevels(c: Config, b: Book)
    requires b == Empty(c, true) || b == Empty(c, false)
    ensures forall s, p :: b.Lev(s, p) == []
  {
    hide LadderAcks;
  }

  // ----- a Change of an order already crossed out

  const Crossing: seq<Event> := [Arrival(1, Buy, 5, 3, false), Arrival(2, Sell, 5, 1, false)]

  const Shrink := Record(Change, 1, Some(Buy), 5, 2, false, 0)

  lemma CrossingMarket()
    ensures var r := RB.RefRun(Crossing); r.ord == map[2 := RB.Ord(Sell, 5, 1)]
    ensures RB.RefRun(Crossing[..1]).ord == map[1 := RB.Ord(Buy, 5, 3)] && RB.RefRun([]) == RB.Empty
  {
    hide RB.Apply, RB.Valid, RB.Strict;
    var e, f := Crossing[0], Crossing[1];
    assert Crossing[..1] == [e] && [e][..0] == [];
    RB.EmptyValid();
    R.AppliedAlone(e);
    var r1 := RB.Apply(RB.Empty, e);
    RB.ApplyKeeps(RB.Empty, e);
    R.AppliedKeys(r1, f);
    R.AppliedHolds(r1, f);
  }

  lemma CrossingProper(c: Config)
    requires c.maxPx > 6
    ensures R.ProperFeed(c, Crossing) && ProperRun(Init(c), Crossing)
  {
    hide RB.RefRun;
    CrossingMarket();
    assert Crossing[..1][..0] == [];
    assert R.Announced([]) == {} && R.Announced(Crossing[..1]) == {1};
    assert R.ProperFeed(c, []) && R.ProperFeed(c, Crossing[..1]);
  }

  /** The book knows the crossed-out order, at its old price and size. */
  lemma CrossingKnown(c: Config)
    requires c.maxPx > 6
    ensures var b := Run(c, Init(c), Crossing); 1 in b.orders && b.orders[1] == Info(0, 5, 3, Buy) && b.delQ == []
  {
    hide OnNew, Book.Lev, Recover, Init, Run, AddReal;
    var e, f := Crossing[0], Crossing[1];
    var b0 := Empty(c, false);
    var b1 := OnNew(c, b0, e);
    EmptyBook(c, false);
    Arrives(c, b0, 1, Buy, 5, 3, false);
    RunTwo(c, Init(c), e, f);
    assert Step(c, Init(c), e) == b1 by { AliveInit(c); }
    assert Recover(c, b1, false) == b1 by { NotInSnapshot(c, b1); }
    assert Step(c, b1, f) == OnNew(c, b1, f);
    BareNext(c, b0, b1, 1, Buy, 5, 3);
    Arrives(c, b1, 2, Sell, 5, 1, false);
  }

  lemma NotInSnapshot(c: Config, b: Book)
    requires !b.inRecovery
    ensures Recover(c, b, false) == b
  {}

  /** A New keeps the shape of a book without our orders. */
  lemma BareNext(c: Config, b: Book, r: Book, x: nat, s: Side, px: int, qty: nat)
    requires Bare(b) && Shape(c, b) && OnLadder(c, px) && qty > 0
    requires r == AddReal(c, b.(orders := r.orders, nextId := b.nextId + 1), b.nextId, x, s, px, qty)
    requires r.delQ == []
    ensures Bare(r) && Shape(c, r)
  {
    hide AddReal, WalkUp, WalkDown, Book.Lev, SweepRange, HasReal, RealOnly;
    var b1 := b.(orders := r.orders, nextId := b.nextId + 1);
    SameBare(c, b, b1);
    AddFacts(c, b1, b.nextId, x, s, px, qty);
    AddBests(c, b1, b.nextId, x, s, px, qty);
    EmptyLevel();
    AppendReal(b1.Lev(s, px), Order(Real(b.nextId), x, qty));
  }

  lemma AppendReal(q: Level, o: Order)
    requires RealOnly(q) && !o.IsSim()
    ensures RealOnly(q + [o])
  {}

  /** Live: bid 1@5, ask 2@5 crosses it out, bid 1 shrinks: the market re-enters it, the order book does not. */
  lemma StaleChangeReached(c: Config)
    requires c.repair && c.maxPx > 6
    ensures var es := Crossing + [Shrink];
            !Run(c, Init(c), es).dead && !R.Agree(Run(c, Init(c), es), Run(c, Init(c), es).orders, RB.RefRun(es))
  {
    hide Run, RB.RefRun, RB.Valid, RB.Strict, R.Agree, Good, Step, RB.Apply;
    var es, b, r := Crossing + [Shrink], Run(c, Init(c), Crossing), RB.RefRun(Crossing);
    CrossingProper(c);
    R.ProperFeedWellFormed(c, Crossing);
    R.LiveNeverDies(c, Crossing);
    R.RunAgrees(c, Crossing);
    RB.RefInvariant(Crossing);
    CrossingKnown(c);
    CrossingMarket();
    RunThree(c);
    EraseNothing(c, Crossing);
    assert !R.Held(b, b.orders, 1) by { NotHeldIn(b, r); }
    StaleLives(c, b);
    R.StaleChangeDisagrees(c, b, r, Shrink);
  }

  lemma NotHeldIn(b: Book, r: RB.Ref)
    requires R.Agree(b, b.orders, r) && 1 !in r.ord
    ensures !R.Held(b, b.orders, 1)
  {}

  lemma RunThree(c: Config)
    ensures Run(c, Init(c), Crossing + [Shrink]) == Step(c, Run(c, Init(c), Crossing), Shrink)
    ensures RB.RefRun(Crossing + [Shrink]) == RB.Apply(RB.RefRun(Crossing), Shrink)
  {
    hide Step, RB.Apply, Init;
    assert (Crossing + [Shrink])[..2] == Crossing;
  }

  /** A run without our messages is its own erasure. */
  lemma EraseNothing(c: Config, es: seq<Event>)
    requires !Run(c, Init(c), es).dead && forall i :: 0 <= i < |es| ==> !es[i].FromUs?
    ensures Erase(Run(c, Init(c), es)) == Run(c, Init(c), es)
  {
    hide Run, Erase;
    SameRealBook(c, Init(c), es);
    MarketOnlyAll(es);
    assert Erase(Init(c)) == Init(c) by { EraseInit(c); }
  }

  lemma {:induction false} MarketOnlyAll(es: seq<Event>)
    requires forall i :: 0 <= i < |es| ==> !es[i].FromUs?
    ensures MarketOnly(es) == es
  {
    if es != [] {
      MarketOnlyAll(es[..|es| - 1]);
      assert es == es[..|es| - 1] + [es[|es| - 1]];
    }
  }

  lemma EraseInit(c: Config)
    ensures Erase(Init(c)) == Init(c)
  {
    LaddersEqual(Erased(Init(c).bids), Init(c).bids);
  }

  lemma StaleLives(c: Config, b: Book)
    requires c.repair && c.maxPx > 6 && !b.dead && b.delQ == [] && 1 in b.orders && b.orders[1] == Info(0, 5, 3, Buy)
    ensures !Step(c, b, Shrink).dead
  {
    hide Process;
    var b1 := b.(inRecovery := false, orders := b.orders[1 := Info(0, 5, 2, Buy)]);
    R.ProcessLives(c, b1, PResize(0, Buy, 5, 2), 0);
    assert Recover(c, b, false) == b.(inRecovery := false);
  }

  // ----- records that one side heeds and the other does not

  const First: seq<Event> := [Arrival(1, Buy, 5, 3, false)]

  /** One live order, and the books agree. */
  lemma FirstAgrees(c: Config)
    requires c.repair && c.maxPx > 6
    ensures var b, r := Run(c, Init(c), First), RB.RefRun(First);
            && Good(c, b) && R.Agree(b, b.orders, r) && RB.Valid(r) && RB.Strict(r)
            && !b.dead && !b.inRecovery && b.delQ == [] && b.boundary == 0 && b.orders == map[1 := Info(0, 5, 3, Buy)]
            && r.ord == map[1 := RB.Ord(Buy, 5, 3)]
  {
    hide Run, RB.RefRun, RB.Valid, RB.Strict, R.Agree, Good, Step, OnNew, Recover, Init, Book.Lev;
    assert Crossing[..1] == First;
    CrossingProper(c);
    assert R.ProperFeed(c, First) && ProperRun(Init(c), First);
    R.ProperFeedWellFormed(c, First);
    R.LiveNeverDies(c, First);
    R.RunAgrees(c, First);
    RB.RefInvariant(First);
    CrossingMarket();
    EraseNothing(c, First);
    EmptyBook(c, false);
    Arrives(c, Empty(c, false), 1, Buy, 5, 3, false);
    RunTwo(c, Init(c), First[0], First[0]);
    FirstStep(c);
  }

  lemma FirstStep(c: Config)
    requires c.maxPx > 6
    ensures Step(c, Init(c), First[0]) == OnNew(c, Empty(c, false), First[0])
  {
    hide OnNew, Recover, Init;
    AliveInit(c);
  }

  lemma RunMore(c: Config, e: Event)
    ensures Run(c, Init(c), First + [e]) == Step(c, Run(c, Init(c), First), e)
    ensures e.Record? ==> RB.RefRun(First + [e]) == RB.Apply(RB.RefRun(First), e)
    ensures !e.Record? ==> RB.RefRun(First + [e]) == RB.RefRun(First)
  {
    hide Step, RB.Apply, Init;
    assert (First + [e])[..1] == First;
  }

  /** The two books differ after these events, and the order book is alive. */
  ghost predicate Differ(c: Config, es: seq<Event>) {
    var b := Run(c, Init(c), es);
    !b.dead && !R.Agree(b, b.orders, RB.RefRun(es))
  }

  /** Live: one order and a channel reset. */
  lemma ResetReached(c: Config)
    requires c.repair && c.maxPx > 6
    ensures Differ(c, First + [ChannelReset])
  {
    hide Run, RB.RefRun, RB.Valid, RB.Strict, R.Agree, Good, Clear;
    FirstAgrees(c);
    RunMore(c, ChannelReset);
    var b := Run(c, Init(c), First);
    R.ResetAgreesIff(c, b, RB.RefRun(First));
    assert 1 in RB.RefRun(First).ord;
    assert Clear(c, b).dead == b.dead by { ClearLives(c, b); }
  }

  lemma ClearLives(c: Config, b: Book)
    ensures Clear(c, b).dead == b.dead && Clear(c, b).boundary == b.boundary && Clear(c, b).delQ == b.delQ
    ensures Clear(c, b).orders == map[]
  {}

  /** Live: one order, then a snapshot that begins with another, higher bid. */
  lemma SnapshotReached(c: Config)
    requires c.repair && c.maxPx > 6
    ensures Differ(c, First + [Arrival(2, Buy, 6, 1, true)])
  {
    hide Run, RB.RefRun, RB.Valid, RB.Strict, R.Agree, Good, Clear, OnNew, Book.Lev;
    var e, b, r := Arrival(2, Buy, 6, 1, true), Run(c, Init(c), First), RB.RefRun(First);
    FirstAgrees(c);
    RunMore(c, e);
    ClearLives(c, b);
    var b1 := Recover(c, b, true);
    GoodRecover(c, b, true);
    assert Bare(b1) && Shape(c, b1) by { GoodShape(c, b1); }
    Arrives(c, b1, 2, Buy, 6, 1, true);
    assert Step(c, b, e) == OnNew(c, b1, e);
    R.SnapshotAgreesIff(c, b, r, e);
    assert 1 in r.ord && !RB.Crosses(R.OrderOf(e), r.ord[1]);
  }

  lemma GoodShape(c: Config, b: Book)
    requires Good(c, b)
    ensures Bare(b) && Shape(c, b)
  {}

  /** Live: one order announced twice, the second time smaller. */
  lemma DuplicateReached(c: Config)
    requires c.repair && c.maxPx > 6
    ensures Differ(c, First + [Arrival(1, Buy, 5, 2, false)])
  {
    hide Run, RB.RefRun, RB.Valid, RB.Strict, R.Agree, Good;
    var e, b, r := Arrival(1, Buy, 5, 2, false), Run(c, Init(c), First), RB.RefRun(First);
    FirstAgrees(c);
    RunMore(c, e);
    NotInSnapshot(c, b);
    assert Step(c, b, e) == OnNew(c, b, e) == b;
    R.DuplicateAgreesIff(c, b, r, e);
  }

  // ----- an order of ours that arrives on a locked book

  const Locking: seq<Event> := [Arrival(1, Buy, 5, 1, false), Arrival(2, Sell, 5, 1, false)]

  const Sale := SimAdd(7, Sell, 5, 1, 0)

  lemma LockingInside(c: Config)
    requires !c.repair && c.maxPx > 6
    ensures var b := Run(c, Init(c), Locking);
            && !b.dead && b.bestBid == 5 && b.bestAsk == 5 && b.delQ == [] && |b.asks| == c.maxPx + 2
            && b.applied == [] && Run(c, Init(c), Locking[..1]).applied == []
  {
    hide OnNew, Book.Lev, Recover, Init, Run, AddReal, WalkUp, WalkDown;
    var e, f := Locking[0], Locking[1];
    var b0 := Empty(c, false);
    var b1 := OnNew(c, b0, e);
    EmptyBook(c, false);
    Arrives(c, b0, 1, Buy, 5, 1, false);
    RunTwo(c, Init(c), e, f);
    assert Locking[..1] == [e];
    assert Step(c, Init(c), e) == b1 by { AliveInit(c); }
    assert Recover(c, b1, false) == b1 by { NotInSnapshot(c, b1); }
    var b2 := OnNew(c, b1, f);
    assert Step(c, b1, f) == b2;
    BareNext(c, b0, b1, 1, Buy, 5, 1);
    Arrives(c, b1, 2, Sell, 5, 1, false);
    LockingBests(c, b0, b1, b2);
    BareNext(c, b1, b2, 2, Sell, 5, 1);
  }

  lemma LockingBests(c: Config, b0: Book, b1: Book, b2: Book)
    requires !c.repair && c.maxPx > 6 && Bare(b0) && Shape(c, b0) && Bare(b1) && Shape(c, b1)
    requires b0.bestBid == 0 && b0.bestAsk == c.maxPx - 1
    requires b1 == AddReal(c, b0.(orders := b1.orders, nextId := b0.nextId + 1), b0.nextId, 1, Buy, 5, 1)
    requires b2 == AddReal(c, b1.(orders := b2.orders, nextId := b1.nextId + 1), b1.nextId, 2, Sell, 5, 1)
    ensures b2.bestBid == 5 && b2.bestAsk == 5
  {
    hide AddReal, Book.Lev, SweepRange, Uncrosses;
    var i0 := b0.(orders := b1.orders, nextId := b0.nextId + 1);
    var i1 := b1.(orders := b2.orders, nextId := b1.nextId + 1);
    SameBare(c, b0, i0);
    SameBare(c, b1, i1);
    AddBests(c, i0, b0.nextId, 1, Buy, 5, 1);
    AddBests(c, i1, b1.nextId, 2, Sell, 5, 1);
  }

  lemma RecoverApplied(c: Config, b: Book, recovery: bool)
    ensures Recover(c, b, recovery).applied == b.applied
  {}

  lemma LockingOrderly(c: Config)
    requires !c.repair && c.maxPx > 6
    ensures OrderlyRun(c, Init(c), Locking)
  {
    hide Run, RestsAcross, Init, Recover;
    LockingInside(c);
    assert Locking[..1][..0] == [];
    RecoverApplied(c, Run(c, Init(c), []), false);
    RecoverApplied(c, Run(c, Init(c), Locking[..1]), false);
    assert OrderlyRun(c, Init(c), []) && OrderlyRun(c, Init(c), Locking[..1]);
  }

  /** Simulation: bid 5, ask 5, and an untimed sell of ours at 5: it rests at the best bid. */
  lemma StrayReached(c: Config)
    requires !c.repair && c.maxPx > 6
    ensures var b := Run(c, Init(c), Locking + [FromUs(Sale)]);
            !b.dead && !NoStray(b)
  {
    hide Run, NoStray, OrderlyRun, Init, Book.Lev;
    var b := Run(c, Init(c), Locking);
    LockingInside(c);
    LockingOrderly(c);
    NoStrayRun(c, Locking);
    assert Run(c, Init(c), Locking + [FromUs(Sale)]) == Step(c, b, FromUs(Sale)) by { RunSale(c); }
    assert !ApplySim(c, b, Sale, 0).dead by { SaleLives(c, b); }
    hide ApplySim;
    AppliedKeepsIff(c, b, Sale, 0);
  }

  lemma RunSale(c: Config)
    ensures Run(c, Init(c), Locking + [FromUs(Sale)]) == Step(c, Run(c, Init(c), Locking), FromUs(Sale))
  {
    hide Step, Init;
    assert (Locking + [FromUs(Sale)])[..2] == Locking;
  }

  lemma SaleLives(c: Config, b: Book)
    requires !b.dead
    ensures !ApplySim(c, b, Sale, 0).dead
  {}
}
