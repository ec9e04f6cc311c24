/**
  The comparison run: one feed through the live order book, behind its time gate, and the reference
  market side by side, as obcmp's main loop feeds them.
 */
module Obcmp {
  import opened Levels
  import opened Book
  import RB = RefBook
  import OB
  import FG = FeedGate
  import opened NonInterference
  import opened Refinement

  /** The book holds what the market holds: the same orders, the same size everywhere, the same inside. */
  ghost predicate Matches(b: Book, r: RB.Ref) {
    && !b.dead
    && (forall x :: x in r.ord <==> Held(b, b.orders, x))
    && (forall x :: x in r.ord ==> r.ord[x] == OrdOf(b.orders[x]))
    && (forall s, p :: RB.Get(r.Lv(s), p) == RealSize(b.Lev(s, p)))
    && (forall bid, ask :: RB.IsTop(r, bid, ask) ==> b.bestBid == bid < ask == b.bestAsk)
  }

  /** Behind the gate the book matches the reference market fed with what passes; with every record
      passing, the market fed with the whole feed. */
  lemma GatedBookIsReferenceMarket(c: Config, es: seq<Event>)
    requires c.repair && c.maxPx >= 2
    requires ProperFeed(c, FG.Passed(c, es)) && ProperRun(Init(c), FG.Passed(c, es))
    ensures Matches(FG.GatedRun(c, es), RB.RefRun(FG.Passed(c, es)))
    ensures FG.AllPass(c, es) ==> Matches(FG.GatedRun(c, es), RB.RefRun(es))
  {
    hide Run, RB.RefRun, ProperFeed, ProperRun, FG.GatedRun, FG.Passed, FG.AllPass, Book.Lev, RealSize, RB.Get, Held;
    FG.GatedIsRun(c, es);
    LiveBookIsReferenceMarket(c, FG.Passed(c, es));
    if FG.AllPass(c, es) { FG.AllPassed(c, es); }
  }

  /** The market already says what the record says. */
  predicate NoNews(r: RB.Ref, e: Event)
    requires e.Record?
  {
    if e.action.Delete? || e.qty == 0 || e.px <= 0 || e.side.None? then e.xoid !in r.ord
    else e.xoid in r.ord && r.ord[e.xoid] == OrderOf(e)
  }

  /** A record the gate drops still reaches the reference market: the two agree afterwards exactly when it
      was no news to the market. */
  lemma DroppedAgreesIff(b: Book, r: RB.Ref, e: Event)
    requires e.Record? && Agree(b, b.orders, r) && RB.Valid(r) && RB.Strict(r)
    ensures Agree(b, b.orders, RB.Apply(r, e)) <==> NoNews(r, e)
  {
    hide RB.Valid, RB.Strict, Agree, RB.Apply;
    var q := RB.Apply(r, e);
    RB.ApplyKeeps(r, e);
    OrdersSame(r, e);
    if NoNews(r, e) { SameOrdersSameLevels(b, b.orders, q, r); }
    if Agree(b, b.orders, q) { SameHoldings(b, r, q); }
  }

  lemma OrdersSame(r: RB.Ref, e: Event)
    requires e.Record? && RB.Valid(r) && RB.Strict(r)
    ensures RB.Apply(r, e).ord == r.ord <==> NoNews(r, e)
  {
    hide RB.Valid, RB.Strict, RB.Drop, RB.Arrive;
    RB.DropValid(r, e.xoid);
    if !(e.action.Delete? || e.qty == 0 || e.px <= 0 || e.side.None?) {
      AppliedHolds(r, e);
      if NoNews(r, e) { SameOrders(r, e); }
    }
  }

  /** A book describes one set of orders. */
  lemma SameHoldings(b: Book, r: RB.Ref, q: RB.Ref)
    requires Agree(b, b.orders, r) && Agree(b, b.orders, q)
    ensures q.ord == r.ord
  {
    hide RealSize, RB.Get, Held;
  }

  /** Feeding the two objects record by record ends in the states the runs describe, and on a proper live
      feed that passes the gate the two match. */
  method Compare(c: Config, es: seq<Event>) returns (ob: OB.OB, ref: RB.Market)
    requires c.maxPx >= 2
    ensures fresh(ob) && fresh(ref)
    ensures ob.View() == FG.GatedRun(c, es) && ref.View() == RB.RefRun(es)
    ensures c.repair && FG.AllPass(c, es) && ProperFeed(c, es) && ProperRun(Init(c), es) ==>
            Matches(ob.View(), ref.View())
  {
    hide FG.GatedRun, FG.GateAfter, RB.RefRun, ProperFeed, ProperRun, FG.AllPass, Matches, RB.Valid, RB.Strict;
    ob := new OB.OB(c);
    ref := new RB.Market();
    var feed := new FG.Feed(ob);
    StartsEmpty(c);
    for i := 0 to |es|
      invariant fresh(feed) && fresh(ob) && fresh(ref) && feed.ob == ob && ob.Valid() && ob.c == c
      invariant FG.Gate(feed.lastTx, feed.lastRecovery) == FG.GateAfter(c, es[..i])
      invariant ob.View() == FG.GatedRun(c, es[..i]) && ref.View() == RB.RefRun(es[..i])
    {
      RunNext(c, es, i);
      RB.RefInvariant(es[..i]);
      feed.DataHandler(es[i]);
      if es[i].Record? { ref.ApplyRecord(es[i]); }
    }
    assert es[..|es|] == es;
    if c.repair && FG.AllPass(c, es) && ProperFeed(c, es) && ProperRun(Init(c), es) {
      FG.AllPassed(c, es);
      GatedBookIsReferenceMarket(c, es);
    }
  }

  lemma StartsEmpty(c: Config)
    ensures FG.GatedRun(c, []) == Init(c) && RB.RefRun([]) == RB.Empty && FG.GateAfter(c, []) == FG.Gate(0, 0)
  {}

  lemma RunNext(c: Config, es: seq<Event>, i: nat)
    requires i < |es|
    ensures var p, g := es[..i], FG.GateAfter(c, es[..i + 1]);
            && g == FG.Noted(c, FG.GateAfter(c, p), es[i])
            && FG.GatedRun(c, es[..i + 1]) ==
               (if FG.Passes(c, g, es[i]) then Step(c, FG.GatedRun(c, p), es[i]) else FG.GatedRun(c, p))
            && RB.RefRun(es[..i + 1]) == (if es[i].Record? then RB.Apply(RB.RefRun(p), es[i]) else RB.RefRun(p))
  {
    hide Step, RB.Apply, FG.Noted, FG.Passes;
    var p := es[..i + 1];
    assert p[..|p| - 1] == es[..i] && p[|p| - 1] == es[i];
  }
}
