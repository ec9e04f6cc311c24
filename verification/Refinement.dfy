/**
  The order book in live trading and the reference market, fed the same records, hold
  the same orders, the same size at every side and price, and the same inside.
 */
module Refinement {
  import opened Levels
  import opened Book
  import opened NonInterference
  import opened BookPrices
  import opened BookIndex
  import RB = RefBook

  /** The order an entry describes rests where the entry says. */
  ghost predicate Held(b: Book, om: map<nat, Info>, x: nat) {
    x in om && Order(Real(om[x].id), x, om[x].sz) in b.Lev(om[x].side, om[x].px)
  }

  function OrdOf(o: Info): RB.Ord { RB.Ord(o.side, o.px, o.sz) }

  /** Same orders, and the same total at every side and price. */
  ghost predicate Agree(b: Book, om: map<nat, Info>, r: RB.Ref) {
    && (forall x :: x in r.ord <==> Held(b, om, x))
    && (forall x :: x in r.ord ==> r.ord[x] == OrdOf(om[x]))
    && (forall s, p :: RB.Get(r.Lv(s), p) == RealSize(b.Lev(s, p)))
  }

  // ----- sizes of one level

  lemma {:induction false} SizeConcat(a: Level, b: Level)
    ensures RealSize(a + b) == RealSize(a) + RealSize(b)
  {
    if a == [] {
      assert a + b == b;
    } else {
      assert (a + b)[1..] == a[1..] + b;
      SizeConcat(a[1..], b);
    }
  }

  lemma {:induction false} SizeRemove(q: Level, n: nat)
    ensures RealSize(Remove(q, Real(n))) ==
            RealSize(q) - if Holds(q, Real(n)) then q[Find(q, Real(n))].sz else 0
  {
    if q != [] && q[0].id != Real(n) {
      SizeRemove(q[1..], n);
      assert Remove(q, Real(n))[1..] == Remove(q[1..], Real(n));
    }
  }

  lemma {:induction false} SizeResize(q: Level, n: nat, sz: int)
    requires Holds(q, Real(n))
    ensures RealSize(Resize(q, Real(n), sz)) == RealSize(q) - q[Find(q, Real(n))].sz + sz
  {
    if q[0].id == Real(n) {
      assert Resize(q, Real(n), sz)[1..] == q[1..];
    } else {
      SizeResize(q[1..], n, sz);
      assert Resize(q, Real(n), sz)[1..] == Resize(q[1..], Real(n), sz);
    }
  }

  lemma {:induction false} SizePositive(q: Level)
    requires Positive(q)
    ensures RealSize(q) >= 0
    ensures RealSize(q) > 0 <==> HasReal(q)
  {
    if q != [] {
      assert q == [q[0]] + q[1..];
      assert forall o :: o in q[1..] ==> o in q;
      SizePositive(q[1..]);
      assert q[0] in q;
      if HasReal(q) && q[0].IsSim() {
        var i :| 0 <= i < |q| && !q[i].IsSim();
        assert q[1..][i - 1] == q[i];
      }
      if HasReal(q[1..]) {
        var i :| 0 <= i < |q[1..]| && !q[1..][i].IsSim();
        assert q[i + 1] == q[1..][i];
      }
    }
  }

  lemma NoRealNoSize(q: Level)
    requires !HasReal(q)
    ensures RealSize(q) == 0
  {
    if q != [] {
      assert forall i :: 0 <= i < |q[1..]| ==> q[1..][i] == q[i + 1];
      assert q[0].IsSim();
      NoRealNoSize(q[1..]);
    }
  }

  /** The queues of `r` are those of `b` without the order of entry `o`. */
  ghost predicate OnlyRemoved(b: Book, r: Book, o: Info) {
    forall t, p, u :: u in r.Lev(t, p) <==>
                      u in b.Lev(t, p) && !(t == o.side && p == o.px && u.id == Real(o.id))
  }

  /** The queues of `r` are those of `b` with the order of entry `o` at size `sz`. */
  ghost predicate OnlyResized(b: Book, r: Book, o: Info, x: nat, sz: int) {
    forall t, p, u :: u in r.Lev(t, p) <==>
                      if t == o.side && p == o.px
                      then (u in b.Lev(t, p) && u.id != Real(o.id)) || u == Order(Real(o.id), x, sz)
                      else u in b.Lev(t, p)
  }

  // ----- cancelling an order

  /** A held order is the one its level finds under its id. */
  lemma HeldFinds(b: Book, om: map<nat, Info>, x: nat)
    requires x in om && Listed(b, om)
    requires forall y, z :: y in om && z in om && om[y].id == om[z].id ==> y == z
    ensures var q := b.Lev(om[x].side, om[x].px);
            && (Held(b, om, x) <==> Holds(q, Real(om[x].id)))
            && (Holds(q, Real(om[x].id)) ==>
                  q[Find(q, Real(om[x].id))] == Order(Real(om[x].id), x, om[x].sz))
  {
    var q := b.Lev(om[x].side, om[x].px);
    if Holds(q, Real(om[x].id)) {
      OwnerOf(b, q[Find(q, Real(om[x].id))], x, om);
    }
    if Held(b, om, x) {
      var i :| 0 <= i < |q| && q[i] == Order(Real(om[x].id), x, om[x].sz);
    }
  }

  lemma CancelFacts(c: Config, b: Book, n: nat, s: Side, px: int)
    requires Shape(c, b) && OnLadder(c, px)
    ensures var r := CancelReal(c, b, n, s, px);
            forall t, k :: r.Lev(t, k) ==
                           if t == s && k == px then Remove(b.Lev(s, px), Real(n)) else b.Lev(t, k)
  {
    hide HasReal, Rewalk, Remove;
    var q := b.Lev(s, px);
    EditLevels(b, s, px, Remove(q, Real(n)));
    RewalkLevels(c, b.WithLev(s, px, Remove(q, Real(n))), s, px);
    if !Holds(q, Real(n)) { RemoveAbsent(q, Real(n)); }
  }

  lemma CancelAgrees(c: Config, b: Book, om: map<nat, Info>, top: nat, r: RB.Ref, x: nat)
    requires GoodFor(c, b, om, top) && Agree(b, om, r) && RB.Valid(r) && x in om
    ensures Agree(CancelReal(c, b, om[x].id, om[x].side, om[x].px), om - {x}, RB.Drop(r, x))
  {
    hide CancelReal, GoodFor, RealSize, RB.Valid, Book.Lev, RB.Drop, RB.Get, OnlyRemoved;
    var b' := CancelReal(c, b, om[x].id, om[x].side, om[x].px);
    CancelMembers(c, b, om, top, x);
    CancelHeld(b, b', om, top, c, x);
    CancelSizes(b, b', om, r, x);
    RB.DropValid(r, x);
  }

  lemma CancelMembers(c: Config, b: Book, om: map<nat, Info>, top: nat, x: nat)
    requires GoodFor(c, b, om, top) && x in om
    ensures var b' := CancelReal(c, b, om[x].id, om[x].side, om[x].px);
            && (forall t, k :: !(t == om[x].side && k == om[x].px) ==> b'.Lev(t, k) == b.Lev(t, k))
            && RealSize(b'.Lev(om[x].side, om[x].px)) ==
               RealSize(b.Lev(om[x].side, om[x].px)) - (if Held(b, om, x) then om[x].sz else 0)
            && OnlyRemoved(b, b', om[x])
  {
    hide CancelReal, HasReal, Remove, Find, RealSize, Book.Lev, Complete, Sorted, Positive;
    hide OnRungs, Bounded, Inside, Uncrossed;
    var o := om[x];
    var q := b.Lev(o.side, o.px);
    CancelFacts(c, b, o.id, o.side, o.px);
    RemoveLevel(q, Real(o.id));
    SizeRemove(q, o.id);
    HeldFinds(b, om, x);
  }

  lemma CancelHeld(b: Book, r: Book, om: map<nat, Info>, top: nat, c: Config, x: nat)
    requires GoodFor(c, b, om, top) && x in om
    requires OnlyRemoved(b, r, om[x])
    ensures forall y :: Held(r, om - {x}, y) <==> y != x && Held(b, om, y)
  {
    hide Book.Lev, Prices, Fifo, Complete;
    assert forall y, z :: y in om && z in om && om[y].id == om[z].id ==> y == z;
    hide GoodFor;
  }

  lemma CancelSizes(b: Book, b': Book, om: map<nat, Info>, r: RB.Ref, x: nat)
    requires Agree(b, om, r) && RB.Valid(r) && x in om
    requires forall t, k :: !(t == om[x].side && k == om[x].px) ==> b'.Lev(t, k) == b.Lev(t, k)
    requires RealSize(b'.Lev(om[x].side, om[x].px)) ==
             RealSize(b.Lev(om[x].side, om[x].px)) - if Held(b, om, x) then om[x].sz else 0
    ensures forall s, p :: RB.Get(RB.Drop(r, x).Lv(s), p) == RealSize(b'.Lev(s, p))
  {
    hide Book.Lev, RealSize, Held, RB.SumAt;
    var d := RB.Drop(r, x);
    RB.DropValid(r, x);
    forall s, p ensures RB.Get(d.Lv(s), p) == RealSize(b'.Lev(s, p)) {
      assert RB.Get(r.Lv(s), p) == RealSize(b.Lev(s, p));
      if x in r.ord && s == om[x].side && p == om[x].px {
        RB.SumRemove(r.ord, x, s, p);
        assert RB.Get(d.Lv(s), p) == RB.SumAt(d.ord, s, p);
        assert RB.Get(r.Lv(s), p) == RB.SumAt(r.ord, s, p);
      }
    }
  }

  // ----- adding an order

  /** In live trading the swept levels that hold real orders are exactly the reached ones. */
  lemma SweepReach(c: Config, b: Book, o: RB.Ord, p: int)
    requires Prices(c, b) && c.repair && OnLadder(c, o.px)
    ensures var (lo, hi) := SweepRange(c, b, o.side, o.px);
            && (lo <= p <= hi ==> RB.Reaches(o, p))
            && (HasReal(b.Lev(Other(o.side), p)) && RB.Reaches(o, p) ==> lo <= p <= hi)
  {
    hide HasReal;
  }

  lemma AddHeld(c: Config, b: Book, om: map<nat, Info>, n: nat, r: RB.Ref, x: nat, o: RB.Ord)
    requires GoodFor(c, b, om, n) && c.repair && Agree(b, om, r) && x !in om && OnLadder(c, o.px) && o.qty > 0
    ensures var b' := AddReal(c, b, n, x, o.side, o.px, o.qty);
            var om' := om[x := Info(n, o.px, o.qty, o.side)];
            forall y :: Held(b', om', y) <==> y == x || (y in r.ord && !RB.Crosses(o, r.ord[y]))
  {
    hide AddReal, HasReal, RealSize, SweepRange, Book.Lev, RB.Get, Complete, Fifo, OnRungs, Bounded, Inside, Uncrossed;
    var b' := AddReal(c, b, n, x, o.side, o.px, o.qty);
    var om' := om[x := Info(n, o.px, o.qty, o.side)];
    AddFacts(c, b, n, x, o.side, o.px, o.qty);
    var u := Order(Real(n), x, o.qty);
    assert u in b.Lev(o.side, o.px) + [u];
    forall y | y != x
      ensures Held(b', om', y) <==> y in r.ord && !RB.Crosses(o, r.ord[y])
    {
      if y in om {
        assert om'[y] == om[y];
        SweepReach(c, b, o, om[y].px);
        var v := Order(Real(om[y].id), y, om[y].sz);
        if v in b.Lev(om[y].side, om[y].px) { MemberHasReal(b.Lev(om[y].side, om[y].px), v); }
      }
    }
  }

  lemma MemberHasReal(q: Level, o: Order)
    requires o in q && !o.IsSim()
    ensures HasReal(q)
  {
    var i :| 0 <= i < |q| && q[i] == o;
  }

  lemma AddSizes(c: Config, b: Book, om: map<nat, Info>, n: nat, r: RB.Ref, x: nat, o: RB.Ord)
    requires GoodFor(c, b, om, n) && c.repair && Agree(b, om, r) && x !in om && OnLadder(c, o.px) && o.qty > 0
    ensures var b' := AddReal(c, b, n, x, o.side, o.px, o.qty);
            forall s, p :: RB.Get(RB.Uncross(RB.Insert(r, x, o), o).Lv(s), p) == RealSize(b'.Lev(s, p))
  {
    hide AddReal, HasReal, RealSize, SweepRange, Book.Lev, Complete, Fifo, Listed, OnRungs, Bounded;
    hide Inside, Uncrossed, Held;
    var b' := AddReal(c, b, n, x, o.side, o.px, o.qty);
    AddFacts(c, b, n, x, o.side, o.px, o.qty);
    var u := Order(Real(n), x, o.qty);
    var v := RB.Uncross(RB.Insert(r, x, o), o);
    forall s, p ensures RB.Get(v.Lv(s), p) == RealSize(b'.Lev(s, p)) {
      assert RB.Get(r.Lv(s), p) == RealSize(b.Lev(s, p));
      if s == o.side {
        SizeConcat(b.Lev(s, p), [u]);
        OneSize(u);
      } else {
        SweepReach(c, b, o, p);
        EmptySize();
        if !HasReal(b.Lev(s, p)) { NoRealNoSize(b.Lev(s, p)); }
      }
    }
  }

  lemma OneSize(u: Order)
    requires !u.IsSim()
    ensures RealSize([u]) == u.sz
  {
    assert [u][1..] == [];
  }

  lemma EmptySize()
    ensures RealSize([]) == 0
  {}

  lemma NotHeld(b: Book, om: map<nat, Info>, r: RB.Ref, x: nat)
    requires Agree(b, om, r) && x !in om
    ensures x !in r.ord
  {}

  lemma AddAgrees(c: Config, b: Book, om: map<nat, Info>, n: nat, r: RB.Ref, x: nat, o: RB.Ord)
    requires GoodFor(c, b, om, n) && c.repair && Agree(b, om, r) && RB.Valid(r)
    requires x !in om && OnLadder(c, o.px) && o.qty > 0
    ensures Agree(AddReal(c, b, n, x, o.side, o.px, o.qty), om[x := Info(n, o.px, o.qty, o.side)],
                  RB.Arrive(r, x, o))
  {
    hide AddReal, GoodFor, RB.Valid, RB.Arrive, Book.Lev, RealSize, Held, RB.Get, RB.Uncross;
    NotHeld(b, om, r, x);
    RB.ArriveUncrosses(r, x, o);
    AddHeld(c, b, om, n, r, x, o);
    AddSizes(c, b, om, n, r, x, o);
    UncrossedOrders(r, x, o);
  }

  lemma UncrossedOrders(r: RB.Ref, x: nat, o: RB.Ord)
    requires x !in r.ord
    ensures var u := RB.Uncross(RB.Insert(r, x, o), o);
            && (forall y :: y in u.ord <==> y == x || (y in r.ord && !RB.Crosses(o, r.ord[y])))
            && (forall y :: y in u.ord ==> u.ord[y] == if y == x then o else r.ord[y])
  {}

  // ----- shrinking an order

  lemma ResizeAgrees(c: Config, b: Book, om: map<nat, Info>, top: nat, r: RB.Ref, x: nat, sz: int)
    requires GoodFor(c, b, om, top) && Agree(b, om, r) && RB.Valid(r) && RB.Strict(r)
    requires x in om && Held(b, om, x) && sz > 0
    ensures Agree(ResizeReal(c, b, om[x].id, om[x].side, om[x].px, sz), om[x := om[x].(sz := sz)],
                  RB.Arrive(RB.Drop(r, x), x, RB.Ord(om[x].side, om[x].px, sz)))
  {
    hide ResizeReal, GoodFor, RealSize, RB.Valid, Book.Lev, RB.Drop, RB.Arrive, RB.Get, Held, RB.Strict, OnlyResized;
    ResizeArrival(r, x, sz);
    var b' := ResizeReal(c, b, om[x].id, om[x].side, om[x].px, sz);
    ResizeMembers(c, b, om, top, x, sz);
    ResizeHeld(c, b, b', om, top, x, sz);
    ResizeSizes(b, b', om, r, x, sz);
  }

  lemma ResizeMembers(c: Config, b: Book, om: map<nat, Info>, top: nat, x: nat, sz: int)
    requires GoodFor(c, b, om, top) && x in om && Held(b, om, x) && sz > 0
    ensures var b' := ResizeReal(c, b, om[x].id, om[x].side, om[x].px, sz);
            && (forall t, k :: !(t == om[x].side && k == om[x].px) ==> b'.Lev(t, k) == b.Lev(t, k))
            && RealSize(b'.Lev(om[x].side, om[x].px)) == RealSize(b.Lev(om[x].side, om[x].px)) - om[x].sz + sz
            && OnlyResized(b, b', om[x], x, sz)
  {
    hide ResizeReal, HasReal, Resize, Find, RealSize, Book.Lev, Complete, Sorted, Positive;
    hide OnRungs, Bounded, Inside, Uncrossed;
    var e := om[x];
    var q := b.Lev(e.side, e.px);
    HeldFinds(b, om, x);
    ResizeFacts(c, b, e.id, e.side, e.px, sz);
    ResizeLevel(q, Real(e.id), sz);
    SizeResize(q, e.id, sz);
  }

  lemma ResizeHeld(c: Config, b: Book, b': Book, om: map<nat, Info>, top: nat, x: nat, sz: int)
    requires GoodFor(c, b, om, top) && x in om && Held(b, om, x)
    requires OnlyResized(b, b', om[x], x, sz)
    ensures forall y :: Held(b', om[x := om[x].(sz := sz)], y) <==> Held(b, om, y)
  {
    hide Book.Lev, Prices, Fifo, Complete;
    assert forall y, z :: y in om && z in om && om[y].id == om[z].id ==> y == z;
  }

  /** Replacing an order by a smaller one at its own price only changes its size and its level's total. */
  lemma ResizeArrival(r: RB.Ref, x: nat, sz: int)
    requires RB.Valid(r) && RB.Strict(r) && x in r.ord && sz > 0
    ensures var a := RB.Arrive(RB.Drop(r, x), x, r.ord[x].(qty := sz));
            && (forall y :: y in a.ord <==> y in r.ord)
            && (forall y :: y in a.ord ==> a.ord[y] == if y == x then r.ord[x].(qty := sz) else r.ord[y])
            && (forall s, p :: RB.Get(a.Lv(s), p) ==
                               RB.Get(r.Lv(s), p) +
                               if s == r.ord[x].side && p == r.ord[x].px then sz - r.ord[x].qty else 0)
  {
    hide RB.Valid, RB.SumAt, RB.Drop, RB.Uncross, RB.TopCrossed, RB.Insert, RB.Get;
    var o := r.ord[x].(qty := sz);
    var d := RB.Drop(r, x);
    RB.DropValid(r, x);
    RB.InsertValid(d, x, o);
    var i := RB.Insert(d, x, o);
    InsertFacts(d, x, o);
    if RB.TopCrossed(i, o) { StrictNotCrossed(r, d, i, x, o); }
    forall s, p ensures RB.Get(i.Lv(s), p) ==
                        RB.Get(r.Lv(s), p) +
                        if s == o.side && p == o.px then sz - r.ord[x].qty else 0
    {
      ResizeTotals(r, d, x, o, s, p);
    }
  }

  lemma InsertFacts(d: RB.Ref, x: nat, o: RB.Ord)
    ensures RB.Insert(d, x, o).ord == d.ord[x := o]
    ensures forall s, p :: RB.Get(RB.Insert(d, x, o).Lv(s), p) ==
                           RB.Get(d.Lv(s), p) + if s == o.side && p == o.px then o.qty else 0
  {}

  lemma ResizeTotals(r: RB.Ref, d: RB.Ref, x: nat, o: RB.Ord, s: Side, p: int)
    requires RB.Valid(r) && RB.Valid(d) && x in r.ord && d.ord == r.ord - {x}
    ensures RB.Get(d.Lv(s), p) ==
            RB.Get(r.Lv(s), p) - if s == r.ord[x].side && p == r.ord[x].px then r.ord[x].qty else 0
  {
    hide RB.SumAt;
    RB.SumRemove(r.ord, x, s, p);
    assert RB.Get(d.Lv(s), p) == RB.SumAt(d.ord, s, p);
    assert RB.Get(r.Lv(s), p) == RB.SumAt(r.ord, s, p);
  }

  lemma StrictNotCrossed(r: RB.Ref, d: RB.Ref, i: RB.Ref, x: nat, o: RB.Ord)
    requires RB.Strict(r) && x in r.ord && d.ord == r.ord - {x} && i.ord == d.ord[x := o]
    requires o.side == r.ord[x].side && o.px == r.ord[x].px && RB.Valid(i)
    ensures !RB.TopCrossed(i, o)
  {
    hide RB.Valid;
    forall p | p in i.Lv(Other(o.side)) ensures !RB.Reaches(o, p) {
      RB.LevelPresent(i, Other(o.side), p);
      var y :| y in i.ord && i.ord[y].side == Other(o.side) && i.ord[y].px == p;
      assert i.ord[y] == r.ord[y];
    }
  }

  lemma ResizeSizes(b: Book, b': Book, om: map<nat, Info>, r: RB.Ref, x: nat, sz: int)
    requires Agree(b, om, r) && x in om && Held(b, om, x) && RB.Valid(r) && RB.Strict(r) && sz > 0
    requires forall t, k :: !(t == om[x].side && k == om[x].px) ==> b'.Lev(t, k) == b.Lev(t, k)
    requires RealSize(b'.Lev(om[x].side, om[x].px)) == RealSize(b.Lev(om[x].side, om[x].px)) - om[x].sz + sz
    ensures var a := RB.Arrive(RB.Drop(r, x), x, RB.Ord(om[x].side, om[x].px, sz));
            forall s, p :: RB.Get(a.Lv(s), p) == RealSize(b'.Lev(s, p))
  {
    hide Book.Lev, RealSize, RB.Valid, RB.Arrive, RB.Drop, RB.Get;
    ResizeArrival(r, x, sz);
    forall s, p ensures RB.Get(r.Lv(s), p) == RealSize(b.Lev(s, p)) {}
  }

  // ----- records and runs

  /** The record says of a resting order what the book already holds. */
  ghost predicate Repeats(b: Book, e: Event) {
    e.Record? && e.side.Some? && Held(b, b.orders, e.xoid) && OrdOf(b.orders[e.xoid]) == OrderOf(e)
  }

  function OrderOf(e: Event): RB.Ord
    requires e.Record? && e.side.Some?
  {
    RB.Ord(e.side.value, e.px, e.qty)
  }

  /** No order rests anywhere. */
  ghost predicate Vacant(b: Book) { forall s, p :: b.Lev(s, p) == [] }

  /**
    A record the two books can agree on: with a side, on the ladder and of positive size unless it
    deletes; a New of an unknown id, or one that repeats a resting order; a Change of a known order
    that keeps its side and either still rests or moves to a new place in the queue. A snapshot
    consists of New records and, like a channel reset, begins on a market without orders.
   */
  ghost predicate WellFormed(c: Config, b: Book, e: Event) {
    match e
    case Record(a, x, side, px, qty, recovery, _) =>
      && (recovery ==> a.New? && (b.inRecovery || Vacant(b)))
      && (!a.Delete? ==> OnLadder(c, px) && qty > 0 && side.Some?)
      && (a.New? ==> x !in b.orders || Repeats(b, e))
      && (a.Change? ==> x in b.orders && side.value == b.orders[x].side &&
                        (Held(b, b.orders, x) || Replaces(b.orders[x], e)))
    case Exec(_, _, _, sz, _) => sz > 0
    case ChannelReset => Vacant(b)
    case _ => true
  }

  lemma SameAgree(b: Book, b': Book, om: map<nat, Info>, r: RB.Ref)
    requires b'.bids == b.bids && b'.asks == b.asks && Agree(b, om, r)
    ensures Agree(b', om, r)
  {
    hide RealSize, RB.Get;
    assert forall s, p :: b'.Lev(s, p) == b.Lev(s, p);
  }

  lemma CancelProcessed(c: Config, b: Book, om: map<nat, Info>, top: nat, r: RB.Ref, x: nat, tim: nat)
    requires GoodFor(c, b, om, top) && Agree(b, om, r) && RB.Valid(r) && x in om
    requires !Process(c, b, PCancel(om[x].id, om[x].side, om[x].px), tim).dead
    ensures Agree(Process(c, b, PCancel(om[x].id, om[x].side, om[x].px), tim), om - {x}, RB.Drop(r, x))
  {
    hide CancelReal, Process, Agree, RB.Valid, Prices, Fifo, Listed, Complete;
    ProcessBare(c, b, PCancel(om[x].id, om[x].side, om[x].px), tim);
    var b2 := b.(boundary := Max(b.boundary, tim));
    SameGood(c, b, b2, om, top);
    SameAgree(b, b2, om, r);
    CancelAgrees(c, b2, om, top, r, x);
  }

  lemma AddProcessed(c: Config, b: Book, om: map<nat, Info>, n: nat, r: RB.Ref, x: nat, o: RB.Ord, tim: nat)
    requires GoodFor(c, b, om, n) && c.repair && Agree(b, om, r) && RB.Valid(r)
    requires x !in om && OnLadder(c, o.px) && o.qty > 0
    requires !Process(c, b, PAdd(n, x, o.side, o.px, o.qty), tim).dead
    ensures Agree(Process(c, b, PAdd(n, x, o.side, o.px, o.qty), tim),
                  om[x := Info(n, o.px, o.qty, o.side)], RB.Arrive(r, x, o))
  {
    hide AddReal, Process, Agree, RB.Valid, RB.Arrive, Prices, Fifo, Listed, Complete;
    ProcessBare(c, b, PAdd(n, x, o.side, o.px, o.qty), tim);
    var b2 := b.(boundary := Max(b.boundary, tim));
    SameGood(c, b, b2, om, n);
    SameAgree(b, b2, om, r);
    AddAgrees(c, b2, om, n, r, x, o);
  }

  lemma ResizeProcessed(c: Config, b: Book, om: map<nat, Info>, top: nat, r: RB.Ref, x: nat, sz: int, tim: nat)
    requires GoodFor(c, b, om, top) && Agree(b, om, r) && RB.Valid(r) && RB.Strict(r)
    requires x in om && Held(b, om, x) && sz > 0
    requires !Process(c, b, PResize(om[x].id, om[x].side, om[x].px, sz), tim).dead
    ensures Agree(Process(c, b, PResize(om[x].id, om[x].side, om[x].px, sz), tim), om[x := om[x].(sz := sz)],
                  RB.Arrive(RB.Drop(r, x), x, RB.Ord(om[x].side, om[x].px, sz)))
  {
    hide ResizeReal, Process, RB.Valid, RB.Strict, RB.Arrive, Prices, Fifo, Listed, Complete;
    ProcessBare(c, b, PResize(om[x].id, om[x].side, om[x].px, sz), tim);
    var b2 := b.(boundary := Max(b.boundary, tim));
    SameGood(c, b, b2, om, top);
    SameAgree(b, b2, om, r);
    assert b2.Lev(om[x].side, om[x].px) == b.Lev(om[x].side, om[x].px);
    ResizeAgrees(c, b2, om, top, r, x, sz);
  }

  lemma NewAgrees(c: Config, b: Book, r: RB.Ref, e: Event)
    requires Good(c, b) && c.repair && Agree(b, b.orders, r) && RB.Valid(r) && RB.Strict(r)
    requires e.Record? && e.action.New? && WellFormed(c, b, e) && !OnNew(c, b, e).dead && e.xoid !in b.orders
    ensures Agree(OnNew(c, b, e), OnNew(c, b, e).orders, RB.Apply(r, e))
  {
    var o := RB.Ord(e.side.value, e.px, e.qty);
    var b1 := b.(orders := b.orders[e.xoid := Info(b.nextId, e.px, e.qty, o.side)], nextId := b.nextId + 1);
    hide Process, Prices, Fifo, Listed, Complete, RB.Valid, RB.Arrive, Bare;
    NotHeld(b, b.orders, r, e.xoid);
    hide Agree;
    SameGood(c, b, b1, b.orders, b.nextId);
    SameAgree(b, b1, b.orders, r);
    AddGood(c, b1, b.nextId, e.xoid, o.side, e.px, e.qty, b.orders, e.tim);
    AddProcessed(c, b1, b.orders, b.nextId, r, e.xoid, o, e.tim);
  }

  lemma DeleteAgrees(c: Config, b: Book, r: RB.Ref, e: Event)
    requires Good(c, b) && Agree(b, b.orders, r) && RB.Valid(r)
    requires e.Record? && e.action.Delete? && !OnDelete(c, b, e).dead
    ensures Agree(OnDelete(c, b, e), OnDelete(c, b, e).orders, RB.Apply(r, e))
  {
    hide Process, Prices, Fifo, Listed, Complete, RB.Valid, Bare, RB.Drop;
    if e.xoid in b.orders {
      hide Agree;
      var o := b.orders[e.xoid];
      CancelGood(c, b, e.xoid, b.orders, b.nextId, e.tim);
      CancelProcessed(c, b, b.orders, b.nextId, r, e.xoid, e.tim);
      var b1 := Process(c, b, PCancel(o.id, o.side, o.px), e.tim);
      SameAgree(b1, b1.(orders := b1.orders - {e.xoid}), b.orders - {e.xoid}, RB.Drop(r, e.xoid));
    } else {
      NotHeld(b, b.orders, r, e.xoid);
      DropAbsent(r, e.xoid);
    }
  }

  lemma DropAbsent(r: RB.Ref, x: nat)
    requires x !in r.ord
    ensures RB.Drop(r, x) == r
  {}

  lemma ReplaceAgrees(c: Config, b: Book, r: RB.Ref, e: Event)
    requires Good(c, b) && c.repair && Agree(b, b.orders, r) && RB.Valid(r)
    requires e.Record? && e.action.Change? && WellFormed(c, b, e) && Replaces(b.orders[e.xoid], e)
    requires !OnChange(c, b, e).dead
    ensures Agree(OnChange(c, b, e), OnChange(c, b, e).orders, RB.Apply(r, e))
  {
    hide Process, Prices, Fifo, Listed, Complete, RB.Valid, RB.Arrive, Bare, RB.Drop, Agree, Held;
    var x, o := e.xoid, b.orders[e.xoid];
    var u := RB.Ord(o.side, e.px, e.qty);
    var r1 := Process(c, b, PCancel(o.id, o.side, o.px), e.tim);
    var n := r1.nextId;
    var i1 := r1.(nextId := n + 1);
    var p2 := PAdd(n, x, o.side, e.px, e.qty);
    ProcessStaysDead(c, i1, p2, e.tim);
    CancelGood(c, b, x, b.orders, b.nextId, e.tim);
    CancelProcessed(c, b, b.orders, b.nextId, r, x, e.tim);
    SameGood(c, r1, i1, b.orders - {x}, n);
    SameAgree(r1, i1, b.orders - {x}, RB.Drop(r, x));
    RB.DropValid(r, x);
    AddProcessed(c, i1, b.orders - {x}, n, RB.Drop(r, x), x, u, e.tim);
    var om := b.orders[x := Info(n, e.px, e.qty, o.side)];
    assert (b.orders - {x})[x := Info(n, e.px, e.qty, o.side)] == om;
    var r2 := Process(c, i1, p2, e.tim);
    SameAgree(r2, r2.(orders := om), om, RB.Apply(r, e));
    AddGood(c, i1, n, x, o.side, e.px, e.qty, b.orders - {x}, e.tim);
  }

  lemma ShrinkAgrees(c: Config, b: Book, r: RB.Ref, e: Event)
    requires Good(c, b) && Agree(b, b.orders, r) && RB.Valid(r) && RB.Strict(r)
    requires e.Record? && e.action.Change? && WellFormed(c, b, e) && !Replaces(b.orders[e.xoid], e)
    requires !OnChange(c, b, e).dead
    ensures Agree(OnChange(c, b, e), OnChange(c, b, e).orders, RB.Apply(r, e))
  {
    hide Process, Prices, Fifo, Listed, Complete, RB.Valid, RB.Strict, RB.Arrive, RB.Drop, Held, Agree;
    var x, o := e.xoid, b.orders[e.xoid];
    var b1 := b.(orders := b.orders[x := o.(sz := e.qty)]);
    SameHeld(b, b1, b.orders, x);
    SameGood(c, b, b1, b.orders, b.nextId);
    SameAgree(b, b1, b.orders, r);
    ResizeProcessed(c, b1, b.orders, b.nextId, r, x, e.qty, e.tim);
    ProcessKeepsOrders(c, b1, PResize(o.id, o.side, o.px, e.qty), e.tim);
  }

  lemma SameHeld(b: Book, b': Book, om: map<nat, Info>, x: nat)
    requires b'.bids == b.bids && b'.asks == b.asks
    ensures Held(b', om, x) <==> Held(b, om, x)
  {}

  lemma ProcessKeepsOrders(c: Config, b: Book, p: Payload, tim: nat)
    requires b.delQ == []
    ensures Process(c, b, p, tim).orders == b.orders
  {
    hide ApplyPayload;
    BareDrain(c, b, tim);
  }

  lemma RepeatsAgrees(c: Config, b: Book, r: RB.Ref, e: Event)
    requires Good(c, b) && Agree(b, b.orders, r) && RB.Valid(r) && RB.Strict(r)
    requires e.Record? && e.action.New? && WellFormed(c, b, e) && e.xoid in b.orders
    ensures Agree(OnNew(c, b, e), OnNew(c, b, e).orders, RB.Apply(r, e))
  {
    hide Good, RB.Valid, RB.Strict, OnNew, RB.Apply, Agree;
    assert e.xoid in r.ord && r.ord[e.xoid] == OrderOf(e) by { RepeatsKnown(b, r, e); }
    DuplicateAgreesIff(c, b, r, e);
  }

  lemma RepeatsKnown(b: Book, r: RB.Ref, e: Event)
    requires Agree(b, b.orders, r) && Repeats(b, e)
    ensures e.xoid in r.ord && r.ord[e.xoid] == OrderOf(e)
  {
    hide RealSize, RB.Get, Book.Lev;
  }

  /**
    A New of an order the book already knows: the order book keeps what it has (a snapshot overwrites
    its entry), the reference market replaces it. The two agree afterwards exactly when the market holds
    that very order.
   */
  lemma DuplicateAgreesIff(c: Config, b: Book, r: RB.Ref, e: Event)
    requires Good(c, b) && Agree(b, b.orders, r) && RB.Valid(r) && RB.Strict(r)
    requires e.Record? && e.action.New? && OnLadder(c, e.px) && e.qty > 0 && e.side.Some? && e.xoid in b.orders
    ensures Agree(OnNew(c, b, e), OnNew(c, b, e).orders, RB.Apply(r, e)) <==>
            e.xoid in r.ord && r.ord[e.xoid] == OrderOf(e)
  {
    hide Good, RB.Valid, RB.Strict, RB.Apply, Agree, Process;
    var x, o, b1, q := e.xoid, b.orders[e.xoid], OnNew(c, b, e), RB.Apply(r, e);
    AppliedHolds(r, e);
    RB.ApplyKeeps(r, e);
    if x in r.ord && r.ord[x] == OrderOf(e) {
      AgreeEntry(b, b.orders, r, x);
      assert b1 == b.(orders := b.orders[x := o]) && b.orders[x := o] == b.orders;
      SameOrders(r, e);
      SameOrdersSameLevels(b1, b1.orders, q, r);
    }
    if Agree(b1, b1.orders, q) {
      AgreeEntry(b1, b1.orders, q, x);
      EntryUnchanged(c, b, b1, x);
      HeldInMarket(b, r, x);
    }
  }

  lemma AgreeEntry(b: Book, om: map<nat, Info>, r: RB.Ref, x: nat)
    requires Agree(b, om, r) && x in r.ord
    ensures Held(b, om, x) && r.ord[x] == OrdOf(om[x])
  {
    hide RealSize, RB.Get, Book.Lev;
  }

  lemma HeldInMarket(b: Book, r: RB.Ref, x: nat)
    requires Agree(b, b.orders, r) && Held(b, b.orders, x)
    ensures x in r.ord && r.ord[x] == OrdOf(b.orders[x])
  {
    hide RealSize, RB.Get, Book.Lev;
  }

  /** An entry that describes a resting order is the one the index had. */
  lemma EntryUnchanged(c: Config, b: Book, b1: Book, x: nat)
    requires Good(c, b) && b1 == b.(orders := b1.orders) && x in b.orders && Held(b1, b1.orders, x)
    requires b1.orders[x].id == b.orders[x].id
    ensures b1.orders[x] == b.orders[x] && Held(b, b.orders, x)
  {
    hide Prices, Fifo, Complete, Book.Lev;
    var i := b1.orders[x];
    SameQueues(c, b, b1, b.orders);
    assert Order(Real(i.id), x, i.sz) in b.Lev(i.side, i.px);
  }

  /** Re-entering an order the market holds changes none of its orders. */
  lemma SameOrders(r: RB.Ref, e: Event)
    requires RB.Valid(r) && RB.Strict(r) && e.Record? && !e.action.Delete? && e.qty > 0 && e.px > 0 && e.side.Some?
    requires e.xoid in r.ord && r.ord[e.xoid] == OrderOf(e)
    ensures RB.Apply(r, e).ord == r.ord
  {
    hide RB.Valid, RB.Arrive;
    var x, o := e.xoid, OrderOf(e);
    var r1 := RB.Drop(r, x);
    RB.DropValid(r, x);
    RB.ArriveUncrosses(r1, x, o);
    UncrossedOrders(r1, x, o);
    assert forall y :: y in r.ord ==> !RB.Crosses(o, r.ord[y]);
  }

  /** One event on the bare live book keeps the agreement. */
  lemma StepAgrees(c: Config, b: Book, r: RB.Ref, e: Event)
    requires Good(c, b) && c.repair && Agree(b, b.orders, r) && RB.Valid(r) && RB.Strict(r)
    requires WellFormed(c, b, e) && !e.FromUs? && !Step(c, b, e).dead
    ensures Agree(Step(c, b, e), Step(c, b, e).orders, if e.Record? then RB.Apply(r, e) else r)
  {
    hide OnNew, OnChange, OnDelete, Process, RB.Apply, RB.Valid, RB.Strict, Agree, Held;
    match e
    case Record(a, x, side, px, qty, recovery, tim) =>
      var b1 := Recover(c, b, recovery);
      RecoverAgrees(c, b, r, e);
      GoodRecover(c, b, recovery);
      RecoverWellFormed(c, b, e);
      hide Good, WellFormed, Recover;
      if a.New? {
        if x in b1.orders {
          RepeatsAgrees(c, b1, r, e);
        } else {
          NewAgrees(c, b1, r, e);
        }
      }
      else if a.Delete? { DeleteAgrees(c, b1, r, e); }
      else if Replaces(b.orders[x], e) { ReplaceAgrees(c, b1, r, e); }
      else { ShrinkAgrees(c, b1, r, e); }
    case Exec(n, s, px, sz, tim) => ExecAgrees(c, b, r, PExec(n, s, px, sz), tim);
    case ChannelReset => ClearAgrees(c, b, r);
    case Status(on) => SameAgree(b, b.(matching := on), b.orders, r);
    case FromUs(_) =>
  }

  /** Clearing a book and a market without orders. */
  lemma ClearAgrees(c: Config, b: Book, r: RB.Ref)
    requires Agree(b, b.orders, r) && Vacant(b)
    ensures Agree(Clear(c, b), Clear(c, b).orders, r)
  {
    hide RB.Get, LadderAcks;
    var b1 := Clear(c, b);
    assert forall s, p :: b1.Lev(s, p) == [] == b.Lev(s, p);
  }

  lemma RecoverAgrees(c: Config, b: Book, r: RB.Ref, e: Event)
    requires e.Record? && Agree(b, b.orders, r) && WellFormed(c, b, e)
    ensures Agree(Recover(c, b, e.recovery), Recover(c, b, e.recovery).orders, r)
  {
    hide Agree, Clear, Vacant;
    SameAgree(b, b.(inRecovery := false), b.orders, r);
    if e.recovery && !b.inRecovery {
      ClearAgrees(c, b, r);
      SameAgree(Clear(c, b), Clear(c, b).(inRecovery := true), Clear(c, b).orders, r);
    }
  }

  lemma RecoverWellFormed(c: Config, b: Book, e: Event)
    requires e.Record? && WellFormed(c, b, e)
    ensures WellFormed(c, Recover(c, b, e.recovery), e)
  {
    hide Vacant;
    if !e.recovery { SameWellFormed(c, b, b.(inRecovery := false), e); }
  }

  lemma SameWellFormed(c: Config, b: Book, b': Book, e: Event)
    requires b'.bids == b.bids && b'.asks == b.asks && b'.orders == b.orders
    requires e.Record? && !e.recovery
    ensures WellFormed(c, b, e) <==> WellFormed(c, b', e)
  {
    assert forall s, p :: b'.Lev(s, p) == b.Lev(s, p);
  }

  lemma ExecAgrees(c: Config, b: Book, r: RB.Ref, p: Payload, tim: nat)
    requires Good(c, b) && Agree(b, b.orders, r) && p.PExec? && !Process(c, b, p, tim).dead
    ensures Agree(Process(c, b, p, tim), Process(c, b, p, tim).orders, r)
  {
    hide ExecReal, Agree, Book.Lev, HasReal;
    if p.px > 0 {
      ProcessBare(c, b, p, tim);
      var b2 := b.(boundary := Max(b.boundary, tim));
      SameQueues(c, b, b2, b.orders);
      if p.sz > 0 { ExecNothing(c, b2, p.n, p.side, p.px, p.sz); }
      else { ExecRefuses(c, b2, p.n, p.side, p.px, p.sz); }
      SameAgree(b, b2, b.orders, r);
    }
  }

  /** Every record of the run is well formed where it arrives. */
  ghost predicate WellFormedRun(c: Config, es: seq<Event>) {
    es == [] ||
    (WellFormedRun(c, es[..|es| - 1]) &&
     WellFormed(c, Erase(Run(c, Init(c), es[..|es| - 1])), es[|es| - 1]))
  }

  lemma WellFormedClean(c: Config, b: Book, e: Event)
    requires WellFormed(c, Erase(b), e)
    ensures !Contradicts(c, b, e)
  {}

  lemma {:induction false} RunAgrees(c: Config, es: seq<Event>)
    requires c.repair && c.maxPx >= 2 && !Run(c, Init(c), es).dead && WellFormedRun(c, es)
    ensures var b := Erase(Run(c, Init(c), es));
            Good(c, b) && Agree(b, b.orders, RB.RefRun(es))
  {
    hide Good, Step, Erase, WellFormed, Agree, RB.Apply, Contradicts;
    if es == [] {
      GoodInit(c);
      InitAgrees(c);
    } else {
      var front, e := es[..|es| - 1], es[|es| - 1];
      var b := Run(c, Init(c), front);
      StepStaysDead(c, b, e);
      RunAgrees(c, front);
      WellFormedClean(c, b, e);
      GoodErasedStep(c, b, e);
      EraseStep(c, b, e);
      if !e.FromUs? {
        ErasedDead(Step(c, b, e));
        RB.RefInvariant(front);
        StepAgrees(c, Erase(b), RB.RefRun(front), e);
      }
    }
  }

  lemma InitAgrees(c: Config)
    ensures Agree(Erase(Init(c)), Erase(Init(c)).orders, RB.RefRun([]))
  {
    assert forall s, p :: Erase(Init(c)).Lev(s, p) == [];
  }

  lemma {:induction false} SizeRealPart(q: Level)
    ensures RealSize(RealPart(q)) == RealSize(q)
  {
    if q != [] {
      SizeRealPart(q[1..]);
      if !q[0].IsSim() { assert RealPart(q)[1..] == RealPart(q[1..]); }
    }
  }

  /**
    On every well-formed live feed, with any traffic of ours in between, the order book and
    the reference market hold the same orders and the same real size at every side and price.
   */
  lemma SameBook(c: Config, es: seq<Event>)
    requires c.repair && c.maxPx >= 2 && !Run(c, Init(c), es).dead && WellFormedRun(c, es)
    ensures var b, r := Run(c, Init(c), es), RB.RefRun(es);
            && (forall x :: x in r.ord <==> Held(b, b.orders, x))
            && (forall x :: x in r.ord ==> r.ord[x] == OrdOf(b.orders[x]))
            && (forall s, p :: RB.Get(r.Lv(s), p) == RealSize(b.Lev(s, p)))
  {
    hide Run, Good, RB.RefRun, RealSize, RB.Get, RealPart, HasReal;
    var b := Run(c, Init(c), es);
    RunAgrees(c, es);
    ErasedLevels(b);
    var m := Erase(b);
    assert m.orders == b.orders;
    hide Erase, Book.Lev;
    forall s, p ensures RealSize(m.Lev(s, p)) == RealSize(b.Lev(s, p)) { SizeRealPart(b.Lev(s, p)); }
    forall x ensures Held(m, m.orders, x) <==> Held(b, b.orders, x) {
      if x in b.orders {
        assert !Order(Real(b.orders[x].id), x, b.orders[x].sz).IsSim();
      }
    }
  }

  /** And whenever both sides are non-empty they show the same inside. */
  lemma SameInside(c: Config, es: seq<Event>, bid: int, ask: int)
    requires c.repair && c.maxPx >= 2 && !Run(c, Init(c), es).dead && WellFormedRun(c, es)
    requires RB.IsTop(RB.RefRun(es), bid, ask)
    ensures Run(c, Init(c), es).bestBid == bid && Run(c, Init(c), es).bestAsk == ask && bid < ask
  {
    hide Run, RB.RefRun, RealSize, WellFormedRun, Erased;
    RunAgrees(c, es);
    RB.TopSucceeds(es, bid, ask);
    RB.RefInvariant(es);
    var m := Erase(Run(c, Init(c), es));
    InsideOf(c, m, RB.RefRun(es), bid, ask);
  }

  lemma LevelsMatch(c: Config, b: Book, r: RB.Ref, s: Side, p: int)
    requires Good(c, b) && Agree(b, b.orders, r) && RB.Valid(r)
    ensures p in r.Lv(s) <==> HasReal(b.Lev(s, p))
  {
    hide RealSize, HasReal, Book.Lev, Held;
    SizePositive(b.Lev(s, p));
    assert RB.Get(r.Lv(s), p) == RealSize(b.Lev(s, p));
  }

  lemma InsideOf(c: Config, b: Book, r: RB.Ref, bid: int, ask: int)
    requires Good(c, b) && Agree(b, b.orders, r) && RB.Valid(r) && RB.IsTop(r, bid, ask)
    ensures b.bestBid == bid && b.bestAsk == ask
  {
    hide HasReal, Book.Lev, Agree, Fifo, Listed, Complete;
    LevelsMatch(c, b, r, Buy, bid);
    LevelsMatch(c, b, r, Sell, ask);
    LevelsMatch(c, b, r, Buy, b.bestBid);
    LevelsMatch(c, b, r, Sell, b.bestAsk);
    assert OnLadder(c, bid) && OnLadder(c, ask);
  }

  // ----- where agreement ends

  /**
    A Change of an order the book crossed out: the reference market re-enters it, the order
    book only when the Change also loses its place. On a live, on-ladder Change of a known
    order on its own side, the two agree exactly when the record is well formed.
   */
  lemma StaleChangeDisagrees(c: Config, b: Book, r: RB.Ref, e: Event)
    requires Good(c, b) && c.repair && Agree(b, b.orders, r) && RB.Valid(r) && RB.Strict(r)
    requires e.Record? && e.action.Change? && !e.recovery && OnLadder(c, e.px) && e.qty > 0
    requires e.xoid in b.orders && e.side == Some(b.orders[e.xoid].side) && !Step(c, b, e).dead && !b.dead
    ensures Agree(Step(c, b, e), Step(c, b, e).orders, RB.Apply(r, e)) <==>
            Held(b, b.orders, e.xoid) || Replaces(b.orders[e.xoid], e)
  {
    var x := e.xoid;
    if Held(b, b.orders, x) || Replaces(b.orders[x], e) {
      StepAgrees(c, b, r, e);
    } else {
      StaleStays(c, b, e);
      RefReenters(r, e);
    }
  }

  lemma StaleStays(c: Config, b: Book, e: Event)
    requires Good(c, b) && e.Record? && e.action.Change? && !e.recovery && OnLadder(c, e.px)
    requires e.xoid in b.orders && e.side.Some?
    requires !Held(b, b.orders, e.xoid) && !Replaces(b.orders[e.xoid], e) && !Step(c, b, e).dead && !b.dead
    ensures !Held(Step(c, b, e), Step(c, b, e).orders, e.xoid)
  {
    hide HasReal, ResizeReal, Process, Prices, Fifo, Complete;
    var x, o := e.xoid, b.orders[e.xoid];
    var b1 := b.(inRecovery := false, orders := b.orders[x := o.(sz := e.qty)]);
    HeldFinds(b, b.orders, x);
    ProcessBare(c, b1, PResize(o.id, o.side, o.px, e.qty), e.tim);
    var b2 := b1.(boundary := Max(b1.boundary, e.tim));
    assert b2.Lev(o.side, o.px) == b.Lev(o.side, o.px);
    ResizeAbsent(c, b2, o.id, o.side, o.px, e.qty);
    assert forall u :: u in b.Lev(o.side, o.px) ==> u.id != Real(o.id);
  }

  lemma ResizeAbsent(c: Config, b: Book, n: nat, s: Side, px: int, sz: int)
    requires !Holds(b.Lev(s, px), Real(n))
    ensures ResizeReal(c, b, n, s, px, sz) == b
  {}

  lemma RefReenters(r: RB.Ref, e: Event)
    requires RB.Valid(r) && e.Record? && e.action.Change? && e.qty > 0 && e.px > 0 && e.side.Some?
    ensures e.xoid in RB.Apply(r, e).ord
  {
    hide RB.Valid, RB.Drop;
    RB.DropValid(r, e.xoid);
  }

  lemma ClearedAgrees(c: Config, b: Book)
    ensures Agree(Clear(c, b).(inRecovery := true), map[], RB.Empty) && Agree(Clear(c, b), map[], RB.Empty)
  {
    hide LadderAcks;
    assert forall s, p :: Clear(c, b).Lev(s, p) == [] == Clear(c, b).(inRecovery := true).Lev(s, p);
  }

  /** A channel reset empties the book only: the two agree afterwards exactly when the market was empty. */
  lemma ResetAgreesIff(c: Config, b: Book, r: RB.Ref)
    requires Good(c, b) && Agree(b, b.orders, r) && !b.dead && RB.Valid(r)
    ensures Agree(Step(c, b, ChannelReset), Step(c, b, ChannelReset).orders, r) <==> r.ord == map[]
  {
    hide Good, RB.Valid, Book.Lev, RealSize, RB.Get, LadderAcks;
    if r.ord == map[] {
      EmptyVacant(c, b, r);
      ClearAgrees(c, b, r);
    } else {
      var x :| x in r.ord;
      assert x !in Clear(c, b).orders;
    }
  }

  /** Markets with the same orders have the same levels. */
  lemma SameOrdersSameLevels(b: Book, om: map<nat, Info>, r: RB.Ref, q: RB.Ref)
    requires RB.Valid(r) && RB.Valid(q) && r.ord == q.ord && Agree(b, om, q)
    ensures Agree(b, om, r)
  {
    hide RealSize, RB.Get, RB.SumAt, Book.Lev;
    forall s, p ensures RB.Get(r.Lv(s), p) == RealSize(b.Lev(s, p)) {
      assert RB.Get(r.Lv(s), p) == RB.SumAt(r.ord, s, p) == RB.Get(q.Lv(s), p);
    }
  }

  lemma AppliedHolds(r: RB.Ref, e: Event)
    requires RB.Valid(r) && e.Record? && !e.action.Delete? && e.qty > 0 && e.px > 0 && e.side.Some?
    ensures var q := RB.Apply(r, e); e.xoid in q.ord && q.ord[e.xoid] == RB.Ord(e.side.value, e.px, e.qty)
  {
    hide RB.Valid, RB.Drop;
  }

  /**
    The first record of a snapshot empties the order book, not the reference market: the two agree
    afterwards exactly when every other order the market holds is crossed by the record's order.
   */
  lemma SnapshotAgreesIff(c: Config, b: Book, r: RB.Ref, e: Event)
    requires Good(c, b) && c.repair && Agree(b, b.orders, r) && RB.Valid(r) && RB.Strict(r) && !b.dead
    requires e.Record? && e.action.New? && e.recovery && !b.inRecovery && OnLadder(c, e.px) && e.qty > 0 && e.side.Some?
    requires !Step(c, b, e).dead
    ensures Agree(Step(c, b, e), Step(c, b, e).orders, RB.Apply(r, e)) <==>
            forall y :: y in r.ord && y != e.xoid ==> RB.Crosses(OrderOf(e), r.ord[y])
  {
    hide Good, RB.Valid, RB.Strict, OnNew, Agree, RB.Apply, Clear;
    var b1, q := Recover(c, b, true), RB.Apply(r, e);
    assert Step(c, b, e) == OnNew(c, b1, e);
    GoodRecover(c, b, true);
    ClearedAgrees(c, b);
    ClearedOrders(c, b);
    RB.EmptyValid();
    NewAgrees(c, b1, RB.Empty, e);
    RB.ApplyKeeps(r, e);
    RB.ApplyKeeps(RB.Empty, e);
    AppliedHolds(r, e);
    AppliedKeys(r, e);
    AppliedAlone(e);
    SnapshotHolds(c, b1, e);
    if forall y :: y in q.ord ==> y == e.xoid {
      assert q.ord == RB.Apply(RB.Empty, e).ord;
      SameOrdersSameLevels(OnNew(c, b1, e), OnNew(c, b1, e).orders, q, RB.Apply(RB.Empty, e));
    }
    if Agree(OnNew(c, b1, e), OnNew(c, b1, e).orders, q) {
      forall y | y in q.ord ensures y == e.xoid { AgreeKnown(OnNew(c, b1, e), OnNew(c, b1, e).orders, q, y); }
    }
  }

  /** Beside the arriving order the market keeps exactly the orders it does not cross. */
  lemma AppliedKeys(r: RB.Ref, e: Event)
    requires RB.Valid(r) && e.Record? && e.action.New? && e.qty > 0 && e.px > 0 && e.side.Some?
    ensures forall y :: y in RB.Apply(r, e).ord && y != e.xoid <==>
                        y in r.ord && y != e.xoid && !RB.Crosses(OrderOf(e), r.ord[y])
  {
    hide RB.Valid, RB.Arrive;
    var r1 := RB.Drop(r, e.xoid);
    RB.DropValid(r, e.xoid);
    RB.ArriveUncrosses(r1, e.xoid, OrderOf(e));
  }

  lemma ClearedOrders(c: Config, b: Book)
    ensures Clear(c, b).orders == map[]
  {}

  lemma AgreeKnown(b: Book, om: map<nat, Info>, r: RB.Ref, y: nat)
    requires Agree(b, om, r) && y in r.ord
    ensures y in om
  {
    hide RealSize, RB.Get, Book.Lev;
  }

  lemma AppliedAlone(e: Event)
    requires e.Record? && e.action.New? && e.qty > 0 && e.px > 0 && e.side.Some?
    ensures RB.Apply(RB.Empty, e).ord == map[e.xoid := RB.Ord(e.side.value, e.px, e.qty)]
  {}

  lemma SnapshotHolds(c: Config, b: Book, e: Event)
    requires e.Record? && b.orders == map[] && e.qty > 0
    ensures forall y :: y in OnNew(c, b, e).orders ==> y == e.xoid
  {
    hide OnNew, OnChange, OnDelete;
    RecordGrows(c, b, e);
  }

  // ----- the live book never dies on such a feed

  predicate SizedPayload(p: Payload) { p.PCancel? || p.sz > 0 }

  lemma ProcessLives(c: Config, b: Book, p: Payload, tim: nat)
    requires b.delQ == [] && !b.dead && c.repair && SizedPayload(p)
    ensures !Process(c, b, p, tim).dead
    ensures Process(c, b, p, tim).delQ == []
  {
    hide Sweep, MoveInside, Rewalk, Append, ExecLevel, Book.WithLev;
    BareDrain(c, b, tim);
    PartsLive(c, b.(boundary := Max(b.boundary, tim)), p);
  }

  lemma PartsLive(c: Config, b: Book, p: Payload)
    requires !b.dead && SizedPayload(p)
    ensures !ApplyPayload(c, b, p).dead
  {
    hide Swept, NotesUp, NotesDown, WalkUp, WalkDown, ExecLevel, AnyReal;
  }

  lemma StepLives(c: Config, b: Book, e: Event)
    requires b.delQ == [] && !b.dead && c.repair && WellFormed(c, b, e) && !e.FromUs?
    ensures !Step(c, b, e).dead
  {
    hide Process, Held;
    match e
    case Record(a, x, side, px, qty, recovery, tim) =>
      var b1 := Recover(c, b, recovery);
      if a.New? {
        ProcessLives(c, b1.(orders := b1.orders[x := Info(b1.nextId, px, qty, side.value)],
                            nextId := b1.nextId + 1), PAdd(b1.nextId, x, side.value, px, qty), tim);
      } else if x in b.orders {
        var o := b.orders[x];
        ProcessLives(c, b1, PCancel(o.id, o.side, o.px), tim);
        if a.Change? {
          var b2 := Process(c, b1, PCancel(o.id, o.side, o.px), tim);
          ProcessLives(c, b2.(nextId := b2.nextId + 1), PAdd(b2.nextId, x, o.side, px, qty), tim);
          ProcessLives(c, b1.(orders := b1.orders[x := o.(sz := qty)]), PResize(o.id, o.side, o.px, qty), tim);
        }
      }
    case Exec(n, s, px, sz, tim) => ProcessLives(c, b, PExec(n, s, px, sz), tim);
    case ChannelReset =>
    case Status(_) =>
    case FromUs(_) =>
  }

  /** Live trading never aborts on a well-formed feed, whatever proper messages we send. */
  lemma {:induction false} LiveNeverDies(c: Config, es: seq<Event>)
    requires c.repair && c.maxPx >= 2 && WellFormedRun(c, es) && ProperRun(Init(c), es)
    ensures !Run(c, Init(c), es).dead
  {
    hide Step, Erase, WellFormed, ProperRun;
    if es != [] {
      var front, e := es[..|es| - 1], es[|es| - 1];
      var b := Run(c, Init(c), front);
      ProperFront(Init(c), es);
      LiveNeverDies(c, front);
      SameRealBook(c, Init(c), front);
      EraseStep(c, b, e);
      ErasedDead(b);
      ErasedDead(Step(c, b, e));
      ErasedQueue(b);
      if !e.FromUs? { StepLives(c, Erase(b), e); }
    }
  }

  lemma ProperFront(b: Book, es: seq<Event>)
    requires ProperRun(b, es) && es != []
    ensures ProperRun(b, es[..|es| - 1]) && (es[|es| - 1].FromUs? ==> Proper(es[|es| - 1].msg))
  {}

  lemma ErasedQueue(b: Book)
    ensures Erase(b).delQ == []
  {}

  // ----- a condition on the feed alone

  /** The exchange ids announced by a New and not deleted since. */
  function Announced(es: seq<Event>): set<nat> {
    if es == [] then {}
    else
      var e, a := es[|es| - 1], Announced(es[..|es| - 1]);
      if !e.Record? || e.action.Change? then a else if e.action.New? then a + {e.xoid} else a - {e.xoid}
  }

  /**
    What can be checked on the feed, beside the reference market: records with a side, on the ladder
    and of positive size unless they delete; a New names an id not announced since its last Delete,
    or repeats the order the reference market holds; a Change names an order the reference market
    holds, on its side; a snapshot has only New records and it, like a channel reset, begins while
    the reference market is empty.
   */
  predicate FeedOk(c: Config, r: RB.Ref, seen: set<nat>, snapshot: bool, e: Event) {
    match e
    case Record(a, x, side, px, qty, recovery, _) =>
      && (recovery ==> a.New? && (snapshot || r.ord == map[]))
      && (!a.Delete? ==> OnLadder(c, px) && qty > 0 && side.Some?)
      && (a.New? ==> x !in seen || (x in r.ord && side.Some? && r.ord[x] == OrderOf(e)))
      && (a.Change? ==> x in r.ord && r.ord[x].side == side.value)
    case Exec(_, _, _, sz, _) => sz > 0
    case ChannelReset => r.ord == map[]
    case _ => true
  }

  /** The last record belongs to a snapshot. */
  predicate InSnapshot(es: seq<Event>) {
    es != [] && if es[|es| - 1].Record? then es[|es| - 1].recovery else InSnapshot(es[..|es| - 1])
  }

  predicate ProperFeed(c: Config, es: seq<Event>) {
    es == [] ||
    (ProperFeed(c, es[..|es| - 1]) &&
     FeedOk(c, RB.RefRun(es[..|es| - 1]), Announced(es[..|es| - 1]), InSnapshot(es[..|es| - 1]), es[|es| - 1]))
  }

  lemma ProcessOrders(c: Config, b: Book, p: Payload, tim: nat)
    ensures Process(c, b, p, tim).orders == b.orders
  {
    hide ApplyPayload;
    DrainOrders(c, b, tim);
  }

  lemma {:induction false} DrainOrders(c: Config, b: Book, tim: nat)
    ensures Drain(c, b, tim).orders == b.orders
    decreases |b.delQ|
  {
    hide AddSim, CancelSim;
    if !(b.dead || b.delQ == [] || Due(c, b.delQ[0]) >= tim) {
      DrainOrders(c, ApplySim(c, b.(delQ := b.delQ[1..]), b.delQ[0], tim), tim);
    }
  }

  /** Only a New gives the order map a new key. */
  lemma OrdersGrow(c: Config, b: Book, e: Event)
    ensures forall x :: x in Step(c, b, e).orders ==>
              x in b.orders || (e.Record? && e.action.New? && x == e.xoid)
    ensures !b.dead && !Step(c, b, e).dead && e.Record? && e.action.Delete? ==> e.xoid !in Step(c, b, e).orders
  {
    hide Process, AddSim, CancelSim;
    match e
    case Record(a, x, side, px, qty, recovery, tim) =>
      var b1 := Recover(c, b, recovery);
      assert forall y :: y in b1.orders ==> y in b.orders;
      RecordGrows(c, b1, e);
      hide OnNew, OnChange, OnDelete;
    case Exec(n, s, px, sz, tim) => ProcessOrders(c, b, PExec(n, s, px, sz), tim);
    case ChannelReset =>
    case Status(_) =>
    case FromUs(_) =>
  }

  lemma RecordGrows(c: Config, b: Book, e: Event)
    requires e.Record?
    ensures forall x :: x in OnNew(c, b, e).orders ==> x in b.orders || x == e.xoid
    ensures forall x :: x in OnChange(c, b, e).orders ==> x in b.orders
    ensures forall x :: x in OnDelete(c, b, e).orders ==> x in b.orders && x != e.xoid
  {
    hide Process;
    if e.side.Some? {
      ProcessOrders(c, b.(orders := b.orders[e.xoid := Info(b.nextId, e.px, e.qty, e.side.value)],
                          nextId := b.nextId + 1),
                    PAdd(b.nextId, e.xoid, e.side.value, e.px, e.qty), e.tim);
    }
    if e.xoid in b.orders {
      var o := b.orders[e.xoid];
      var s := if e.side.Some? then e.side.value else o.side;
      var px := if e.side.Some? then e.px else o.px;
      var p1 := PCancel(o.id, o.side, o.px);
      var b1 := Process(c, b, p1, e.tim);
      ProcessOrders(c, b, p1, e.tim);
      ProcessOrders(c, b1.(nextId := b1.nextId + 1), PAdd(b1.nextId, e.xoid, s, px, e.qty), e.tim);
      ProcessOrders(c, b.(orders := b.orders[e.xoid := o.(sz := e.qty)]),
                    PResize(o.id, o.side, o.px, e.qty), e.tim);
    }
  }

  lemma {:induction false} KnownAnnounced(c: Config, es: seq<Event>)
    requires !Run(c, Init(c), es).dead
    ensures forall x :: x in Run(c, Init(c), es).orders ==> x in Announced(es)
  {
    hide Step;
    if es != [] {
      StepStaysDead(c, Run(c, Init(c), es[..|es| - 1]), es[|es| - 1]);
      KnownAnnounced(c, es[..|es| - 1]);
      OrdersGrow(c, Run(c, Init(c), es[..|es| - 1]), es[|es| - 1]);
    }
  }

  lemma {:induction false} ProperFeedWellFormed(c: Config, es: seq<Event>)
    requires c.repair && c.maxPx >= 2 && ProperFeed(c, es) && ProperRun(Init(c), es)
    ensures WellFormedRun(c, es)
  {
    hide Run, RB.RefRun, Erase, ProperRun, Good, Agree, WellFormed, FeedOk;
    if es != [] {
      var front := es[..|es| - 1];
      ProperFront(Init(c), es);
      ProperFeedWellFormed(c, front);
      LiveNeverDies(c, front);
      RunAgrees(c, front);
      KnownAnnounced(c, front);
      var b := Run(c, Init(c), front);
      ErasedOrders(b);
      SnapshotFlag(c, front);
      FeedWellFormed(c, Erase(b), RB.RefRun(front), Announced(front), InSnapshot(front), es[|es| - 1]);
    }
  }

  lemma ErasedOrders(b: Book)
    ensures Erase(b).orders == b.orders && Erase(b).inRecovery == b.inRecovery
  {}

  lemma FeedWellFormed(c: Config, b: Book, r: RB.Ref, seen: set<nat>, snapshot: bool, e: Event)
    requires Good(c, b) && Agree(b, b.orders, r) && FeedOk(c, r, seen, snapshot, e)
    requires forall x :: x in b.orders ==> x in seen
    requires snapshot ==> b.inRecovery
    ensures WellFormed(c, b, e)
  {
    hide RealSize, RB.Get, Prices, Fifo, Good;
    if r.ord == map[] { EmptyVacant(c, b, r); }
    hide Vacant;
  }

  /** An empty reference market means an empty book. */
  lemma EmptyVacant(c: Config, b: Book, r: RB.Ref)
    requires Good(c, b) && Agree(b, b.orders, r) && r.ord == map[]
    ensures Vacant(b)
  {
    hide Good, Agree, Book.Lev;
    forall s, p ensures b.Lev(s, p) == [] {
      if b.Lev(s, p) != [] { RestsInMarket(c, b, r, s, p, b.Lev(s, p)[0]); }
    }
  }

  lemma RestsInMarket(c: Config, b: Book, r: RB.Ref, s: Side, p: int, o: Order)
    requires Good(c, b) && Agree(b, b.orders, r) && o in b.Lev(s, p)
    ensures o.xoid in r.ord
  {
    hide RealSize, RB.Get, Prices, Fifo, Complete, Book.Lev;
    assert RealOnly(b.Lev(s, p));
    assert o == Order(Real(o.id.n), o.xoid, o.sz);
    assert Held(b, b.orders, o.xoid);
  }

  lemma StepRecovery(c: Config, b: Book, e: Event)
    requires !b.dead && (e.Record? && !e.action.Delete? ==> OnLadder(c, e.px))
    requires e.Record? && e.recovery ==> e.action.New?
    ensures Step(c, b, e).inRecovery == if e.Record? then e.recovery else b.inRecovery
  {
    hide Process, AddSim, CancelSim;
    match e
    case Record(_, _, _, _, _, _, _) => ActionRecovery(c, Recover(c, b, e.recovery), e); hide OnNew, OnChange, OnDelete;
    case Exec(n, s, px, sz, tim) => ProcessRecovery(c, b, PExec(n, s, px, sz), tim);
    case ChannelReset =>
    case Status(_) =>
    case FromUs(_) =>
  }

  lemma ProcessRecovery(c: Config, b: Book, p: Payload, tim: nat)
    ensures Process(c, b, p, tim).inRecovery == b.inRecovery
  {
    hide ApplyPayload;
    DrainRecovery(c, b, tim);
  }

  lemma {:induction false} DrainRecovery(c: Config, b: Book, tim: nat)
    ensures Drain(c, b, tim).inRecovery == b.inRecovery
    decreases |b.delQ|
  {
    hide AddSim, CancelSim;
    if !(b.dead || b.delQ == [] || Due(c, b.delQ[0]) >= tim) {
      DrainRecovery(c, ApplySim(c, b.(delQ := b.delQ[1..]), b.delQ[0], tim), tim);
    }
  }

  lemma ActionRecovery(c: Config, b: Book, e: Event)
    requires e.Record?
    ensures OnNew(c, b, e).inRecovery == b.inRecovery
    ensures OnChange(c, b, e).inRecovery == b.inRecovery
    ensures OnDelete(c, b, e).inRecovery == b.inRecovery
  {
    hide Process;
    if e.side.Some? {
      ProcessRecovery(c, b.(orders := b.orders[e.xoid := Info(b.nextId, e.px, e.qty, e.side.value)],
                            nextId := b.nextId + 1),
                      PAdd(b.nextId, e.xoid, e.side.value, e.px, e.qty), e.tim);
    }
    if e.xoid in b.orders {
      var o := b.orders[e.xoid];
      var s := if e.side.Some? then e.side.value else o.side;
      var px := if e.side.Some? then e.px else o.px;
      var p1 := PCancel(o.id, o.side, o.px);
      var b1 := Process(c, b, p1, e.tim);
      ProcessRecovery(c, b, p1, e.tim);
      ProcessRecovery(c, b1.(nextId := b1.nextId + 1), PAdd(b1.nextId, e.xoid, s, px, e.qty), e.tim);
      ProcessRecovery(c, b.(orders := b.orders[e.xoid := o.(sz := e.qty)]),
                      PResize(o.id, o.side, o.px, e.qty), e.tim);
    }
  }

  /** The book's recovery flag is the feed's. */
  lemma {:induction false} SnapshotFlag(c: Config, es: seq<Event>)
    requires ProperFeed(c, es) && !Run(c, Init(c), es).dead
    ensures Run(c, Init(c), es).inRecovery == InSnapshot(es)
  {
    hide Step, RB.RefRun, Announced;
    if es != [] {
      var front, e := es[..|es| - 1], es[|es| - 1];
      StepStaysDead(c, Run(c, Init(c), front), e);
      SnapshotFlag(c, front);
      StepRecovery(c, Run(c, Init(c), front), e);
    }
  }

  /**
    The flagship: on every feed that announces fresh ids, changes only orders the reference
    market holds, and stays on the ladder, with any proper messages of ours in between, the
    live order book does not abort and holds the same orders and the same size at every side
    and price as the reference market.
   */
  lemma LiveBookIsReferenceMarket(c: Config, es: seq<Event>)
    requires c.repair && c.maxPx >= 2 && ProperFeed(c, es) && ProperRun(Init(c), es)
    ensures var b, r := Run(c, Init(c), es), RB.RefRun(es);
            && !b.dead
            && (forall x :: x in r.ord <==> Held(b, b.orders, x))
            && (forall x :: x in r.ord ==> r.ord[x] == OrdOf(b.orders[x]))
            && (forall s, p :: RB.Get(r.Lv(s), p) == RealSize(b.Lev(s, p)))
            && (forall bid, ask :: RB.IsTop(r, bid, ask) ==> b.bestBid == bid < ask == b.bestAsk)
  {
    hide Run, RB.RefRun, ProperFeed, ProperRun, WellFormedRun, Book.Lev, RealSize, RB.Get, Held;
    ProperFeedWellFormed(c, es);
    LiveNeverDies(c, es);
    SameBook(c, es);
    forall bid, ask | RB.IsTop(RB.RefRun(es), bid, ask)
      ensures Run(c, Init(c), es).bestBid == bid < ask == Run(c, Init(c), es).bestAsk
    {
      SameInside(c, es, bid, ask);
    }
  }
}
