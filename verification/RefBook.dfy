/**
  The reference market of obcmp: orders by exchange id and one total per price level,
  kept by a handful of map updates. A New for a held order replaces it, and an order
  that crosses the other side removes what it crosses.
 */
module RefBook {
  import opened Levels
  import opened Book

  datatype Ord = Ord(side: Side, px: int, qty: int)

  datatype Ref = Ref(ord: map<nat, Ord>, bid: map<int, int>, ask: map<int, int>) {
    function Lv(s: Side): map<int, int> { if s.Buy? then bid else ask }

    function WithLv(s: Side, m: map<int, int>): Ref {
      if s.Buy? then this.(bid := m) else this.(ask := m)
    }
  }

  const Empty := Ref(map[], map[], map[])

  function Get(m: map<int, int>, p: int): int { if p in m then m[p] else 0 }

  /** `level(...) += d` followed by `prune`: a level that is not positive disappears. */
  function Bumped(m: map<int, int>, p: int, d: int): map<int, int> {
    if Get(m, p) + d <= 0 then m - {p} else m[p := Get(m, p) + d]
  }

  function Drop(r: Ref, x: nat): Ref {
    if x !in r.ord then r
    else
      var o := r.ord[x];
      r.WithLv(o.side, Bumped(r.Lv(o.side), o.px, -o.qty)).(ord := r.ord - {x})
  }

  function Insert(r: Ref, x: nat, o: Ord): Ref {
    r.WithLv(o.side, r.Lv(o.side)[o.px := Get(r.Lv(o.side), o.px) + o.qty]).(ord := r.ord[x := o])
  }

  /** Price `p` of the other side is reached by `o`. */
  predicate Reaches(o: Ord, p: int) { if o.side.Buy? then p <= o.px else p >= o.px }

  predicate Crosses(o: Ord, x: Ord) { x.side != o.side && Reaches(o, x.px) }

  /** The best contra level is reached. */
  predicate TopCrossed(r: Ref, o: Ord) {
    exists p :: p in r.Lv(Other(o.side)) && Reaches(o, p)
  }

  /** The uncross loop, visiting the orders in the order of `keys`. */
  function UncrossIn(r: Ref, o: Ord, keys: seq<nat>): Ref
    decreases keys
  {
    if keys == [] then r
    else
      UncrossIn(if keys[0] in r.ord && Crosses(o, r.ord[keys[0]]) then Drop(r, keys[0]) else r, o, keys[1..])
  }

  /** What the loop leaves: no crossed order, no reached contra level. */
  function Uncross(r: Ref, o: Ord): Ref {
    var m := r.Lv(Other(o.side));
    r.WithLv(Other(o.side), map p | p in m && !Reaches(o, p) :: m[p])
     .(ord := map x | x in r.ord && !Crosses(o, r.ord[x]) :: r.ord[x])
  }

  function Arrive(r: Ref, x: nat, o: Ord): Ref {
    var r1 := Insert(r, x, o);
    if TopCrossed(r1, o) then Uncross(r1, o) else r1
  }

  /** RefBook::apply. */
  function Apply(r: Ref, e: Event): Ref
    requires e.Record?
  {
    var r1 := Drop(r, e.xoid);
    if e.action.Delete? || e.qty == 0 || e.px <= 0 || e.side.None? then r1
    else Arrive(r1, e.xoid, Ord(e.side.value, e.px, e.qty))
  }

  function RefRun(es: seq<Event>): Ref {
    if es == [] then Empty
    else
      var r := RefRun(es[..|es| - 1]);
      if es[|es| - 1].Record? then Apply(r, es[|es| - 1]) else r
  }

  // ----- level totals

  function Part(o: Ord, s: Side, p: int): int { if o.side == s && o.px == p then o.qty else 0 }

  /** Total size of the orders at one side and price. */
  ghost function SumAt(ord: map<nat, Ord>, s: Side, p: int): int
    decreases |ord|
  {
    if ord == map[] then 0
    else
      var x :| x in ord;
      Part(ord[x], s, p) + SumAt(ord - {x}, s, p)
  }

  lemma {:induction false} SumRemove(ord: map<nat, Ord>, x: nat, s: Side, p: int)
    requires x in ord
    ensures SumAt(ord, s, p) == Part(ord[x], s, p) + SumAt(ord - {x}, s, p)
    decreases |ord|
  {
    var y :| y in ord && SumAt(ord, s, p) == Part(ord[y], s, p) + SumAt(ord - {y}, s, p);
    if y != x {
      SumRemove(ord - {y}, x, s, p);
      SumRemove(ord - {x}, y, s, p);
      assert (ord - {y}) - {x} == (ord - {x}) - {y};
    }
  }

  lemma SumInsert(ord: map<nat, Ord>, x: nat, o: Ord, s: Side, p: int)
    requires x !in ord
    ensures SumAt(ord[x := o], s, p) == SumAt(ord, s, p) + Part(o, s, p)
  {
    SumRemove(ord[x := o], x, s, p);
    assert ord[x := o] - {x} == ord;
  }

  lemma {:induction false} SumSign(ord: map<nat, Ord>, s: Side, p: int)
    requires forall x :: x in ord ==> ord[x].qty > 0
    ensures SumAt(ord, s, p) >= 0
    ensures SumAt(ord, s, p) > 0 <==> exists x :: x in ord && ord[x].side == s && ord[x].px == p
    decreases |ord|
  {
    if ord != map[] {
      if exists x :: x in ord && ord[x].side == s && ord[x].px == p {
        var x :| x in ord && ord[x].side == s && ord[x].px == p;
        SumRemove(ord, x, s, p);
        SumSign(ord - {x}, s, p);
      } else {
        var y :| y in ord;
        SumRemove(ord, y, s, p);
        SumSign(ord - {y}, s, p);
      }
    }
  }

  // ----- the invariant

  /** Every level equals the sum of its orders and is never zero. */
  ghost predicate Valid(r: Ref) {
    && (forall x :: x in r.ord ==> r.ord[x].qty > 0)
    && (forall s, p :: Get(r.Lv(s), p) == SumAt(r.ord, s, p))
    && (forall s, p :: p in r.Lv(s) ==> r.Lv(s)[p] > 0)
  }

  /** Every bid is below every ask. */
  ghost predicate Strict(r: Ref) {
    forall x, y :: x in r.ord && y in r.ord && r.ord[x].side.Buy? && r.ord[y].side.Sell? ==>
      r.ord[x].px < r.ord[y].px
  }

  lemma LevelPresent(r: Ref, s: Side, p: int)
    requires Valid(r)
    ensures p in r.Lv(s) <==> exists x :: x in r.ord && r.ord[x].side == s && r.ord[x].px == p
  {
    SumSign(r.ord, s, p);
    assert Get(r.Lv(s), p) == SumAt(r.ord, s, p);
  }

  lemma DropValid(r: Ref, x: nat)
    requires Valid(r)
    ensures Valid(Drop(r, x))
    ensures Drop(r, x).ord == r.ord - {x}
    ensures forall s, p :: !(x in r.ord && s == r.ord[x].side && p == r.ord[x].px) ==>
              (p in Drop(r, x).Lv(s) <==> p in r.Lv(s)) && Get(Drop(r, x).Lv(s), p) == Get(r.Lv(s), p)
  {
    if x in r.ord {
      var d := Drop(r, x);
      forall s, p ensures Get(d.Lv(s), p) == SumAt(d.ord, s, p) {
        SumRemove(r.ord, x, s, p);
        SumSign(d.ord, s, p);
        assert Get(r.Lv(s), p) == SumAt(r.ord, s, p);
      }
      forall s, p | p in d.Lv(s) ensures d.Lv(s)[p] > 0 {
        assert p in r.Lv(s) ==> r.Lv(s)[p] > 0;
      }
    } else {
      assert r.ord - {x} == r.ord;
    }
  }

  lemma InsertValid(r: Ref, x: nat, o: Ord)
    requires Valid(r) && x !in r.ord && o.qty > 0
    ensures Valid(Insert(r, x, o))
  {
    var i := Insert(r, x, o);
    forall s, p ensures Get(i.Lv(s), p) == SumAt(i.ord, s, p) {
      SumInsert(r.ord, x, o, s, p);
      assert Get(r.Lv(s), p) == SumAt(r.ord, s, p);
    }
    assert Get(r.Lv(o.side), o.px) >= 0 by { SumSign(r.ord, o.side, o.px); }
    forall s, p | p in i.Lv(s) ensures i.Lv(s)[p] > 0 {
      assert p in r.Lv(s) ==> r.Lv(s)[p] > 0;
    }
  }

  // ----- the uncross does not depend on the iteration order

  predicate Touched(o: Ord, s: Side, p: int) { s != o.side && Reaches(o, p) }

  lemma {:induction false} UncrossInFacts(r: Ref, o: Ord, keys: seq<nat>)
    requires Valid(r)
    ensures var u := UncrossIn(r, o, keys);
            && Valid(u)
            && (forall x :: x in u.ord <==> x in r.ord && !(x in keys && Crosses(o, r.ord[x])))
            && (forall x :: x in u.ord ==> u.ord[x] == r.ord[x])
            && (forall s, p :: !Touched(o, s, p) ==>
                  (p in u.Lv(s) <==> p in r.Lv(s)) && Get(u.Lv(s), p) == Get(r.Lv(s), p))
    decreases keys
  {
    hide Drop, Valid;
    if keys != [] {
      var k := keys[0];
      var r1 := if k in r.ord && Crosses(o, r.ord[k]) then Drop(r, k) else r;
      DropValid(r, k);
      assert keys == [k] + keys[1..];
      UncrossInFacts(r1, o, keys[1..]);
    }
  }

  /** Whatever order the hash map is walked in, the same book is left. */
  lemma UncrossAnyOrder(r: Ref, o: Ord, keys: seq<nat>)
    requires Valid(r) && forall x :: x in r.ord ==> x in keys
    ensures UncrossIn(r, o, keys) == Uncross(r, o)
    ensures Valid(Uncross(r, o))
  {
    hide UncrossIn;
    UncrossInFacts(r, o, keys);
    var u, v := UncrossIn(r, o, keys), Uncross(r, o);
    assert u.ord == v.ord;
    forall s, p ensures (p in u.Lv(s) <==> p in v.Lv(s)) && Get(u.Lv(s), p) == Get(v.Lv(s), p) {
      LevelPresent(u, s, p);
    }
    SameLevels(u, v);
  }

  lemma SameLevels(u: Ref, v: Ref)
    requires u.ord == v.ord
    requires forall s, p :: (p in u.Lv(s) <==> p in v.Lv(s)) && Get(u.Lv(s), p) == Get(v.Lv(s), p)
    ensures u == v
  {
    forall s ensures u.Lv(s) == v.Lv(s) {
      forall p | p in u.Lv(s) ensures p in v.Lv(s) && u.Lv(s)[p] == v.Lv(s)[p] {
        assert Get(u.Lv(s), p) == Get(v.Lv(s), p);
      }
      forall p | p in v.Lv(s) ensures p in u.Lv(s) {
        assert Get(u.Lv(s), p) == Get(v.Lv(s), p);
      }
    }
    assert u.bid == u.Lv(Buy) && u.ask == u.Lv(Sell) && v.bid == v.Lv(Buy) && v.ask == v.Lv(Sell);
  }

  /** An enumeration of the keys of a finite map. */
  lemma Enumerate(s: set<nat>) returns (keys: seq<nat>)
    ensures forall x :: x in keys <==> x in s
    decreases |s|
  {
    if s == {} {
      keys := [];
    } else {
      var x :| x in s;
      var rest := Enumerate(s - {x});
      keys := [x] + rest;
    }
  }

  lemma UncrossValid(r: Ref, o: Ord)
    requires Valid(r)
    ensures Valid(Uncross(r, o))
  {
    var keys := Enumerate(r.ord.Keys);
    UncrossAnyOrder(r, o, keys);
  }

  lemma NothingCrossed(r: Ref, o: Ord)
    requires Valid(r) && !TopCrossed(r, o)
    ensures Uncross(r, o) == r
  {
    hide Valid;
    forall x | x in r.ord ensures !Crosses(o, r.ord[x]) {
      LevelPresent(r, r.ord[x].side, r.ord[x].px);
    }
    var u := Uncross(r, o);
    assert u.ord == r.ord;
    assert u.Lv(Other(o.side)) == r.Lv(Other(o.side));
  }

  /** Uncrossing is what an arrival always ends with, needed or not. */
  lemma ArriveUncrosses(r: Ref, x: nat, o: Ord)
    requires Valid(r) && x !in r.ord && o.qty > 0
    ensures Arrive(r, x, o) == Uncross(Insert(r, x, o), o)
    ensures Valid(Arrive(r, x, o))
    ensures Strict(r) ==> Strict(Arrive(r, x, o))
  {
    hide Valid, Uncross;
    InsertValid(r, x, o);
    var i := Insert(r, x, o);
    UncrossValid(i, o);
    if !TopCrossed(i, o) { NothingCrossed(i, o); }
    UncrossLeaves(i, o);
  }

  lemma UncrossLeaves(r: Ref, o: Ord)
    ensures var u := Uncross(r, o);
            forall x :: x in u.ord ==> x in r.ord && u.ord[x] == r.ord[x] && !Crosses(o, r.ord[x])
  {}

  lemma ApplyKeeps(r: Ref, e: Event)
    requires e.Record? && Valid(r) && Strict(r)
    ensures Valid(Apply(r, e)) && Strict(Apply(r, e))
  {
    hide Valid, Arrive, Drop;
    DropValid(r, e.xoid);
    if !(e.action.Delete? || e.qty == 0 || e.px <= 0 || e.side.None?) {
      ArriveUncrosses(Drop(r, e.xoid), e.xoid, Ord(e.side.value, e.px, e.qty));
    }
  }

  /** After any record sequence: every level is the sum of its orders, none is zero, and no bid reaches an ask. */
  lemma {:induction false} RefInvariant(es: seq<Event>)
    ensures Valid(RefRun(es)) && Strict(RefRun(es))
  {
    hide Valid, Strict, Apply;
    if es == [] {
      EmptyValid();
    } else {
      RefInvariant(es[..|es| - 1]);
      if es[|es| - 1].Record? { ApplyKeeps(RefRun(es[..|es| - 1]), es[|es| - 1]); }
    }
  }

  lemma EmptyValid()
    ensures Valid(Empty) && Strict(Empty)
  {}

  // ----- top of the book

  ghost predicate IsTop(r: Ref, b: int, a: int) {
    && b in r.bid && a in r.ask
    && (forall p :: p in r.bid ==> p <= b) && (forall p :: p in r.ask ==> a <= p)
  }

  /** `top` succeeds whenever both sides are non-empty. */
  lemma TopSucceeds(es: seq<Event>, b: int, a: int)
    requires IsTop(RefRun(es), b, a)
    ensures b < a
  {
    hide Valid, RefRun;
    RefInvariant(es);
    StrictTop(RefRun(es), b, a);
  }

  // ----- the class

  lemma {:induction false} UncrossInNext(r: Ref, o: Ord, keys: seq<nat>, k: nat)
    ensures UncrossIn(r, o, keys + [k]) ==
            var u := UncrossIn(r, o, keys);
            if k in u.ord && Crosses(o, u.ord[k]) then Drop(u, k) else u
    decreases keys
  {
    hide Drop;
    if keys == [] {
      assert ([] + [k])[1..] == [];
    } else {
      assert (keys + [k])[1..] == keys[1..] + [k];
      UncrossInNext(if keys[0] in r.ord && Crosses(o, r.ord[keys[0]]) then Drop(r, keys[0]) else r,
                    o, keys[1..], k);
    }
  }

  lemma SomeKey(s: set<int>)
    requires s != {}
    ensures exists p :: p in s
  {
    assert (forall p :: p !in s) ==> s == {};
  }

  /** The last key of a level map, as rbegin() finds it. */
  method MaxKey(m: map<int, int>) returns (b: int)
    requires m != map[]
    ensures b in m && forall p :: p in m ==> p <= b
  {
    var todo := m.Keys;
    SomeKey(todo);
    b :| b in todo;
    while todo != {}
      invariant todo <= m.Keys && b in m
      invariant forall p :: p in m && p !in todo ==> p <= b
      decreases |todo|
    {
      SomeKey(todo);
      var p :| p in todo;
      if p > b { b := p; }
      todo := todo - {p};
    }
  }

  /** The first key of a level map, as begin() finds it. */
  method MinKey(m: map<int, int>) returns (a: int)
    requires m != map[]
    ensures a in m && forall p :: p in m ==> a <= p
  {
    var todo := m.Keys;
    SomeKey(todo);
    a :| a in todo;
    while todo != {}
      invariant todo <= m.Keys && a in m
      invariant forall p :: p in m && p !in todo ==> a <= p
      decreases |todo|
    {
      SomeKey(todo);
      var p :| p in todo;
      if p < a { a := p; }
      todo := todo - {p};
    }
  }

  class Market {
    var ord: map<nat, Ord>
    var bid: map<int, int>
    var ask: map<int, int>

    ghost function View(): Ref
      reads this
    {
      Ref(ord, bid, ask)
    }

    constructor ()
      ensures View() == Empty
    {
      ord, bid, ask := map[], map[], map[];
    }

    /** `level(...) -= qty`, then `prune`. */
    method TakeOff(s: Side, px: int, qty: int)
      modifies this`bid, this`ask
      ensures View() == old(View()).WithLv(s, Bumped(old(View()).Lv(s), px, -qty))
    {
      if s.Buy? {
        bid := bid[px := Get(bid, px) - qty];
        if bid[px] <= 0 { bid := bid - {px}; }
      } else {
        ask := ask[px := Get(ask, px) - qty];
        if ask[px] <= 0 { ask := ask - {px}; }
      }
      assert View().Lv(s) == Bumped(old(View()).Lv(s), px, -qty);
    }

    method Erase(x: nat)
      requires x in ord
      modifies this
      ensures View() == Drop(old(View()), x)
    {
      hide Bumped;
      var o := ord[x];
      TakeOff(o.side, o.px, o.qty);
      ord := ord - {x};
    }

    /** The loop that erases what `o` crosses, in whatever order the hash map yields its entries. */
    method EraseCrossed(o: Ord)
      requires Valid(View())
      modifies this
      ensures View() == Uncross(old(View()), o)
    {
      hide Drop, Valid, Uncross;
      ghost var r := View();
      ghost var done: seq<nat> := [];
      var todo := ord.Keys;
      while todo != {}
        invariant View() == UncrossIn(r, o, done)
        invariant forall k :: k in todo ==> k in ord
        invariant forall k :: k in r.ord ==> k in done || k in todo
        decreases |todo|
      {
        var k :| k in todo;
        UncrossInNext(r, o, done, k);
        todo := todo - {k};
        if Crosses(o, ord[k]) {
          ghost var before := View();
          Erase(k);
          DropKeys(before, k);
        }
        done := done + [k];
      }
      UncrossAnyOrder(r, o, done);
    }

    method ApplyRecord(e: Event)
      requires e.Record? && Valid(View())
      modifies this
      ensures View() == Apply(old(View()), e)
    {
      hide Drop, Valid, Uncross;
      ghost var r := View();
      DropValid(r, e.xoid);
      if e.xoid in ord { Erase(e.xoid); } else { DropNone(r, e.xoid); }
      if e.action.Delete? || e.qty == 0 || e.px <= 0 || e.side.None? { return; }
      var o := Ord(e.side.value, e.px, e.qty);
      ghost var r1 := View();
      InsertValid(r1, e.xoid, o);
      if o.side.Buy? { bid := bid[o.px := Get(bid, o.px) + o.qty]; }
      else { ask := ask[o.px := Get(ask, o.px) + o.qty]; }
      ord := ord[e.xoid := o];
      assert View() == Insert(r1, e.xoid, o);
      var crossed := if o.side.Buy? then exists p :: p in ask && p <= o.px
                     else exists p :: p in bid && p >= o.px;
      CrossedTop(View(), o);
      if crossed { EraseCrossed(o); }
    }

    /** Best prices and their sizes; false when a side is empty or the book is not strict. */
    method Top() returns (ok: bool, b: int, bs: int, a: int, az: int)
      ensures ok ==> IsTop(View(), b, a) && bs == bid[b] && az == ask[a] && b < a
      ensures bid == map[] || ask == map[] ==> !ok
      ensures Valid(View()) && Strict(View()) && bid != map[] && ask != map[] ==> ok
    {
      ok, b, bs, a, az := false, 0, 0, 0, 0;
      if bid == map[] || ask == map[] { return; }
      b := MaxKey(bid);
      a := MinKey(ask);
      bs, az := bid[b], ask[a];
      ok := b < a;
      if Valid(View()) && Strict(View()) { StrictTop(View(), b, a); }
    }
  }

  lemma CrossedTop(r: Ref, o: Ord)
    ensures TopCrossed(r, o) <==> if o.side.Buy? then exists p :: p in r.ask && p <= o.px
                                  else exists p :: p in r.bid && p >= o.px
  {
    if TopCrossed(r, o) {
      var p :| p in r.Lv(Other(o.side)) && Reaches(o, p);
      if o.side.Buy? { assert p in r.ask; } else { assert p in r.bid; }
    }
    if o.side.Buy? {
      if p :| p in r.ask && p <= o.px { assert p in r.Lv(Other(o.side)) && Reaches(o, p); }
    } else {
      if p :| p in r.bid && p >= o.px { assert p in r.Lv(Other(o.side)) && Reaches(o, p); }
    }
  }

  lemma DropKeys(r: Ref, x: nat)
    ensures Drop(r, x).ord == r.ord - {x}
  {
    assert x !in r.ord ==> r.ord - {x} == r.ord;
  }

  lemma DropNone(r: Ref, x: nat)
    requires x !in r.ord
    ensures Drop(r, x) == r
  {}

  lemma StrictTop(r: Ref, b: int, a: int)
    requires Valid(r) && Strict(r) && b in r.bid && a in r.ask
    ensures b < a
  {
    hide Valid;
    LevelPresent(r, Buy, b);
    LevelPresent(r, Sell, a);
  }
}
