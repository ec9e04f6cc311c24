/**
  What each operation of the book does to every queue and to our reports, said in terms of the
  orders that rest before and after it.
 */
module Effects {
  import opened Levels
  import opened Book
  import opened NonInterference
  import opened BookPrices
  import opened LatencyQueue
  import opened QueuePosition

  /** Levels 0..maxPx+1 on both sides. */
  predicate Tall(c: Config, b: Book) { c.maxPx >= 0 && |b.bids| == c.maxPx + 2 && |b.asks| == c.maxPx + 2 }

  /** Price `k` of the other side is at or within reach of an order of side `s` at `px`. */
  predicate Within(s: Side, px: int, k: int) { if s.Buy? then k <= px else k >= px }

  // ----- an order of ours arrives

  /** The order meets an open book at or through the other side's inside. */
  predicate MeetsInside(b: Book, s: Side, px: int) {
    b.bestBid < b.bestAsk && (s.Buy? ==> b.bestAsk <= px) && (s.Sell? ==> px <= b.bestBid)
  }

  function OtherInside(b: Book, s: Side): int { if s.Buy? then b.bestAsk else b.bestBid }

  /**
    An order of ours on the ladder fills in full at the other side's inside, changing no queue, exactly
    when it meets that inside on an open book; otherwise it joins the back of its own level and nothing
    is reported.
   */
  lemma SimArrives(c: Config, b: Book, n: nat, s: Side, px: nat, sz: int, ts0: nat, at: nat)
    requires Tall(c, b) && px < c.maxPx && sz > 0
    ensures var r := ApplySim(c, b, SimAdd(n, s, px, sz, ts0), at);
            && r.dead == b.dead && r.bestBid == b.bestBid && r.bestAsk == b.bestAsk && r.orders == b.orders
            && (MeetsInside(b, s, px) ==>
                  && (forall t, k :: r.Lev(t, k) == b.Lev(t, k))
                  && r.notes == b.notes + [Fill(n, sz, 0, OtherInside(b, s))])
            && (!MeetsInside(b, s, px) ==>
                  && r.notes == b.notes && r.Lev(s, px) == b.Lev(s, px) + [Order(Sim(n), 0, sz)]
                  && forall t, k :: !(t == s && k == px) ==> r.Lev(t, k) == b.Lev(t, k))
  {
    var b1 := b.(applied := b.applied + [(SimAdd(n, s, px, sz, ts0), at)]);
    SameLevels(b, b1);
    EditLevels(b1, s, px, b1.Lev(s, px) + [Order(Sim(n), 0, sz)]);
  }

  /** Beyond the ladder an order of ours is dropped; on it, one without a size ends the process. */
  lemma SimRefused(c: Config, b: Book, n: nat, s: Side, px: nat, sz: int, ts0: nat, at: nat)
    requires px >= c.maxPx || sz <= 0
    ensures var r, m := ApplySim(c, b, SimAdd(n, s, px, sz, ts0), at), SimAdd(n, s, px, sz, ts0);
            r == b.(applied := b.applied + [(m, at)], dead := b.dead || px < c.maxPx)
  {}

  lemma SameLevels(b: Book, r: Book)
    requires r.bids == b.bids && r.asks == b.asks
    ensures forall s, p :: r.Lev(s, p) == b.Lev(s, p)
  {}

  /** What a cancel of ours does to the level it names. */
  ghost predicate CancelOutcome(q: Level, r: Level, n: nat, t: Note) {
    if exists o :: o in q && o.id == Sim(n)
    then exists i: nat :: i < |q| && q[i].id == Sim(n) && r == q[..i] + q[i + 1..] && t == CancAck(n, q[i].sz)
    else r == q && t == CancReject(n)
  }

  /** A cancel of ours takes an order of that id off the level it names and acknowledges its remaining size,
      or is rejected when none rests there; beyond the ladder it is dropped. */
  lemma SimCancelled(c: Config, b: Book, n: nat, s: Side, px: nat, ts0: nat, at: nat)
    requires Tall(c, b)
    ensures var r := ApplySim(c, b, SimCancel(n, s, px, ts0), at);
            && r.dead == b.dead && r.bestBid == b.bestBid && r.bestAsk == b.bestAsk && r.orders == b.orders
            && (forall t, k :: !(t == s && k == px) ==> r.Lev(t, k) == b.Lev(t, k))
            && (px >= c.maxPx ==> r.notes == b.notes && r.Lev(s, px) == b.Lev(s, px))
            && (px < c.maxPx ==>
                  |r.notes| == |b.notes| + 1 && b.notes <= r.notes
                  && CancelOutcome(b.Lev(s, px), r.Lev(s, px), n, r.notes[|b.notes|]))
  {
    hide Find, Remove, CancelOutcome;
    var b1 := b.(applied := b.applied + [(SimCancel(n, s, px, ts0), at)]);
    SameLevels(b, b1);
    if px < c.maxPx {
      var q := b.Lev(s, px);
      EditLevels(b1, s, px, Remove(q, Sim(n)));
      LevelCancels(q, n);
    }
  }

  lemma LevelCancels(q: Level, n: nat)
    ensures var i := Find(q, Sim(n));
            if i < |q| then CancelOutcome(q, Remove(q, Sim(n)), n, CancAck(n, q[i].sz))
            else CancelOutcome(q, q, n, CancReject(n))
  {
    hide Find, Remove;
    var i := Find(q, Sim(n));
    if i < |q| { RemoveSlices(q, Sim(n)); assert q[i] in q; }
  }

  // ----- a real order arrives

  /** A note of a sweep: a full fill of an order of ours at its own level, between lo and hi. */
  ghost predicate SweptFill(l: Ladder, lo: int, hi: int, t: Note) {
    t.Fill? && t.left == 0 && lo <= t.px <= hi && exists o :: o in At(l, t.px) && o.id == Sim(t.n) && o.sz == t.sz
  }

  lemma {:induction false} LevelFillsWhom(q: Level, px: int, t: Note)
    requires t in LevelFills(q, px)
    ensures t.Fill? && t.left == 0 && t.px == px && exists o :: o in q && o.id == Sim(t.n) && o.sz == t.sz
  {
    if q[0].IsSim() && t == Fill(q[0].id.n, q[0].sz, 0, px) {
      assert q[0] in q;
    } else {
      LevelFillsWhom(q[1..], px, t);
      var o :| o in q[1..] && o.id == Sim(t.n) && o.sz == t.sz;
      assert o in q;
    }
  }

  lemma {:induction false} NotesUpWhom(l: Ladder, lo: int, hi: int, t: Note)
    requires t in NotesUp(l, lo, hi)
    ensures SweptFill(l, lo, hi, t)
    decreases hi - lo
  {
    hide LevelFills;
    if t in LevelFills(At(l, lo), lo) { LevelFillsWhom(At(l, lo), lo, t); } else { NotesUpWhom(l, lo + 1, hi, t); }
  }

  lemma {:induction false} NotesDownWhom(l: Ladder, lo: int, hi: int, t: Note)
    requires t in NotesDown(l, lo, hi)
    ensures SweptFill(l, lo, hi, t)
    decreases hi - lo
  {
    hide LevelFills;
    if t in LevelFills(At(l, hi), hi) { LevelFillsWhom(At(l, hi), hi, t); } else { NotesDownWhom(l, lo, hi - 1, t); }
  }

  /**
    An arriving real order joins the back of its level and leaves the rest of its side alone. Of the other
    side it leaves alone every level beyond its price, and in simulation every real order; each report it
    adds is a full fill of an order of ours that rested on the other side within its price, at that
    order's own price.
   */
  lemma RealArrives(c: Config, b: Book, n: nat, x: nat, s: Side, px: int, sz: int)
    requires Tall(c, b) && OnLadder(c, px) && sz > 0
    ensures var r, o := AddReal(c, b, n, x, s, px, sz), Other(s);
            && (forall k :: r.Lev(s, k) == if k == px then b.Lev(s, k) + [Order(Real(n), x, sz)] else b.Lev(s, k))
            && (forall k :: !Within(s, px, k) ==> r.Lev(o, k) == b.Lev(o, k))
            && (forall k :: !c.repair ==> RealPart(r.Lev(o, k)) == RealPart(b.Lev(o, k)))
            && (forall k, u :: u in r.Lev(o, k) ==> u in b.Lev(o, k))
            && b.notes <= r.notes && r.applied == b.applied && r.delQ == b.delQ
            && forall i :: |b.notes| <= i < |r.notes| ==> OursFilled(b, o, s, px, r.notes[i])
  {
    hide Sweep, MoveInside, Uncrosses, OursFilled, RealPart;
    var b1 := Sweep(c, b, s, px);
    var b2 := MoveInside(c, b1, s, px, Uncrosses(c, b, s, px));
    SweepLevels(c, b, s, px);
    SweepReports(c, b, s, px);
    MoveLevels(c, b1, s, px, Uncrosses(c, b, s, px));
    SameLevels(b1, b2);
    EditLevels(b2, s, px, b2.Lev(s, px) + [Order(Real(n), x, sz)]);
  }

  lemma SweepReports(c: Config, b: Book, s: Side, px: int)
    ensures var r := Sweep(c, b, s, px);
            && b.notes <= r.notes
            && forall i :: |b.notes| <= i < |r.notes| ==> OursFilled(b, Other(s), s, px, r.notes[i])
  {
    hide NotesUp, NotesDown;
    var l := b.Lad(Other(s));
    var (lo, hi) := SweepRange(c, b, s, px);
    var notes := if s.Buy? then NotesUp(l, lo, hi) else NotesDown(l, lo, hi);
    forall i | 0 <= i < |notes| ensures OursFilled(b, Other(s), s, px, notes[i]) {
      assert notes[i] in notes;
      if s.Buy? { NotesUpWhom(l, lo, hi, notes[i]); } else { NotesDownWhom(l, lo, hi, notes[i]); }
    }
    assert Sweep(c, b, s, px).notes == b.notes + notes;
  }

  /** The sweep fills the nearest level first, and of one level the order of ours that stands first. */
  lemma SweepsNearestFirst(c: Config, b: Book, n: nat, x: nat, s: Side, px: int, sz: int)
    requires OnLadder(c, px) && sz > 0
    ensures var ts, o := AddReal(c, b, n, x, s, px, sz).notes, Other(s);
            b.notes <= ts && forall i, j :: |b.notes| <= i < j < |ts| ==> Precedes(b, o, ts[i], ts[j])
  {
    hide NotesUp, NotesDown, SweepRange, Sweep, MoveInside, Uncrosses, Precedes;
    var (lo, hi) := SweepRange(c, b, s, px);
    var ts := if s.Buy? then NotesUp(b.asks, lo, hi) else NotesDown(b.bids, lo, hi);
    if s.Buy? {
      NotesUpOrder(b.asks, lo, hi, b);
      assert ts == NotesUp(b.asks, lo, hi) && Other(s) == Sell;
      assert forall i, j :: 0 <= i < j < |ts| ==> Precedes(b, Sell, ts[i], ts[j]);
    } else {
      NotesDownOrder(b.bids, lo, hi, b);
      assert ts == NotesDown(b.bids, lo, hi) && Other(s) == Buy;
      assert forall i, j :: 0 <= i < j < |ts| ==> Precedes(b, Buy, ts[i], ts[j]);
    }
    AddReportsSweep(c, b, n, x, s, px, sz);
    var all := AddReal(c, b, n, x, s, px, sz).notes;
    forall i, j | |b.notes| <= i < j < |all| ensures Precedes(b, Other(s), all[i], all[j]) {
      var k := |b.notes|;
      assert all[i] == ts[i - k] && all[j] == ts[j - k];
    }
  }

  lemma AddReportsSweep(c: Config, b: Book, n: nat, x: nat, s: Side, px: int, sz: int)
    requires OnLadder(c, px) && sz > 0
    ensures var (lo, hi) := SweepRange(c, b, s, px);
            AddReal(c, b, n, x, s, px, sz).notes ==
            b.notes + if s.Buy? then NotesUp(b.asks, lo, hi) else NotesDown(b.bids, lo, hi)
  {
    hide NotesUp, NotesDown, SweepRange, Swept, AnyReal, WalkUp, WalkDown;
  }

  /** Of side `o`, `t` is at the nearer price, or stands ahead of `u` at one price. */
  ghost predicate Precedes(b: Book, o: Side, t: Note, u: Note) {
    t.Fill? && u.Fill? &&
    if t.px == u.px then AheadIn(b.Lev(o, t.px), t, u) else if o.Sell? then t.px < u.px else t.px > u.px
  }

  ghost predicate AheadIn(q: Level, t: Note, u: Note)
    requires t.Fill? && u.Fill?
  {
    exists i, j :: 0 <= i < j < |q| && Matches(q[i], t) && Matches(q[j], u)
  }

  predicate Matches(o: Order, t: Note)
    requires t.Fill?
  {
    o.id == Sim(t.n) && o.sz == t.sz
  }

  lemma {:induction false} LevelFillsOrder(q: Level, px: int, i: nat, j: nat)
    requires i < j < |LevelFills(q, px)|
    ensures var ts := LevelFills(q, px); ts[i].Fill? && ts[j].Fill? && AheadIn(q, ts[i], ts[j])
  {
    var ts, rest := LevelFills(q, px), LevelFills(q[1..], px);
    LevelFillsWhom(q, px, ts[i]);
    if !q[0].IsSim() || i > 0 {
      var d := if q[0].IsSim() then 1 else 0;
      LevelFillsOrder(q[1..], px, i - d, j - d);
      var x, y :| 0 <= x < y < |q[1..]| && Matches(q[1..][x], ts[i]) && Matches(q[1..][y], ts[j]);
      assert Matches(q[x + 1], ts[i]) && Matches(q[y + 1], ts[j]);
    } else {
      assert ts[j] == rest[j - 1] && ts[j] in rest;
      LevelFillsWhom(q[1..], px, ts[j]);
      var o :| o in q[1..] && o.id == Sim(ts[j].n) && o.sz == ts[j].sz;
      var y :| 0 <= y < |q[1..]| && q[1..][y] == o;
      assert Matches(q[0], ts[i]) && Matches(q[y + 1], ts[j]);
    }
  }

  lemma {:induction false} NotesUpOrder(l: Ladder, lo: int, hi: int, b: Book)
    requires l == b.asks
    ensures var ts := NotesUp(l, lo, hi); forall i, j :: 0 <= i < j < |ts| ==> Precedes(b, Sell, ts[i], ts[j])
    decreases hi - lo
  {
    hide LevelFills, AheadIn;
    if lo <= hi {
      var ts, a, z := NotesUp(l, lo, hi), LevelFills(At(l, lo), lo), NotesUp(l, lo + 1, hi);
      NotesUpOrder(l, lo + 1, hi, b);
      forall i, j | 0 <= i < j < |ts| ensures Precedes(b, Sell, ts[i], ts[j]) {
        assert ts == a + z;
        if i < |a| { assert ts[i] == a[i] && a[i] in a; LevelFillsWhom(At(l, lo), lo, a[i]); }
        if j < |a| {
          LevelFillsWhom(At(l, lo), lo, a[j]);
          LevelFillsOrder(At(l, lo), lo, i, j);
        } else {
          assert ts[j] == z[j - |a|] && z[j - |a|] in z;
          NotesUpWhom(l, lo + 1, hi, ts[j]);
          if i >= |a| { assert ts[i] == z[i - |a|]; }
        }
      }
    }
  }

  lemma {:induction false} NotesDownOrder(l: Ladder, lo: int, hi: int, b: Book)
    requires l == b.bids
    ensures var ts := NotesDown(l, lo, hi); forall i, j :: 0 <= i < j < |ts| ==> Precedes(b, Buy, ts[i], ts[j])
    decreases hi - lo
  {
    hide LevelFills, AheadIn;
    if lo <= hi {
      var ts, a, z := NotesDown(l, lo, hi), LevelFills(At(l, hi), hi), NotesDown(l, lo, hi - 1);
      NotesDownOrder(l, lo, hi - 1, b);
      forall i, j | 0 <= i < j < |ts| ensures Precedes(b, Buy, ts[i], ts[j]) {
        assert ts == a + z;
        if i < |a| { assert ts[i] == a[i] && a[i] in a; LevelFillsWhom(At(l, hi), hi, a[i]); }
        if j < |a| {
          LevelFillsWhom(At(l, hi), hi, a[j]);
          LevelFillsOrder(At(l, hi), hi, i, j);
        } else {
          assert ts[j] == z[j - |a|] && z[j - |a|] in z;
          NotesDownWhom(l, lo, hi - 1, ts[j]);
          if i >= |a| { assert ts[i] == z[i - |a|]; }
        }
      }
    }
  }

  /** An order of side `s` at `px` improves its own inside or, live, meets the other one. */
  predicate Improves(c: Config, b: Book, s: Side, px: int) {
    if s.Buy? then px > b.bestBid || (c.repair && px >= b.bestAsk) else px < b.bestAsk || (c.repair && px <= b.bestBid)
  }

  /** From its own side's inside, or from the nearer one in live trading, up to its price. */
  predicate Passed(c: Config, b: Book, s: Side, px: int, k: int) {
    && Within(s, px, k)
    && if s.Buy? then k >= b.bestBid || (c.repair && k >= b.bestAsk)
       else k <= b.bestAsk || (c.repair && k <= b.bestBid)
  }

  /** An order of ours on the other side survives an arriving real order exactly when that order does not improve
      its own side, or does not pass the level on its way. */
  lemma SweepReach(c: Config, b: Book, n: nat, x: nat, s: Side, px: int, sz: int, k: int, u: Order)
    requires Tall(c, b) && OnLadder(c, px) && sz > 0 && u in b.Lev(Other(s), k) && u.IsSim()
    ensures u in AddReal(c, b, n, x, s, px, sz).Lev(Other(s), k) <==>
            !(Improves(c, b, s, px) && Passed(c, b, s, px, k))
  {
    hide NotesUp, NotesDown, RealPart, AnyReal, WalkUp, WalkDown, Append;
    var q := b.Lev(Other(s), k);
    var b1 := Sweep(c, b, s, px);
    var b2 := MoveInside(c, b1, s, px, Uncrosses(c, b, s, px));
    RealPartMembers(q);
    MoveLevels(c, b1, s, px, Uncrosses(c, b, s, px));
    SameLevels(b1, b2);
    AppendOther(b2, s, px, Order(Real(n), x, sz), k);
  }

  lemma AppendOther(b: Book, s: Side, px: int, o: Order, k: int)
    ensures Append(b, s, px, o).Lev(Other(s), k) == b.Lev(Other(s), k)
  {}

  /** A full fill of an order of ours resting on side `o` of `b` within reach of an order of side `s` at `px`. */
  ghost predicate OursFilled(b: Book, o: Side, s: Side, px: int, t: Note) {
    && t.Fill? && t.left == 0 && Within(s, px, t.px)
    && exists u :: u in b.Lev(o, t.px) && u.id == Sim(t.n) && u.sz == t.sz
  }

  lemma MoveLevels(c: Config, b: Book, s: Side, px: int, u: bool)
    ensures var r := MoveInside(c, b, s, px, u);
            r.bids == b.bids && r.asks == b.asks && r.notes == b.notes && r.applied == b.applied && r.delQ == b.delQ
  {}

  lemma SweepLevels(c: Config, b: Book, s: Side, px: int)
    ensures var r := Sweep(c, b, s, px);
            && (forall k :: r.Lev(s, k) == b.Lev(s, k))
            && (forall k :: !Within(s, px, k) ==> r.Lev(Other(s), k) == b.Lev(Other(s), k))
            && (forall k :: !c.repair ==> RealPart(r.Lev(Other(s), k)) == RealPart(b.Lev(Other(s), k)))
            && (forall k, u :: u in r.Lev(Other(s), k) ==> u in b.Lev(Other(s), k))
  {
    hide NotesUp, NotesDown, RealPart;
    forall k ensures RealPart(RealPart(b.Lev(Other(s), k))) == RealPart(b.Lev(Other(s), k))
             ensures forall u :: u in RealPart(b.Lev(Other(s), k)) ==> u in b.Lev(Other(s), k)
    {
      RealPartIdem(b.Lev(Other(s), k));
      RealPartMembers(b.Lev(Other(s), k));
    }
  }

  // ----- an execution

  /** The full fills of `q` from its last order to its first. */
  function FullFills(q: Level, px: int): (r: seq<Note>)
    ensures |r| == |q|
  {
    if q == [] then []
    else
      var o := q[|q| - 1];
      [Fill(o.id.n, o.sz, 0, px)] + FullFills(q[..|q| - 1], px)
  }

  /**
    `sz` lots filled from the back of `q`: from some order on everything behind is filled in full, last
    order first, and the order before them takes what is left over, if anything is.
   */
  ghost predicate FilledFromBack(q: Level, sz: int, px: int, r: Level, ts: seq<Note>) {
    exists k: nat :: k <= |q| && SplitAt(q, sz, px, r, ts, k)
  }

  ghost predicate SplitAt(q: Level, sz: int, px: int, r: Level, ts: seq<Note>, k: nat)
    requires k <= |q|
  {
    var over := sz - SimSize(q[k..]);
    && over >= 0
    && (over == 0 || k == 0 ==> r == q[..k] && ts == FullFills(q[k..], px))
    && (over > 0 && k > 0 ==>
          var o := q[k - 1];
          && o.sz > over && r == q[..k - 1] + [o.(sz := o.sz - over)]
          && ts == FullFills(q[k..], px) + [Fill(o.id.n, over, o.sz - over, px)])
  }

  lemma {:induction false} BackIsFilled(q: Level, sz: int, px: int)
    requires AllSim(q) && sz >= 0
    ensures FilledFromBack(q, sz, px, FillBack(q, sz, px).0, FillBack(q, sz, px).1)
  {
    hide FilledFromBack, SimSize;
    var n := |q|;
    NoSize();
    assert q[n..] == [] && q[..n] == q;
    if q == [] || sz == 0 || q[n - 1].sz > sz {
      SplitNone(q, sz, px);
      IsSplit(q, sz, px, FillBack(q, sz, px).0, FillBack(q, sz, px).1, n);
    } else {
      var front, last := q[..n - 1], q[n - 1];
      BackIsFilled(front, sz - last.sz, px);
      BackNext(q, sz, px);
    }
  }

  lemma NoSize()
    ensures SimSize([]) == 0 && forall px :: FullFills([], px) == []
  {}

  lemma IsSplit(q: Level, sz: int, px: int, r: Level, ts: seq<Note>, k: nat)
    requires k <= |q| && SplitAt(q, sz, px, r, ts, k)
    ensures FilledFromBack(q, sz, px, r, ts)
  {
    hide SplitAt;
  }

  lemma SplitNone(q: Level, sz: int, px: int)
    requires AllSim(q) && sz >= 0 && (q == [] || sz == 0 || q[|q| - 1].sz > sz)
    ensures SplitAt(q, sz, px, FillBack(q, sz, px).0, FillBack(q, sz, px).1, |q|)
  {
    assert q[|q|..] == [] && q[..|q|] == q;
  }

  lemma BackNext(q: Level, sz: int, px: int)
    requires AllSim(q) && q != [] && sz > 0 && q[|q| - 1].sz <= sz
    requires var f := FillBack(q[..|q| - 1], sz - q[|q| - 1].sz, px);
             FilledFromBack(q[..|q| - 1], sz - q[|q| - 1].sz, px, f.0, f.1)
    ensures FilledFromBack(q, sz, px, FillBack(q, sz, px).0, FillBack(q, sz, px).1)
  {
    hide SplitAt;
    var n := |q|;
    var front, last := q[..n - 1], q[n - 1];
    var f := FillBack(front, sz - last.sz, px);
    var k: nat :| k <= |front| && SplitAt(front, sz - last.sz, px, f.0, f.1, k);
    SplitNext(q, sz, px, f.0, f.1, k);
    IsSplit(q, sz, px, f.0, [Fill(last.id.n, last.sz, 0, px)] + f.1, k);
  }

  lemma SplitNext(q: Level, sz: int, px: int, r: Level, ts: seq<Note>, k: nat)
    requires AllSim(q) && q != [] && k < |q|
    requires SplitAt(q[..|q| - 1], sz - q[|q| - 1].sz, px, r, ts, k)
    ensures SplitAt(q, sz, px, r, [Fill(q[|q| - 1].id.n, q[|q| - 1].sz, 0, px)] + ts, k)
  {
    hide SimSize;
    var n := |q|;
    var front, last := q[..n - 1], q[n - 1];
    assert q[k..][..|q[k..]| - 1] == front[k..] && q[k..] == front[k..] + [last];
    LastSize(front[k..], last);
    assert front[..k] == q[..k];
    if k > 0 { assert front[..k - 1] == q[..k - 1] && front[k - 1] == q[k - 1]; }
  }

  lemma LastSize(a: Level, o: Order)
    requires o.IsSim()
    ensures SimSize(a + [o]) == SimSize(a) + o.sz
  {
    SimSizeConcat(a, [o]);
  }

  /** `sz` lots filled from the back of the orders ahead of the first real one. */
  ghost predicate HeadExecuted(q: Level, sz: int, px: int, r: Level, ts: seq<Note>) {
    exists h: nat :: IsHead(q, h) && exists front :: FilledFromBack(q[..h], sz, px, front, ts) && r == front + q[h..]
  }

  /**
    An execution of real order `m`: when it is the head real order of its level, `sz` lots are filled from
    the back of our orders ahead of it and everything from it on stays; otherwise nothing happens. Other
    levels stay in any case.
   */
  lemma Executes(c: Config, b: Book, m: nat, s: Side, px: int, sz: int)
    requires Tall(c, b) && OnLadder(c, px) && sz > 0
    requires forall o :: o in b.Lev(s, px) && o.IsSim() ==> o.sz > 0
    ensures var r, q := ExecReal(c, b, m, s, px, sz), b.Lev(s, px);
            && (forall t, k :: !(t == s && k == px) ==> r.Lev(t, k) == b.Lev(t, k))
            && b.notes <= r.notes
            && (ExecutesHead(q, m) ==> HeadExecuted(q, sz, px, r.Lev(s, px), r.notes[|b.notes|..]))
            && (!ExecutesHead(q, m) ==> r.Lev(s, px) == q && r.notes == b.notes)
  {
    hide HeadExecuted, ExecutesHead, ExecLevel, Book.Lev, ExecReal, Find;
    var q := b.Lev(s, px);
    var f := ExecLevel(q, m, sz, px);
    HeadFound(q, m);
    if Holds(q, Real(m)) {
      ExecLevels(c, b, m, s, px, sz);
      LevelExecuted(q, m, sz, px);
      assert (b.notes + f.1)[|b.notes|..] == f.1;
      assert !ExecutesHead(q, m) ==> b.notes + f.1 == b.notes;
    } else {
      assert ExecReal(c, b, m, s, px, sz) == b by { ExecAbsent(c, b, m, s, px, sz); }
    }
  }

  lemma ExecAbsent(c: Config, b: Book, m: nat, s: Side, px: int, sz: int)
    requires !Holds(b.Lev(s, px), Real(m))
    ensures ExecReal(c, b, m, s, px, sz) == b
  {}

  lemma ExecLevels(c: Config, b: Book, m: nat, s: Side, px: int, sz: int)
    requires Tall(c, b) && OnLadder(c, px) && sz > 0 && Holds(b.Lev(s, px), Real(m))
    ensures var r, f := ExecReal(c, b, m, s, px, sz), ExecLevel(b.Lev(s, px), m, sz, px);
            && (forall t, k :: r.Lev(t, k) == if t == s && k == px then f.0 else b.Lev(t, k))
            && r.notes == b.notes + f.1 && r.applied == b.applied && r.delQ == b.delQ
  {
    hide Rewalk, ExecLevel, Find;
    var f := ExecLevel(b.Lev(s, px), m, sz, px);
    EditLevels(b, s, px, f.0);
    var b1 := b.WithLev(s, px, f.0);
    var b2 := b1.(notes := b.notes + f.1);
    SameLevels(b1, b2);
    RewalkLevels(c, b2, s, px);
    RewalkNotes(c, b2, s, px);
  }

  lemma RewalkNotes(c: Config, b: Book, s: Side, px: int)
    ensures Rewalk(c, b, s, px).notes == b.notes && Rewalk(c, b, s, px).dead == b.dead
  {}

  lemma LevelExecuted(q: Level, m: nat, sz: int, px: int)
    requires sz > 0 && forall o :: o in q && o.IsSim() ==> o.sz > 0
    ensures var f := ExecLevel(q, m, sz, px);
            && (ExecutesHead(q, m) ==> HeadExecuted(q, sz, px, f.0, f.1))
            && (!ExecutesHead(q, m) ==> f == (q, []))
  {
    hide FillBack, FilledFromBack, ExecutesHead, IsHead;
    HeadFound(q, m);
    var h := HeadReal(q);
    if ExecutesHead(q, m) {
      forall i | 0 <= i < h ensures q[..h][i].IsSim() && q[..h][i].sz > 0 { assert q[i] in q; }
      BackIsFilled(q[..h], sz, px);
      assert IsHead(q, h);
    }
  }

  /** Position `h` holds the first real order. */
  ghost predicate IsHead(q: Level, h: nat) { h < |q| && !q[h].IsSim() && forall i :: 0 <= i < h ==> q[i].IsSim() }

  ghost predicate ExecutesHead(q: Level, m: nat) { exists h: nat :: IsHead(q, h) && q[h].id == Real(m) }

  lemma HeadFound(q: Level, m: nat)
    ensures var h := HeadReal(q);
            ExecutesHead(q, m) <==> h < |q| && Find(q, Real(m)) == h
    ensures ExecutesHead(q, m) ==> IsHead(q, HeadReal(q)) && Holds(q, Real(m))
  {
    hide HeadReal, Find;
    var h, i := HeadReal(q), Find(q, Real(m));
    if ExecutesHead(q, m) {
      var g: nat :| IsHead(q, g) && q[g].id == Real(m);
      assert g <= h && h <= g && i <= g;
      assert i >= h;
    }
    if h < |q| && i == h { assert IsHead(q, h) && q[h].id == Real(m); }
  }
}
