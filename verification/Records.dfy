/**
  What each record of the feed does to the place of its order, relative to the book `d` that our due
  messages leave when the record releases them: who loses its place, who keeps it, and which records
  end the process.
 */
module Records {
  import opened Levels
  import opened Book
  import opened NonInterference
  import opened BookPrices
  import opened BookIndex
  import opened LatencyQueue
  import opened Effects
  import opened QueuePosition

  /** The book a live record of time `tim` finds, once our due messages have taken effect. */
  function Found(c: Config, b: Book, tim: nat): Book { Drain(c, b.(inRecovery := false), tim) }

  // ----- when a record ends the process

  /** A transaction boundary in simulation, while matching is on, on a crossed book. */
  predicate CrossedAtBoundary(c: Config, b: Book, tim: nat) {
    !c.repair && b.matching && 0 < b.boundary < tim && b.bestBid > b.bestAsk
  }

  /** A real payload that fails an assertion on its size. */
  predicate BadSize(c: Config, b: Book, p: Payload) {
    && p.px < c.maxPx
    && match p
       case PAdd(_, _, _, _, sz) => sz <= 0
       case PCancel(_, _, _) => false
       case PResize(n, s, px, sz) => sz <= 0 && exists o :: o in b.Lev(s, px) && o.id == Real(n)
       case PExec(n, s, px, sz) => sz <= 0 && exists o :: o in b.Lev(s, px) && o.id == Real(n)
  }

  lemma HoldsIff(q: Level, id: OrderId)
    ensures Holds(q, id) <==> exists o :: o in q && o.id == id
  {
    var i := Find(q, id);
    if i < |q| { assert q[i] in q; }
  }

  lemma PayloadDiesIff(c: Config, b: Book, p: Payload)
    requires !b.dead
    ensures ApplyPayload(c, b, p).dead <==> BadSize(c, b, p)
  {
    hide Sweep, MoveInside, Rewalk, Append, ExecLevel, Book.WithLev, Find, Remove, Resize;
    match p
    case PAdd(n, x, s, px, sz) => AddDies(c, b, n, x, s, px, sz);
    case PCancel(n, s, px) => CancelDies(c, b, n, s, px);
    case PResize(n, s, px, sz) => HoldsIff(b.Lev(s, px), Real(n)); ResizeDies(c, b, n, s, px, sz);
    case PExec(n, s, px, sz) => HoldsIff(b.Lev(s, px), Real(n)); ExecDies(c, b, n, s, px, sz);
  }

  lemma AddDies(c: Config, b: Book, n: nat, x: nat, s: Side, px: int, sz: int)
    requires !b.dead
    ensures AddReal(c, b, n, x, s, px, sz).dead <==> px < c.maxPx && sz <= 0
  {
    hide Swept, NotesUp, NotesDown, WalkUp, WalkDown, AnyReal;
  }

  lemma CancelDies(c: Config, b: Book, n: nat, s: Side, px: int)
    requires !b.dead
    ensures !CancelReal(c, b, n, s, px).dead
  {
    hide WalkUp, WalkDown, Remove, Find;
  }

  lemma ResizeDies(c: Config, b: Book, n: nat, s: Side, px: int, sz: int)
    requires !b.dead
    ensures ResizeReal(c, b, n, s, px, sz).dead <==> px < c.maxPx && Holds(b.Lev(s, px), Real(n)) && sz <= 0
  {
    hide WalkUp, WalkDown, Resize, Find;
  }

  lemma ExecDies(c: Config, b: Book, n: nat, s: Side, px: int, sz: int)
    requires !b.dead
    ensures ExecReal(c, b, n, s, px, sz).dead <==> px < c.maxPx && Holds(b.Lev(s, px), Real(n)) && sz <= 0
  {
    hide WalkUp, WalkDown, ExecLevel, Find;
  }

  /**
    A payload that reaches the queues ends the process exactly when it finds a crossed book at a boundary,
    or has a bad size; in live trading never for a cross. Otherwise the boundary moves to the latest time.
   */
  lemma ProcessDiesIff(c: Config, b: Book, p: Payload, tim: nat)
    requires !b.dead && AllProper(b.delQ) && p.px > 0
    ensures Process(c, b, p, tim).dead <==>
            CrossedAtBoundary(c, b, tim) || BadSize(c, Drain(c, b, tim), p)
    ensures !Process(c, b, p, tim).dead ==> Process(c, b, p, tim).boundary == Max(b.boundary, tim)
  {
    hide ApplyPayload, Drain, BadSize;
    DrainLives(c, b, tim);
    DrainReleases(c, b, tim);
    var d := Drain(c, b, tim);
    var d1 := d.(boundary := Max(d.boundary, tim));
    DrainMarket(c, b, tim);
    PayloadDiesIff(c, d1, p);
    SameBad(c, d, d1, p);
  }

  lemma SameBad(c: Config, b: Book, r: Book, p: Payload)
    requires r.bids == b.bids && r.asks == b.asks
    ensures BadSize(c, b, p) == BadSize(c, r, p)
  {
    SameLevels(b, r);
  }

  lemma {:induction false} DrainLives(c: Config, b: Book, tim: nat)
    requires !b.dead && AllProper(b.delQ)
    ensures !Drain(c, b, tim).dead
    decreases |b.delQ|
  {
    hide ApplySim;
    if !(b.delQ == [] || Due(c, b.delQ[0]) >= tim) {
      var b0 := b.(delQ := b.delQ[1..]);
      ProperLives(c, b0, b.delQ[0], tim);
      DrainLives(c, ApplySim(c, b0, b.delQ[0], tim), tim);
    }
  }

  /** Releasing our messages moves nothing of the market. */
  lemma {:induction false} DrainMarket(c: Config, b: Book, tim: nat)
    ensures var d := Drain(c, b, tim);
            && d.boundary == b.boundary && d.matching == b.matching && d.orders == b.orders && d.nextId == b.nextId
            && d.inRecovery == b.inRecovery && |d.bids| == |b.bids| && |d.asks| == |b.asks|
    decreases |b.delQ|
  {
    hide ApplySim;
    if !(b.dead || b.delQ == [] || Due(c, b.delQ[0]) >= tim) {
      var b0 := b.(delQ := b.delQ[1..]);
      SimMarket(c, b0, b.delQ[0], tim);
      DrainMarket(c, ApplySim(c, b0, b.delQ[0], tim), tim);
    }
  }

  lemma SimMarket(c: Config, b: Book, m: SimMsg, at: nat)
    ensures var d := ApplySim(c, b, m, at);
            && d.boundary == b.boundary && d.matching == b.matching && d.orders == b.orders && d.nextId == b.nextId
            && d.inRecovery == b.inRecovery && |d.bids| == |b.bids| && |d.asks| == |b.asks|
  {
    hide Append, Book.WithLev, Remove, Find;
    match m
    case SimAdd(n, s, px, sz, _) => SimAddSizes(c, b.(applied := b.applied + [(m, at)]), n, s, px, sz);
    case SimCancel(n, s, px, _) => SimCancelSizes(c, b.(applied := b.applied + [(m, at)]), n, s, px);
  }

  lemma SimAddSizes(c: Config, b: Book, n: nat, s: Side, px: nat, sz: int)
    ensures |AddSim(c, b, n, s, px, sz).bids| == |b.bids| && |AddSim(c, b, n, s, px, sz).asks| == |b.asks|
  {}

  lemma SimCancelSizes(c: Config, b: Book, n: nat, s: Side, px: nat)
    ensures var d := CancelSim(c, b, n, s, px);
            |d.bids| == |b.bids| && |d.asks| == |b.asks| && d.orders == b.orders && d.nextId == b.nextId
            && d.boundary == b.boundary && d.matching == b.matching && d.inRecovery == b.inRecovery
  {
    hide Remove, Find;
  }

  lemma ProcessFound(c: Config, b: Book, p: Payload, tim: nat)
    requires p.px > 0 && !b.dead && !Process(c, b, p, tim).dead
    ensures var d := Drain(c, b, tim);
            !d.dead && Process(c, b, p, tim) == ApplyPayload(c, d.(boundary := Max(d.boundary, tim)), p)
  {
    hide ApplyPayload, Drain;
  }

  lemma DrainNothing(c: Config, b: Book, tim: nat)
    requires b.delQ == [] || Due(c, b.delQ[0]) >= tim
    ensures Drain(c, b, tim) == b
  {}

  // ----- levels with one order taken out or changed

  /** The queue without the order at `i`. */
  predicate TakenOut(q: Level, i: nat, r: Level) { i < |q| && r == q[..i] + q[i + 1..] }

  predicate Resized(q: Level, i: nat, sz: int, r: Level) { i < |q| && r == q[..i] + [q[i].(sz := sz)] + q[i + 1..] }

  /** Order `o` is at `i`, and no other order of the queue has its id. */
  predicate Only(q: Level, i: nat, o: Order) {
    i < |q| && q[i] == o && forall j :: 0 <= j < |q| && q[j].id == o.id ==> j == i
  }

  lemma CancelTakesOut(c: Config, b: Book, n: nat, s: Side, px: int, i: nat)
    requires Tall(c, b) && OnLadder(c, px) && i < |b.Lev(s, px)| && Only(b.Lev(s, px), i, b.Lev(s, px)[i])
    requires b.Lev(s, px)[i].id == Real(n)
    ensures var r := CancelReal(c, b, n, s, px);
            && TakenOut(b.Lev(s, px), i, r.Lev(s, px)) && r.dead == b.dead
            && (forall t, k :: !(t == s && k == px) ==> r.Lev(t, k) == b.Lev(t, k))
            && r.notes == b.notes && Tall(c, r)
  {
    hide Rewalk, Find, Remove;
    var q := b.Lev(s, px);
    assert Find(q, Real(n)) == i;
    RemoveSlices(q, Real(n));
    EditLevels(b, s, px, Remove(q, Real(n)));
    var b1 := b.WithLev(s, px, Remove(q, Real(n)));
    RewalkLevels(c, b1, s, px);
    RewalkNotes(c, b1, s, px);
  }

  lemma ResizeInPlace(c: Config, b: Book, n: nat, s: Side, px: int, sz: int, i: nat)
    requires Tall(c, b) && OnLadder(c, px) && i < |b.Lev(s, px)| && Only(b.Lev(s, px), i, b.Lev(s, px)[i])
    requires b.Lev(s, px)[i].id == Real(n) && sz > 0
    ensures var r := ResizeReal(c, b, n, s, px, sz);
            && Resized(b.Lev(s, px), i, sz, r.Lev(s, px)) && r.dead == b.dead
            && (forall t, k :: !(t == s && k == px) ==> r.Lev(t, k) == b.Lev(t, k))
            && r.notes == b.notes
  {
    hide Rewalk, Find, Resize;
    var q := b.Lev(s, px);
    assert Find(q, Real(n)) == i;
    ResizeUpdates(q, Real(n), sz);
    EditLevels(b, s, px, Resize(q, Real(n), sz));
    var b1 := b.WithLev(s, px, Resize(q, Real(n), sz));
    RewalkLevels(c, b1, s, px);
    RewalkNotes(c, b1, s, px);
  }

  // ----- records

  /** The order of entry `x` rests as the entry says, alone with its id. */
  ghost predicate Described(c: Config, b: Book, x: nat) {
    && x in b.orders && OnLadder(c, b.orders[x].px)
    && var o := b.orders[x];
       && Order(Real(o.id), x, o.sz) in b.Lev(o.side, o.px)
       && exists i: nat :: Only(b.Lev(o.side, o.px), i, Order(Real(o.id), x, o.sz))
  }

  /** ... and still does, alone, when our due messages have taken effect. */
  lemma StillDescribed(c: Config, b: Book, x: nat, tim: nat) returns (i: nat)
    requires Described(c, b, x) && !Drain(c, b, tim).dead
    ensures var o := b.orders[x]; Only(Drain(c, b, tim).Lev(o.side, o.px), i, Order(Real(o.id), x, o.sz))
  {
    hide Drain, RealPart, Book.Lev;
    var o := b.orders[x];
    var u, q := Order(Real(o.id), x, o.sz), b.Lev(o.side, o.px);
    var d := Drain(c, b, tim);
    EraseDrain(c, b, tim);
    ErasedLevels(b);
    ErasedLevels(d);
    var k: nat :| Only(q, k, u);
    OnlyReal(q, k, u);
    assert RealPart(d.Lev(o.side, o.px)) == RealPart(q) by { SameReals(b, d, o.side, o.px); }
    i := OnlyBack(d.Lev(o.side, o.px), u);
  }

  lemma SameReals(b: Book, d: Book, s: Side, p: int)
    requires Erase(d) == Erase(b)
    ensures RealPart(d.Lev(s, p)) == RealPart(b.Lev(s, p))
  {
    hide RealPart;
    assert Erase(d).Lev(s, p) == Erase(b).Lev(s, p);
  }

  /** A real order alone with its id in a queue is alone with it among the real orders. */
  lemma {:induction false} OnlyReal(q: Level, i: nat, u: Order)
    requires Only(q, i, u) && !u.IsSim()
    ensures exists k: nat :: Only(RealPart(q), k, u)
  {
    var t := q[1..];
    if i == 0 {
      RealPartMembers(t);
      assert forall j :: 0 <= j < |RealPart(t)| ==> RealPart(t)[j] in t;
      assert forall j :: 1 <= j < |q| ==> q[j] == t[j - 1];
      assert Only(RealPart(q), 0, u);
    } else {
      assert Only(t, i - 1, u);
      OnlyReal(t, i - 1, u);
      var k: nat :| Only(RealPart(t), k, u);
      if q[0].IsSim() { assert Only(RealPart(q), k, u); } else { assert Only(RealPart(q), k + 1, u); }
    }
  }

  lemma OnlyCons(q: Level, i: nat, u: Order)
    requires q != [] && Only(q[1..], i, u) && q[0].id != u.id
    ensures Only(q, i + 1, u)
  {
    assert forall j :: 1 <= j < |q| ==> q[j] == q[1..][j - 1];
  }

  lemma {:induction false} OnlyBack(q: Level, u: Order) returns (i: nat)
    requires !u.IsSim() && exists k: nat :: Only(RealPart(q), k, u)
    ensures Only(q, i, u)
  {
    var k: nat :| Only(RealPart(q), k, u);
    var t := q[1..];
    if q[0].IsSim() {
      assert Only(RealPart(t), k, u);
      var k1 := OnlyBack(t, u);
      i := k1 + 1;
      OnlyCons(q, k1, u);
    } else if k == 0 {
      i := 0;
      RealPartMembers(t);
      forall j | 1 <= j < |q| ensures q[j].id != u.id {
        assert q[j] == t[j - 1] && t[j - 1] in t;
        if !q[j].IsSim() {
          var m :| 0 <= m < |RealPart(t)| && RealPart(t)[m] == t[j - 1];
          assert RealPart(q)[m + 1] == q[j];
        }
      }
    } else {
      assert Only(RealPart(t), k - 1, u) by {
        assert forall j :: 0 <= j < |RealPart(t)| ==> RealPart(t)[j] == RealPart(q)[j + 1];
      }
      var k1 := OnlyBack(t, u);
      i := k1 + 1;
      assert RealPart(q)[0] == q[0] && RealPart(q)[0].id != u.id;
      OnlyCons(q, k1, u);
    }
  }

  /** A New of an unknown order, in or out of a snapshot that has begun: its order joins the back of its own
      level under the next book id. */
  lemma NewJoins(c: Config, b: Book, e: Event)
    requires Tall(c, b) && !b.dead && e.Record? && e.action.New? && OnLadder(c, e.px) && e.xoid !in b.orders
    requires (e.recovery ==> b.inRecovery) && !Step(c, b, e).dead
    ensures var r, d, s := Step(c, b, e), Found(c, b, e.tim), e.side.value;
            && e.side.Some? && e.qty > 0
            && r.orders == b.orders[e.xoid := Info(b.nextId, e.px, e.qty, s)] && r.nextId == b.nextId + 1
            && r.inRecovery == e.recovery
            && (forall k :: r.Lev(s, k) ==
                            d.Lev(s, k) + if k == e.px then [Order(Real(b.nextId), e.xoid, e.qty)] else [])
            && (forall k :: !Within(s, e.px, k) ==> r.Lev(Other(s), k) == d.Lev(Other(s), k))
            && d.notes <= r.notes
  {
    hide Drain, AddReal, Process, Book.Lev;
    var s := e.side.value;
    var b0 := b.(inRecovery := false);
    var b1 := b.(orders := b.orders[e.xoid := Info(b.nextId, e.px, e.qty, s)], nextId := b.nextId + 1,
                 inRecovery := e.recovery);
    var p := PAdd(b.nextId, e.xoid, s, e.px, e.qty);
    ProcessFound(c, b1, p, e.tim);
    DrainFields(c, b0, b1, e.tim);
    DrainMarket(c, b1, e.tim);
    var d1 := Drain(c, b1, e.tim);
    var d2 := d1.(boundary := Max(d1.boundary, e.tim));
    SameLevels(d1, d2);
    SameLevels(Drain(c, b0, e.tim), d1);
    RealArrives(c, d2, b.nextId, e.xoid, s, e.px, e.qty);
  }

  /** The drain does not look at the order map, the next id or the recovery flag. */
  lemma {:induction false} DrainFields(c: Config, b: Book, r: Book, tim: nat)
    requires r == b.(orders := r.orders, nextId := r.nextId, inRecovery := r.inRecovery)
    ensures var d := Drain(c, b, tim);
            Drain(c, r, tim) == d.(orders := r.orders, nextId := r.nextId, inRecovery := r.inRecovery)
    decreases |b.delQ|
  {
    hide ApplySim;
    if !(b.dead || b.delQ == [] || Due(c, b.delQ[0]) >= tim) {
      var b0, r0 := b.(delQ := b.delQ[1..]), r.(delQ := b.delQ[1..]);
      SimFields(c, b0, r0, b.delQ[0], tim);
      SimMarket(c, b0, b.delQ[0], tim);
      DrainFields(c, ApplySim(c, b0, b.delQ[0], tim), ApplySim(c, r0, b.delQ[0], tim), tim);
    }
  }

  lemma SimFields(c: Config, b: Book, r: Book, m: SimMsg, at: nat)
    requires r == b.(orders := r.orders, nextId := r.nextId, inRecovery := r.inRecovery)
    ensures ApplySim(c, r, m, at) ==
            ApplySim(c, b, m, at).(orders := r.orders, nextId := r.nextId, inRecovery := r.inRecovery)
  {
    hide AddSim, CancelSim;
    var b1, r1 := b.(applied := b.applied + [(m, at)]), r.(applied := r.applied + [(m, at)]);
    match m
    case SimAdd(n, s, px, sz, _) => AddSimFields(c, b1, r1, n, s, px, sz);
    case SimCancel(n, s, px, _) => CancelSimFields(c, b1, r1, n, s, px);
  }

  lemma WithLevFields(b: Book, r: Book, s: Side, px: int, q: Level)
    requires r == b.(orders := r.orders, nextId := r.nextId, inRecovery := r.inRecovery)
    ensures r.WithLev(s, px, q) ==
            b.WithLev(s, px, q).(orders := r.orders, nextId := r.nextId, inRecovery := r.inRecovery)
    ensures r.Lev(s, px) == b.Lev(s, px)
  {
    hide Put;
  }

  lemma AddSimFields(c: Config, b: Book, r: Book, n: nat, s: Side, px: nat, sz: int)
    requires r == b.(orders := r.orders, nextId := r.nextId, inRecovery := r.inRecovery)
    ensures AddSim(c, r, n, s, px, sz) ==
            AddSim(c, b, n, s, px, sz).(orders := r.orders, nextId := r.nextId, inRecovery := r.inRecovery)
  {
    hide Book.WithLev, Book.Lev;
    WithLevFields(b, r, s, px, b.Lev(s, px) + [Order(Sim(n), 0, sz)]);
  }

  lemma CancelSimFields(c: Config, b: Book, r: Book, n: nat, s: Side, px: nat)
    requires r == b.(orders := r.orders, nextId := r.nextId, inRecovery := r.inRecovery)
    ensures CancelSim(c, r, n, s, px) ==
            CancelSim(c, b, n, s, px).(orders := r.orders, nextId := r.nextId, inRecovery := r.inRecovery)
  {
    hide Book.WithLev, Book.Lev, Find, Remove;
    WithLevFields(b, r, s, px, Remove(b.Lev(s, px), Sim(n)));
  }

  /** A Delete takes its order out of its queue, and out of the map. */
  lemma DeleteTakesOut(c: Config, b: Book, e: Event) returns (i: nat)
    requires Tall(c, b) && !b.dead && e.Record? && !e.recovery && Described(c, b, e.xoid)
    requires e.action.Delete? || (e.action.Change? && !OnLadder(c, e.px))
    requires !Step(c, b, e).dead
    ensures var r, d, o := Step(c, b, e), Found(c, b, e.tim), b.orders[e.xoid];
            && Only(d.Lev(o.side, o.px), i, Order(Real(o.id), e.xoid, o.sz))
            && TakenOut(d.Lev(o.side, o.px), i, r.Lev(o.side, o.px))
            && (forall t, k :: !(t == o.side && k == o.px) ==> r.Lev(t, k) == d.Lev(t, k))
            && r.orders == b.orders - {e.xoid} && r.notes == d.notes
  {
    hide Drain, Process, Book.Lev, CancelReal;
    var o := b.orders[e.xoid];
    var b0 := b.(inRecovery := false);
    var p := PCancel(o.id, o.side, o.px);
    var r := Process(c, b0, p, e.tim);
    assert Step(c, b, e) == r.(orders := r.orders - {e.xoid});
    SameLevels(r, Step(c, b, e));
    ProcessFound(c, b0, p, e.tim);
    DrainMarket(c, b0, e.tim);
    var d := Drain(c, b0, e.tim);
    assert Described(c, b0, e.xoid) by { SameDescribed(c, b, b0, e.xoid); }
    i := StillDescribed(c, b0, e.xoid, e.tim);
    var d2 := d.(boundary := Max(d.boundary, e.tim));
    SameLevels(d, d2);
    CancelTakesOut(c, d2, o.id, o.side, o.px, i);
  }

  lemma SameDescribed(c: Config, b: Book, r: Book, x: nat)
    requires Described(c, b, x) && r.bids == b.bids && r.asks == b.asks && x in r.orders && r.orders[x] == b.orders[x]
    ensures Described(c, r, x)
  {
    SameLevels(b, r);
  }

  /** The Change asks for more than the order has, or for another price. */
  predicate GrowsOrMoves(o: Info, e: Event)
    requires e.Record?
  {
    e.qty > o.sz || (e.side.Some? && e.px != o.px)
  }

  /** A Change that neither grows nor moves its order sets its size in place. */
  lemma ChangeKeepsPlace(c: Config, b: Book, e: Event) returns (i: nat)
    requires Tall(c, b) && !b.dead && e.Record? && e.action.Change? && !e.recovery && OnLadder(c, e.px)
    requires Described(c, b, e.xoid) && !Step(c, b, e).dead && !GrowsOrMoves(b.orders[e.xoid], e)
    ensures var r, d, o := Step(c, b, e), Found(c, b, e.tim), b.orders[e.xoid];
            && Only(d.Lev(o.side, o.px), i, Order(Real(o.id), e.xoid, o.sz))
            && Resized(d.Lev(o.side, o.px), i, e.qty, r.Lev(o.side, o.px))
            && (forall t, k :: !(t == o.side && k == o.px) ==> r.Lev(t, k) == d.Lev(t, k))
            && r.orders == b.orders[e.xoid := o.(sz := e.qty)] && r.nextId == b.nextId && r.notes == d.notes
  {
    hide Drain, Process, Book.Lev, ResizeReal;
    var o := b.orders[e.xoid];
    var b0 := b.(inRecovery := false);
    var b1 := b0.(orders := b.orders[e.xoid := o.(sz := e.qty)]);
    var p := PResize(o.id, o.side, o.px, e.qty);
    assert Step(c, b, e) == Process(c, b1, p, e.tim);
    ProcessFound(c, b1, p, e.tim);
    DrainFields(c, b0, b1, e.tim);
    DrainMarket(c, b1, e.tim);
    var d, d1 := Drain(c, b0, e.tim), Drain(c, b1, e.tim);
    SameLevels(d, d1);
    assert Described(c, b0, e.xoid) by { SameDescribed(c, b, b0, e.xoid); }
    i := StillDescribed(c, b0, e.xoid, e.tim);
    var d2 := d1.(boundary := Max(d1.boundary, e.tim));
    SameLevels(d1, d2);
    OnlyFound(d2.Lev(o.side, o.px), i, Order(Real(o.id), e.xoid, o.sz));
    ResizeAlive(c, d2, o.id, o.side, o.px, e.qty);
    ResizeInPlace(c, d2, o.id, o.side, o.px, e.qty, i);
  }

  lemma OnlyFound(q: Level, i: nat, u: Order)
    requires Only(q, i, u)
    ensures Holds(q, u.id)
  {}

  lemma ResizeAlive(c: Config, b: Book, n: nat, s: Side, px: int, sz: int)
    requires !ResizeReal(c, b, n, s, px, sz).dead && px < c.maxPx && Holds(b.Lev(s, px), Real(n))
    ensures sz > 0
  {}

  /** What a Change that loses its place leaves at its old level. */
  ghost predicate Rejoined(c: Config, b: Book, e: Event, r: Book, i: nat)
    requires e.Record? && e.xoid in b.orders
  {
    var o, d := b.orders[e.xoid], Found(c, b, e.tim);
    var px := if e.side.Some? then e.px else o.px;
    var last := [Order(Real(b.nextId), e.xoid, e.qty)];
    && Only(d.Lev(o.side, o.px), i, Order(Real(o.id), e.xoid, o.sz))
    && (exists left :: TakenOut(d.Lev(o.side, o.px), i, left) &&
          r.Lev(o.side, o.px) == left + if px == o.px then last else [])
    && (px != o.px ==> r.Lev(o.side, px) == d.Lev(o.side, px) + last)
    && (forall k :: k != o.px && k != px ==> r.Lev(o.side, k) == d.Lev(o.side, k))
    && r.orders == b.orders[e.xoid := Info(b.nextId, px, e.qty, o.side)] && r.nextId == b.nextId + 1
  }

  /** A Change that grows or moves its order takes it out of its queue and puts it at the back of its target
      level, under the next book id. */
  lemma ChangeLosesPlace(c: Config, b: Book, e: Event) returns (i: nat)
    requires Tall(c, b) && !b.dead && e.Record? && e.action.Change? && !e.recovery && OnLadder(c, e.px)
    requires Described(c, b, e.xoid) && !Step(c, b, e).dead && GrowsOrMoves(b.orders[e.xoid], e)
    ensures Rejoined(c, b, e, Step(c, b, e), i)
  {
    hide Drain, Process, Book.Lev, CancelReal, AddReal, Only, TakenOut;
    var o := b.orders[e.xoid];
    var b0 := b.(inRecovery := false);
    var px := if e.side.Some? then e.px else o.px;
    var p1 := PCancel(o.id, o.side, o.px);
    var b1 := Process(c, b0, p1, e.tim);
    var i1 := b1.(nextId := b1.nextId + 1);
    var p2 := PAdd(b1.nextId, e.xoid, o.side, px, e.qty);
    var r := Process(c, i1, p2, e.tim);
    ReplacedStep(c, b, e);
    ProcessStaysDead(c, i1, p2, e.tim);
    ProcessFound(c, b0, p1, e.tim);
    DrainMarket(c, b0, e.tim);
    var d := Drain(c, b0, e.tim);
    assert Described(c, b0, e.xoid) by { SameDescribed(c, b, b0, e.xoid); }
    i := StillDescribed(c, b0, e.xoid, e.tim);
    var d2 := d.(boundary := Max(d.boundary, e.tim));
    SameLevels(d, d2);
    OnlyAt(d.Lev(o.side, o.px), i, Order(Real(o.id), e.xoid, o.sz));
    CancelTakesOut(c, d2, o.id, o.side, o.px, i);
    ProcessReleases(c, b0, p1, e.tim);
    SameLevels(b1, i1);
    ReJoin(c, i1, p2, e.tim);
    SameLevels(r, Step(c, b, e));
  }

  lemma OnlyAt(q: Level, i: nat, u: Order)
    requires Only(q, i, u)
    ensures i < |q| && q[i] == u && Only(q, i, q[i])
  {}

  /** The second half of a replace: nothing more is due, and the order joins the back of its level. */
  lemma ReJoin(c: Config, b: Book, p: Payload, tim: nat)
    requires Tall(c, b) && p.PAdd? && OnLadder(c, p.px) && !b.dead && !Process(c, b, p, tim).dead
    requires Ripe(c, b.delQ, tim) == 0
    ensures var r := Process(c, b, p, tim);
            forall k :: r.Lev(p.side, k) ==
                        b.Lev(p.side, k) + if k == p.px then [Order(Real(p.n), p.xoid, p.sz)] else []
    ensures Process(c, b, p, tim).orders == b.orders && Process(c, b, p, tim).nextId == b.nextId
  {
    hide Drain, AddReal, Book.Lev, Due;
    ProcessFound(c, b, p, tim);
    assert Drain(c, b, tim) == b by { RipeNothing(c, b, tim); }
    var b2 := b.(boundary := Max(b.boundary, tim));
    SameLevels(b, b2);
    assert p.sz > 0 by { AddAlive(c, b2, p); }
    RealArrives(c, b2, p.n, p.xoid, p.side, p.px, p.sz);
  }

  lemma RipeNothing(c: Config, b: Book, tim: nat)
    requires Ripe(c, b.delQ, tim) == 0
    ensures Drain(c, b, tim) == b
  {}

  lemma AddAlive(c: Config, b: Book, p: Payload)
    requires p.PAdd? && p.px < c.maxPx && !AddReal(c, b, p.n, p.xoid, p.side, p.px, p.sz).dead
    ensures p.sz > 0
  {}

  lemma ReplacedStep(c: Config, b: Book, e: Event)
    requires !b.dead && e.Record? && e.action.Change? && !e.recovery && OnLadder(c, e.px) && e.xoid in b.orders
    requires !Step(c, b, e).dead && GrowsOrMoves(b.orders[e.xoid], e)
    ensures var o, b0 := b.orders[e.xoid], b.(inRecovery := false);
            var px := if e.side.Some? then e.px else o.px;
            var b1 := Process(c, b0, PCancel(o.id, o.side, o.px), e.tim);
            var r := Process(c, b1.(nextId := b1.nextId + 1), PAdd(b1.nextId, e.xoid, o.side, px, e.qty), e.tim);
            && (e.side.Some? ==> e.side.value == o.side)
            && Step(c, b, e) == r.(orders := r.orders[e.xoid := Info(b1.nextId, px, e.qty, o.side)])
  {
    hide Process;
  }

  // ----- our orders behind a re-entered one

  /** Taking out a real order leaves every order of ours behind it one real order less to wait for. */
  lemma {:induction false} AheadTakenOut(q: Level, i: nat, r: Level, n: nat)
    requires TakenOut(q, i, r) && !q[i].IsSim() && Holds(q, Sim(n))
    ensures Holds(r, Sim(n)) && RealAhead(r, n) == RealAhead(q, n) - if Find(q, Sim(n)) > i then 1 else 0
  {
    hide TakenOut;
    if i == 0 {
      assert r == q[1..] by { FirstTaken(q, r); }
    } else {
      NextTaken(q, i, r);
      if q[0].id != Sim(n) { AheadTakenOut(q[1..], i - 1, r[1..], n); }
    }
  }

  lemma FirstTaken(q: Level, r: Level)
    requires TakenOut(q, 0, r)
    ensures r == q[1..]
  {}

  lemma NextTaken(q: Level, i: nat, r: Level)
    requires TakenOut(q, i, r) && i > 0
    ensures r != [] && r[0] == q[0] && TakenOut(q[1..], i - 1, r[1..]) && q[1..][i - 1] == q[i]
  {
    assert q[1..][..i - 1] == q[1..i] && q[1..][i..] == q[i + 1..];
  }

  /** After a Change that grows or moves its order, each order of ours at the order's old level waits for one
      real order less if it stood behind it, and for as many as before otherwise. */
  lemma ChangeGivesWay(c: Config, b: Book, e: Event, n: nat) returns (i: nat)
    requires Tall(c, b) && !b.dead && e.Record? && e.action.Change? && !e.recovery && OnLadder(c, e.px)
    requires Described(c, b, e.xoid) && !Step(c, b, e).dead && GrowsOrMoves(b.orders[e.xoid], e)
    requires Holds(Found(c, b, e.tim).Lev(b.orders[e.xoid].side, b.orders[e.xoid].px), Sim(n))
    ensures var o := b.orders[e.xoid];
            var q, r := Found(c, b, e.tim).Lev(o.side, o.px), Step(c, b, e).Lev(o.side, o.px);
            && Only(q, i, Order(Real(o.id), e.xoid, o.sz)) && Holds(r, Sim(n))
            && RealAhead(r, n) == RealAhead(q, n) - if Find(q, Sim(n)) > i then 1 else 0
  {
    hide Step, Found, Book.Lev, RealAhead, Find, TakenOut;
    var o := b.orders[e.xoid];
    var q := Found(c, b, e.tim).Lev(o.side, o.px);
    i := ChangeLosesPlace(c, b, e);
    var left :| TakenOut(q, i, left) && Step(c, b, e).Lev(o.side, o.px) ==
      left + if (if e.side.Some? then e.px else o.px) == o.px then [Order(Real(b.nextId), e.xoid, e.qty)] else [];
    AheadTakenOut(q, i, left, n);
    HeldBefore(left, [Order(Real(b.nextId), e.xoid, e.qty)], n);
    assert left + [] == left;
  }

  lemma HeldBefore(a: Level, z: Level, n: nat)
    requires Holds(a, Sim(n))
    ensures Holds(a + z, Sim(n)) && RealAhead(a + z, n) == RealAhead(a, n)
  {
    hide RealAhead;
    AheadConcat(a, z, n);
    HoldsIff(a, Sim(n));
    HoldsIff(a + z, Sim(n));
  }

  /**
    The lemmas above apply along every run: if no snapshot contradicted a resting order, an entry whose
    order rests describes it, alone with its book id; and in simulation the order of every entry rests.
   */
  lemma RunDescribes(c: Config, es: seq<Event>, x: nat)
    requires c.maxPx >= 2 && !Run(c, Init(c), es).dead && CleanFeed(c, Init(c), es)
    requires x in Run(c, Init(c), es).orders
    ensures var b := Run(c, Init(c), es); var o := b.orders[x];
            && Tall(c, b)
            && (Described(c, b, x) <==> Order(Real(o.id), x, o.sz) in b.Lev(o.side, o.px))
            && (!c.repair ==> Described(c, b, x))
  {
    hide Run, CleanFeed, Good, Described;
    var b := Run(c, Init(c), es);
    GoodInit(c);
    GoodRun(c, Init(c), es);
    GoodDescribes(c, b, x);
  }

  lemma GoodDescribes(c: Config, b: Book, x: nat)
    requires Good(c, Erase(b)) && x in b.orders
    ensures var o := b.orders[x];
            && Tall(c, b)
            && (Described(c, b, x) <==> Order(Real(o.id), x, o.sz) in b.Lev(o.side, o.px))
            && (!c.repair ==> Described(c, b, x))
  {
    hide RealPart, HasReal, Listed, Uncrossed, Inside, OnRungs, Bounded;
    var r := Erase(b);
    ErasedLevels(b);
    ErasedShape(c, b);
    var o := b.orders[x];
    var u := Order(Real(o.id), x, o.sz);
    assert OnLadder(c, r.orders[x].px);
    if u in b.Lev(o.side, o.px) {
      var q := RealPart(b.Lev(o.side, o.px));
      assert r.Lev(o.side, o.px) == q && !u.IsSim();
      SortedOnly(q, u);
      var k := OnlyBack(b.Lev(o.side, o.px), u);
    }
    if !c.repair { assert u in r.Lev(o.side, o.px); }
  }

  lemma ErasedShape(c: Config, b: Book)
    requires Shape(c, Erase(b))
    ensures Tall(c, b)
  {
    hide RealPart;
  }

  lemma SortedOnly(q: Level, u: Order)
    requires Sorted(q) && RealOnly(q) && u in q
    ensures exists k: nat :: Only(q, k, u)
  {
    var k :| 0 <= k < |q| && q[k] == u;
    assert Only(q, k, u);
  }

  // ----- records that find nothing, and the ones that clear

  /** A New off the ladder changes nothing at all, any other live record of an unknown order only ends a
      snapshot, and a status only switches matching. */
  lemma UnknownIgnored(c: Config, b: Book, e: Event, on: bool)
    requires !b.dead && e.Record?
    ensures e.action.New? && !(0 < e.px < c.maxPx) ==> Step(c, b, e) == b
    ensures !e.action.New? && !e.recovery && e.xoid !in b.orders ==> Step(c, b, e) == b.(inRecovery := false)
    ensures Step(c, b, Status(on)) == b.(matching := on)
  {}

  /** Every queue is empty, the inside at its stops, and each new report acknowledges an order of ours that rested. */
  ghost predicate Wiped(c: Config, b: Book, r: Book) {
    && (forall s, p :: r.Lev(s, p) == []) && r.orders == map[] && r.bestBid == 0 && r.bestAsk == c.maxPx - 1
    && r == b.(bids := r.bids, asks := r.asks, orders := r.orders, bestBid := r.bestBid, bestAsk := r.bestAsk,
               notes := r.notes, inRecovery := r.inRecovery)
    && b.notes <= r.notes
    && forall i :: |b.notes| <= i < |r.notes| ==> OursAcked(b, r.notes[i])
  }

  ghost predicate OursAcked(b: Book, t: Note) {
    t.CancAck? && exists s, p, o :: o in b.Lev(s, p) && o.id == Sim(t.n) && o.sz == t.sz
  }

  /** A channel reset, and the first record of a snapshot before it is handled, clear the book; later records of
      the snapshot do not. */
  lemma ResetWipes(c: Config, b: Book, e: Event)
    requires !b.dead && (e.ChannelReset? || (e.Record? && e.recovery && OnLadder(c, e.px) && !b.inRecovery))
    ensures exists z :: Wiped(c, b, z) &&
              if e.ChannelReset? then z.inRecovery == b.inRecovery && Step(c, b, e) == z
              else z.inRecovery && Step(c, b, e) == Step(c, z, e)
  {
    hide OnNew, LadderAcks;
    var r := Clear(c, b);
    ClearWipes(c, b);
    assert Wiped(c, b, r.(inRecovery := true)) by { SameLevels(r, r.(inRecovery := true)); }
  }

  lemma ClearWipes(c: Config, b: Book)
    ensures Wiped(c, b, Clear(c, b))
  {
    hide LadderAcks, OursAcked;
    var r := Clear(c, b);
    forall i | |b.notes| <= i < |r.notes| ensures OursAcked(b, r.notes[i]) {
      var j := i - |b.notes|;
      if j < |LadderAcks(b.bids)| {
        assert r.notes[i] == LadderAcks(b.bids)[j];
        AckedRested(b, Buy, r.notes[i]);
      } else {
        assert r.notes[i] == LadderAcks(b.asks)[j - |LadderAcks(b.bids)|];
        AckedRested(b, Sell, r.notes[i]);
      }
    }
  }

  lemma AckedRested(b: Book, s: Side, t: Note)
    requires t in LadderAcks(b.Lad(s))
    ensures OursAcked(b, t)
  {
    hide LadderAcks;
    var p := LadderAcked(b.Lad(s), t);
    var o :| o in b.Lev(s, p) && o.id == Sim(t.n) && o.sz == t.sz;
  }

  lemma {:induction false} LadderAcked(l: Ladder, t: Note) returns (p: nat)
    requires t in LadderAcks(l)
    ensures t.CancAck? && exists o :: o in At(l, p) && o.id == Sim(t.n) && o.sz == t.sz
  {
    hide LevelAcks, Plain;
    if t in LevelAcks(l[0]) {
      p := 0;
      AcksById(l[0]);
      PlainMember(l[0], t.n, t.sz);
    } else {
      var k := LadderAcked(l[1..], t);
      p := k + 1;
      assert At(l, p) == At(l[1..], k);
    }
  }

  lemma PlainMember(q: Level, n: nat, sz: int)
    requires Order(Sim(n), 0, sz) in Plain(q)
    ensures exists o :: o in q && o.id == Sim(n) && o.sz == sz
  {
    var i :| 0 <= i < |q| && Plain(q)[i] == Order(Sim(n), 0, sz);
    assert q[i] in q && q[i].id == Sim(n) && q[i].sz == sz;
  }

  /** A message of ours with no decision time takes effect at once, and aborts when timed ones still wait. */
  lemma UntimedActsNow(c: Config, b: Book, m: SimMsg)
    requires !b.dead && m.ts0 == 0
    ensures b.delQ != [] ==> Step(c, b, FromUs(m)).dead
    ensures b.delQ == [] ==> var r := Step(c, b, FromUs(m)); r.delQ == [] && r.applied == b.applied + [(m, 0)]
  {
    hide Find, Remove;
  }

  // ----- which records end the process

  /**
    A New of an unknown order on the ladder ends the process exactly when it has no side or no size, or finds
    the book crossed at a boundary; of a known one, exactly when a snapshot re-sends it with a size and no side.
   */
  lemma NewDiesIff(c: Config, b: Book, e: Event)
    requires !b.dead && AllProper(b.delQ) && e.Record? && e.action.New? && OnLadder(c, e.px)
    requires e.recovery ==> b.inRecovery
    ensures Step(c, b, e).dead <==>
            if e.xoid in b.orders then e.recovery && e.qty > 0 && e.side.None?
            else e.side.None? || e.qty == 0 || CrossedAtBoundary(c, b, e.tim)
  {
    hide Process, BadSize, Drain;
    if e.xoid !in b.orders && e.side.Some? && e.qty > 0 {
      var b1 := b.(orders := b.orders[e.xoid := Info(b.nextId, e.px, e.qty, e.side.value)], nextId := b.nextId + 1,
                   inRecovery := e.recovery);
      var p := PAdd(b.nextId, e.xoid, e.side.value, e.px, e.qty);
      ProcessDiesIff(c, b1, p, e.tim);
      GoodSize(c, Drain(c, b1, e.tim), p);
    }
  }

  lemma GoodSize(c: Config, b: Book, p: Payload)
    requires p.PAdd? ==> p.sz > 0
    requires p.PResize? ==> p.sz > 0
    ensures !p.PExec? ==> !BadSize(c, b, p)
  {}

  /** A Delete of an order that rests as described ends the process exactly when it finds the book crossed at a
      boundary; in a snapshot it always does. */
  lemma DeleteDiesIff(c: Config, b: Book, e: Event)
    requires !b.dead && AllProper(b.delQ) && e.Record? && Described(c, b, e.xoid)
    requires e.action.Delete? || (e.action.Change? && !OnLadder(c, e.px))
    ensures Step(c, b, e).dead <==> e.recovery || CrossedAtBoundary(c, b, e.tim)
  {
    hide Process, BadSize, Drain, Clear;
    if !e.recovery {
      var o, b0 := b.orders[e.xoid], b.(inRecovery := false);
      var p := PCancel(o.id, o.side, o.px);
      ProcessDiesIff(c, b0, p, e.tim);
      GoodSize(c, Drain(c, b0, e.tim), p);
    }
  }

  /**
    A Change of an order that rests as described ends the process exactly when it finds the book crossed at a
    boundary, asks for no size, asks for more without saying the side, or would move or grow the order on the
    other side.
   */
  lemma ChangeDiesIff(c: Config, b: Book, e: Event)
    requires !b.dead && AllProper(b.delQ) && e.Record? && Described(c, b, e.xoid)
    requires e.action.Change? && !e.recovery && OnLadder(c, e.px)
    ensures var o := b.orders[e.xoid];
            Step(c, b, e).dead <==>
            || CrossedAtBoundary(c, b, e.tim) || e.qty == 0 || (e.side.None? && e.qty > o.sz)
            || (e.side.Some? && e.side.value != o.side && GrowsOrMoves(o, e))
  {
    hide Process, BadSize, Drain, Book.Lev, Only;
    var o, b0 := b.orders[e.xoid], b.(inRecovery := false);
    SameDescribed(c, b, b0, e.xoid);
    if e.side.None? && e.qty > o.sz {
    } else if GrowsOrMoves(o, e) {
      ReplaceDiesIff(c, b0, e);
    } else {
      var b1 := b0.(orders := b.orders[e.xoid := o.(sz := e.qty)]);
      var p := PResize(o.id, o.side, o.px, e.qty);
      ProcessDiesIff(c, b1, p, e.tim);
      if e.qty > 0 { GoodSize(c, Drain(c, b1, e.tim), p); } else { StillBad(c, b, b1, e.xoid, e.tim); }
    }
  }

  /** No size for an order that still rests when our messages have taken effect. */
  lemma StillBad(c: Config, b: Book, b1: Book, x: nat, tim: nat)
    requires Described(c, b, x) && !b1.dead && AllProper(b1.delQ)
    requires b1.bids == b.bids && b1.asks == b.asks && x in b1.orders
    requires var o := b.orders[x]; b1 == b.(orders := b.orders[x := o.(sz := 0)], inRecovery := b1.inRecovery)
    ensures var o := b.orders[x]; BadSize(c, Drain(c, b1, tim), PResize(o.id, o.side, o.px, 0))
  {
    hide Drain;
    var o := b.orders[x];
    DrainFields(c, b, b1, tim);
    DrainLives(c, b1, tim);
    SameLevels(Drain(c, b, tim), Drain(c, b1, tim));
    var i := StillDescribed(c, b, x, tim);
    assert Drain(c, b1, tim).Lev(o.side, o.px)[i] in Drain(c, b1, tim).Lev(o.side, o.px);
  }

  lemma ReplaceDiesIff(c: Config, b: Book, e: Event)
    requires !b.dead && AllProper(b.delQ) && e.Record? && e.xoid in b.orders && OnLadder(c, b.orders[e.xoid].px)
    requires OnLadder(c, e.px) && GrowsOrMoves(b.orders[e.xoid], e) && !(e.side.None? && e.qty > b.orders[e.xoid].sz)
    ensures var o := b.orders[e.xoid];
            OnChange(c, b, e).dead <==>
            CrossedAtBoundary(c, b, e.tim) || e.qty == 0 || (e.side.Some? && e.side.value != o.side)
  {
    hide Process, BadSize, Drain;
    var o := b.orders[e.xoid];
    var s := if e.side.Some? then e.side.value else o.side;
    var px := if e.side.Some? then e.px else o.px;
    var p1 := PCancel(o.id, o.side, o.px);
    var b1 := Process(c, b, p1, e.tim);
    var i1 := b1.(nextId := b1.nextId + 1);
    var p2 := PAdd(b1.nextId, e.xoid, s, px, e.qty);
    ProcessDiesIff(c, b, p1, e.tim);
    GoodSize(c, Drain(c, b, e.tim), p1);
    if b1.dead {
      ProcessStaysDead(c, i1, p2, e.tim);
    } else {
      assert AllProper(b1.delQ) by { EraseProcess(c, b, p1, e.tim); }
      ProcessDiesIff(c, i1, p2, e.tim);
      assert !CrossedAtBoundary(c, i1, e.tim);
      AddSize(c, Drain(c, i1, e.tim), p2);
    }
  }

  lemma AddSize(c: Config, b: Book, p: Payload)
    requires p.PAdd? && OnLadder(c, p.px)
    ensures BadSize(c, b, p) <==> p.sz <= 0
  {}
}
