/**
  Our own orders never influence the real market: a run with our messages and the
  same run without them build the same real book.
 */
module NonInterference {
  import opened Levels
  import opened Book

  /** Every level of a ladder without its sim orders. */
  function Erased(l: Ladder): (r: Ladder)
    ensures |r| == |l|
    ensures forall k :: At(r, k) == RealPart(At(l, k))
  {
    seq(|l|, i requires 0 <= i < |l| => RealPart(l[i]))
  }

  /** The book without anything of ours: no sim order, no queued message, no trace. */
  function Erase(b: Book): Book {
    b.(bids := Erased(b.bids), asks := Erased(b.asks), delQ := [], notes := [], applied := [])
  }

  /** A run without our messages. */
  function MarketOnly(es: seq<Event>): seq<Event> {
    if es == [] then []
    else MarketOnly(es[..|es| - 1]) + if es[|es| - 1].FromUs? then [] else [es[|es| - 1]]
  }

  /** A message that cannot trip an assertion on our side: timed, and of positive size. */
  predicate Proper(m: SimMsg) { m.ts0 > 0 && (m.SimAdd? ==> m.sz > 0) }

  predicate AllProper(q: seq<SimMsg>) { forall i :: 0 <= i < |q| ==> Proper(q[i]) }

  predicate ProperRun(b: Book, es: seq<Event>) {
    AllProper(b.delQ) && forall i :: 0 <= i < |es| && es[i].FromUs? ==> Proper(es[i].msg)
  }

  // ----- single levels

  lemma {:induction false} EraseRemove(q: Level, id: OrderId)
    ensures RealPart(Remove(q, id)) == if id.Real? then Remove(RealPart(q), id) else RealPart(q)
    ensures id.Real? ==> (Holds(RealPart(q), id) <==> Holds(q, id))
  {
    if q != [] {
      EraseRemove(q[1..], id);
      if q[0].id != id {
        assert ([q[0]] + Remove(q[1..], id))[1..] == Remove(q[1..], id);
      }
      if !q[0].IsSim() { assert RealPart(q)[1..] == RealPart(q[1..]); }
    }
  }

  lemma {:induction false} EraseResize(q: Level, n: nat, sz: int)
    ensures RealPart(Resize(q, Real(n), sz)) == Resize(RealPart(q), Real(n), sz)
  {
    if q != [] {
      EraseResize(q[1..], n, sz);
      if q[0].id == Real(n) {
        assert ([q[0].(sz := sz)] + q[1..])[1..] == q[1..];
        assert RealPart(q)[1..] == RealPart(q[1..]);
      } else {
        assert ([q[0]] + Resize(q[1..], Real(n), sz))[1..] == Resize(q[1..], Real(n), sz);
        if !q[0].IsSim() { assert RealPart(q)[1..] == RealPart(q[1..]); }
      }
    }
  }

  lemma {:induction false} EraseFillBack(q: Level, sz: int, px: int)
    ensures RealPart(FillBack(q, sz, px).0) == RealPart(q)
  {
    if q != [] && sz > 0 && q[|q| - 1].IsSim() {
      var last, front := q[|q| - 1], q[..|q| - 1];
      assert q == front + [last];
      RealPartConcat(front, [last]);
      if last.sz <= sz {
        EraseFillBack(front, sz - last.sz, px);
      } else {
        RealPartConcat(front, [last.(sz := last.sz - sz)]);
      }
    }
  }

  lemma {:induction false} NoFillsInRealPart(q: Level, px: int)
    ensures LevelFills(RealPart(q), px) == []
  {
    if q != [] {
      NoFillsInRealPart(q[1..], px);
      if !q[0].IsSim() { assert RealPart(q)[1..] == RealPart(q[1..]); }
    }
  }

  /** An execution leaves the real orders alone and is a no-op where there is no sim order. */
  lemma EraseExecLevel(q: Level, n: nat, sz: int, px: int)
    ensures RealPart(ExecLevel(q, n, sz, px).0) == RealPart(q)
    ensures ExecLevel(RealPart(q), n, sz, px) == (RealPart(q), [])
  {
    var k := HeadReal(q);
    if k < |q| && Find(q, Real(n)) == k {
      RealPartConcat(FillBack(q[..k], sz, px).0, q[k..]);
      EraseFillBack(q[..k], sz, px);
      RealPartConcat(q[..k], q[k..]);
      assert q == q[..k] + q[k..];
    }
    RealPartMembers(q);
    var r := RealPart(q);
    if r != [] {
      assert r[0] in r;
      assert HeadReal(r) == 0;
      assert r[..0] + r[0..] == r;
    }
  }

  // ----- ladders

  lemma LaddersEqual(a: Ladder, b: Ladder)
    requires |a| == |b|
    requires forall k :: At(a, k) == At(b, k)
    ensures a == b
  {
    forall i | 0 <= i < |a| ensures a[i] == b[i] { assert At(a, i) == At(b, i); }
  }

  lemma ErasePut(l: Ladder, p: int, q: Level)
    ensures Erased(Put(l, p, q)) == Put(Erased(l), p, RealPart(q))
  {
    LaddersEqual(Erased(Put(l, p, q)), Put(Erased(l), p, RealPart(q)));
  }

  lemma EraseSwept(l: Ladder, lo: int, hi: int, repair: bool)
    ensures Erased(Swept(l, lo, hi, repair)) == Swept(Erased(l), lo, hi, repair)
  {
    forall k ensures At(Erased(Swept(l, lo, hi, repair)), k) == At(Swept(Erased(l), lo, hi, repair), k) {
      RealPartIdem(At(l, k));
    }
    LaddersEqual(Erased(Swept(l, lo, hi, repair)), Swept(Erased(l), lo, hi, repair));
  }

  lemma {:induction false} NoNotesUp(l: Ladder, lo: int, hi: int)
    ensures NotesUp(Erased(l), lo, hi) == []
    decreases hi - lo
  {
    if lo <= hi {
      NoFillsInRealPart(At(l, lo), lo);
      NoNotesUp(l, lo + 1, hi);
    }
  }

  lemma {:induction false} NoNotesDown(l: Ladder, lo: int, hi: int)
    ensures NotesDown(Erased(l), lo, hi) == []
    decreases hi - lo
  {
    if lo <= hi {
      NoFillsInRealPart(At(l, hi), hi);
      NoNotesDown(l, lo, hi - 1);
    }
  }

  lemma NoLevelAcks(q: Level)
    ensures LevelAcks(RealPart(q)) == []
  {
    RealPartMembers(q);
    var r := RealPart(q);
    assert forall j :: 0 <= j < |r| ==> r[j] in r;
  }

  lemma {:induction false} NoAcks(l: Ladder)
    ensures LadderAcks(Erased(l)) == []
  {
    if l != [] {
      NoLevelAcks(l[0]);
      NoAcks(l[1..]);
      assert Erased(l)[1..] == Erased(l[1..]);
    }
  }

  lemma EraseHasReal(l: Ladder)
    ensures forall k :: HasReal(At(Erased(l), k)) <==> HasReal(At(l, k))
    ensures forall lo, hi :: AnyReal(Erased(l), lo, hi) <==> AnyReal(l, lo, hi)
  {
    forall k ensures HasReal(At(Erased(l), k)) <==> HasReal(At(l, k)) {
      RealPartHasReal(At(l, k));
    }
  }

  lemma {:induction false} EraseWalkDown(l: Ladder, p: int)
    ensures WalkDown(Erased(l), p) == WalkDown(l, p)
    decreases p
  {
    EraseHasReal(l);
    if !(p <= 1 || HasReal(At(l, p))) { EraseWalkDown(l, p - 1); }
  }

  lemma {:induction false} EraseWalkUp(l: Ladder, p: int, stop: int)
    ensures WalkUp(Erased(l), p, stop) == WalkUp(l, p, stop)
    decreases stop - p
  {
    EraseHasReal(l);
    if !(p >= stop || HasReal(At(l, p))) { EraseWalkUp(l, p + 1, stop); }
  }

  // ----- the real half of every operation

  lemma EraseSweep(c: Config, b: Book, s: Side, px: int)
    ensures Erase(Sweep(c, b, s, px)) == Sweep(c, Erase(b), s, px)
    ensures Uncrosses(c, Erase(b), s, px) == Uncrosses(c, b, s, px)
  {
    var (lo, hi) := SweepRange(c, b, s, px);
    var l := b.Lad(Other(s));
    EraseSwept(l, lo, hi, c.repair);
    NoNotesUp(l, lo, hi);
    NoNotesDown(l, lo, hi);
    EraseHasReal(l);
    assert Erase(b).Lad(Other(s)) == Erased(l);
    assert SweepRange(c, Erase(b), s, px) == (lo, hi);
  }

  lemma EraseMoveInside(c: Config, b: Book, s: Side, px: int, u: bool)
    ensures Erase(MoveInside(c, b, s, px, u)) == MoveInside(c, Erase(b), s, px, u)
  {
    hide Erase, WalkUp, WalkDown;
    EraseWalkUp(b.asks, b.bestAsk, |b.asks| - 1);
    EraseWalkDown(b.bids, b.bestBid);
    var r := MoveInside(c, b, s, px, u);
    EraseInside(b, r.bestBid, r.bestAsk);
    assert r == b.(bestBid := r.bestBid, bestAsk := r.bestAsk);
  }

  lemma EraseInside(b: Book, bid: int, ask: int)
    ensures var e := Erase(b);
            && e.bids == Erased(b.bids) && e.asks == Erased(b.asks) && |e.asks| == |b.asks|
            && e.bestBid == b.bestBid && e.bestAsk == b.bestAsk
            && Erase(b.(bestBid := bid, bestAsk := ask)) == e.(bestBid := bid, bestAsk := ask)
  {
    hide Erased;
  }

  lemma EraseWithLev(b: Book, s: Side, px: int, q: Level)
    ensures Erase(b.WithLev(s, px, q)) == Erase(b).WithLev(s, px, RealPart(q))
    ensures Erase(b).Lev(s, px) == RealPart(b.Lev(s, px))
  {
    ErasePut(b.Lad(s), px, q);
  }

  lemma PutBack(b: Book, s: Side, px: int)
    ensures b.WithLev(s, px, b.Lev(s, px)) == b
  {
    LaddersEqual(Put(b.Lad(s), px, b.Lev(s, px)), b.Lad(s));
  }

  lemma EraseAppendReal(b: Book, s: Side, px: int, o: Order)
    requires !o.IsSim()
    ensures Erase(Append(b, s, px, o)) == Append(Erase(b), s, px, o)
  {
    var q := b.Lev(s, px);
    RealPartConcat(q, [o]);
    assert RealPart([o]) == [o];
    EraseWithLev(b, s, px, q + [o]);
  }

  lemma EraseAppendSim(b: Book, s: Side, px: int, o: Order)
    requires o.IsSim()
    ensures Erase(Append(b, s, px, o)) == Erase(b)
  {
    var q := b.Lev(s, px);
    RealPartConcat(q, [o]);
    assert RealPart(q + [o]) == RealPart(q);
    EraseWithLev(b, s, px, q + [o]);
    PutBack(Erase(b), s, px);
  }

  lemma EraseAddReal(c: Config, b: Book, n: nat, x: nat, s: Side, px: int, sz: int)
    ensures Erase(AddReal(c, b, n, x, s, px, sz)) == AddReal(c, Erase(b), n, x, s, px, sz)
  {
    if px < c.maxPx && sz > 0 {
      var b1 := Sweep(c, b, s, px);
      var u := Uncrosses(c, b, s, px);
      EraseSweep(c, b, s, px);
      EraseMoveInside(c, b1, s, px, u);
      EraseAppendReal(MoveInside(c, b1, s, px, u), s, px, Order(Real(n), x, sz));
    }
  }

  lemma EraseRewalk(c: Config, b: Book, s: Side, px: int)
    ensures Erase(Rewalk(c, b, s, px)) == Rewalk(c, Erase(b), s, px)
  {
    hide Erased, WalkUp, WalkDown;
    EraseWalkDown(b.bids, b.bestBid);
    EraseWalkUp(b.asks, b.bestAsk, c.maxPx - 1);
  }

  lemma EraseCancelReal(c: Config, b: Book, n: nat, s: Side, px: int)
    ensures Erase(CancelReal(c, b, n, s, px)) == CancelReal(c, Erase(b), n, s, px)
  {
    hide Erased, Rewalk, RealPart, Find, Remove, Put;
    var q := b.Lev(s, px);
    EraseRemove(q, Real(n));
    EraseWithLev(b, s, px, Remove(q, Real(n)));
    EraseRewalk(c, b.WithLev(s, px, Remove(q, Real(n))), s, px);
  }

  lemma EraseResizeReal(c: Config, b: Book, n: nat, s: Side, px: int, sz: int)
    ensures Erase(ResizeReal(c, b, n, s, px, sz)) == ResizeReal(c, Erase(b), n, s, px, sz)
  {
    hide Erased, Rewalk, RealPart, Find, Remove, Resize, Put;
    var q := b.Lev(s, px);
    EraseRemove(q, Real(n));
    EraseResize(q, n, sz);
    EraseWithLev(b, s, px, Resize(q, Real(n), sz));
    EraseRewalk(c, b.WithLev(s, px, Resize(q, Real(n), sz)), s, px);
  }

  lemma EraseExecReal(c: Config, b: Book, n: nat, s: Side, px: int, sz: int)
    ensures Erase(ExecReal(c, b, n, s, px, sz)) == ExecReal(c, Erase(b), n, s, px, sz)
  {
    hide Erased, Rewalk, ExecLevel, RealPart, Find, Remove, Put;
    var q := b.Lev(s, px);
    EraseRemove(q, Real(n));
    EraseExecLevel(q, n, sz, px);
    var f := ExecLevel(q, n, sz, px);
    var b1 := b.WithLev(s, px, f.0).(notes := b.notes + f.1);
    EraseWithLev(b, s, px, f.0);
    assert Erase(b1) == Erase(b).WithLev(s, px, RealPart(q)).(notes := [] + []);
    EraseRewalk(c, b1, s, px);
  }

  /** Every real payload acts on the erased book as on the full one, dying included. */
  lemma ErasePayload(c: Config, b: Book, p: Payload)
    ensures Erase(ApplyPayload(c, b, p)) == ApplyPayload(c, Erase(b), p)
  {
    match p
    case PAdd(n, x, s, px, sz) => EraseAddReal(c, b, n, x, s, px, sz);
    case PCancel(n, s, px) => EraseCancelReal(c, b, n, s, px);
    case PResize(n, s, px, sz) => EraseResizeReal(c, b, n, s, px, sz);
    case PExec(n, s, px, sz) => EraseExecReal(c, b, n, s, px, sz);
  }

  lemma EraseSim(c: Config, b: Book, m: SimMsg, at: nat)
    requires !ApplySim(c, b, m, at).dead
    ensures Erase(ApplySim(c, b, m, at)) == Erase(b)
  {
    hide AddSim, CancelSim, Erased;
    var b1 := b.(applied := b.applied + [(m, at)]);
    match m
    case SimAdd(n, s, px, sz, _) => EraseAddSim(c, b1, n, s, px, sz);
    case SimCancel(n, s, px, _) => EraseCancelSim(c, b1, n, s, px);
  }

  lemma EraseAddSim(c: Config, b: Book, n: nat, s: Side, px: int, sz: int)
    requires !AddSim(c, b, n, s, px, sz).dead
    ensures Erase(AddSim(c, b, n, s, px, sz)) == Erase(b)
  {
    hide Append, Erased;
    EraseAppendSim(b, s, px, Order(Sim(n), 0, sz));
  }

  lemma EraseCancelSim(c: Config, b: Book, n: nat, s: Side, px: int)
    ensures Erase(CancelSim(c, b, n, s, px)) == Erase(b)
  {
    hide Erased, RealPart, Remove, Find;
    var q := b.Lev(s, px);
    EraseRemove(q, Sim(n));
    EraseWithLev(b, s, px, Remove(q, Sim(n)));
    PutBack(Erase(b), s, px);
  }

  lemma ProperLives(c: Config, b: Book, m: SimMsg, at: nat)
    requires !b.dead && Proper(m)
    ensures !ApplySim(c, b, m, at).dead
  {}

  lemma {:induction false} EraseDrain(c: Config, b: Book, tim: nat)
    requires !Drain(c, b, tim).dead || AllProper(b.delQ)
    ensures Erase(Drain(c, b, tim)) == Erase(b)
    ensures AllProper(b.delQ) ==> AllProper(Drain(c, b, tim).delQ)
    decreases |b.delQ|
  {
    if !(b.dead || b.delQ == [] || Due(c, b.delQ[0]) >= tim) {
      var b0 := b.(delQ := b.delQ[1..]);
      var b1 := ApplySim(c, b0, b.delQ[0], tim);
      if AllProper(b.delQ) {
        ProperLives(c, b0, b.delQ[0], tim);
      }
      EraseSim(c, b0, b.delQ[0], tim);
      EraseDrain(c, b1, tim);
    }
  }

  lemma EraseProcess(c: Config, b: Book, p: Payload, tim: nat)
    requires !Process(c, b, p, tim).dead || AllProper(b.delQ)
    ensures Erase(Process(c, b, p, tim)) == Process(c, Erase(b), p, tim)
    ensures AllProper(b.delQ) ==> AllProper(Process(c, b, p, tim).delQ)
  {
    if !(b.dead || p.px <= 0) {
      var d := Drain(c, b, tim);
      EraseDrain(c, b, tim);
      assert Drain(c, Erase(b), tim) == Erase(b);
      if !d.dead && !CrossFatal(c, d, tim) {
        var d1 := d.(boundary := Max(d.boundary, tim));
        ErasePayload(c, d1, p);
      }
    }
  }

  lemma EraseClear(c: Config, b: Book)
    ensures Erase(Clear(c, b)) == Clear(c, Erase(b))
  {
    NoAcks(b.bids);
    NoAcks(b.asks);
    LaddersEqual(Erased(Clear(c, b).bids), Clear(c, Erase(b)).bids);
    LaddersEqual(Erased(Clear(c, b).asks), Clear(c, Erase(b)).asks);
  }

  lemma EraseNew(c: Config, b: Book, e: Event)
    requires e.Record?
    requires !OnNew(c, b, e).dead || AllProper(b.delQ)
    ensures Erase(OnNew(c, b, e)) == OnNew(c, Erase(b), e)
    ensures AllProper(b.delQ) ==> AllProper(OnNew(c, b, e).delQ)
  {
    hide Process, Erase, AllProper;
    EraseFields(b, b.orders, b.nextId, b.dead);
    EraseFields(b, b.orders, b.nextId, true);
    if e.xoid in b.orders {
      if e.side.Some? {
        var om := b.orders[e.xoid := Info(b.orders[e.xoid].id, e.px, e.qty, e.side.value)];
        EraseFields(b, om, b.nextId, b.dead);
      }
    } else if e.side.Some? && e.qty > 0 {
      var om := b.orders[e.xoid := Info(b.nextId, e.px, e.qty, e.side.value)];
      var b1 := b.(orders := om, nextId := b.nextId + 1);
      EraseFields(b, om, b.nextId + 1, b.dead);
      EraseProcess(c, b1, PAdd(b.nextId, e.xoid, e.side.value, e.px, e.qty), e.tim);
    }
  }

  lemma EraseFields(b: Book, om: map<nat, Info>, next: nat, dead: bool)
    ensures var e := Erase(b);
            && e.orders == b.orders && e.nextId == b.nextId && e.dead == b.dead
            && Erase(b.(orders := om, nextId := next, dead := dead)) == e.(orders := om, nextId := next, dead := dead)
  {
    hide Erased;
  }

  lemma EraseChange(c: Config, b: Book, e: Event)
    requires e.Record?
    requires !OnChange(c, b, e).dead || AllProper(b.delQ)
    ensures Erase(OnChange(c, b, e)) == OnChange(c, Erase(b), e)
    ensures AllProper(b.delQ) ==> AllProper(OnChange(c, b, e).delQ)
  {
    if e.xoid in b.orders && !(e.side.None? && e.qty > b.orders[e.xoid].sz) {
      var o := b.orders[e.xoid];
      if Replaces(o, e) {
        EraseReplace(c, b, e);
      } else {
        EraseProcess(c, b.(orders := b.orders[e.xoid := o.(sz := e.qty)]),
                     PResize(o.id, o.side, o.px, e.qty), e.tim);
      }
    }
  }

  lemma EraseReplace(c: Config, b: Book, e: Event)
    requires e.Record? && e.xoid in b.orders && Replaces(b.orders[e.xoid], e)
    requires !(e.side.None? && e.qty > b.orders[e.xoid].sz)
    requires !OnChange(c, b, e).dead || AllProper(b.delQ)
    ensures Erase(OnChange(c, b, e)) == OnChange(c, Erase(b), e)
    ensures AllProper(b.delQ) ==> AllProper(OnChange(c, b, e).delQ)
  {
    hide Process;
    var o := b.orders[e.xoid];
    var p1 := PCancel(o.id, o.side, o.px);
    var b1 := Process(c, b, p1, e.tim);
    var s := if e.side.Some? then e.side.value else o.side;
    var px := if e.side.Some? then e.px else o.px;
    var p2 := PAdd(b1.nextId, e.xoid, s, px, e.qty);
    ProcessStaysDead(c, b1.(nextId := b1.nextId + 1), p2, e.tim);
    EraseProcess(c, b, p1, e.tim);
    EraseProcess(c, b1.(nextId := b1.nextId + 1), p2, e.tim);
  }

  lemma EraseDelete(c: Config, b: Book, e: Event)
    requires e.Record?
    requires !OnDelete(c, b, e).dead || AllProper(b.delQ)
    ensures Erase(OnDelete(c, b, e)) == OnDelete(c, Erase(b), e)
    ensures AllProper(b.delQ) ==> AllProper(OnDelete(c, b, e).delQ)
  {
    if e.xoid in b.orders {
      var o := b.orders[e.xoid];
      EraseProcess(c, b, PCancel(o.id, o.side, o.px), e.tim);
    }
  }

  lemma EraseRecover(c: Config, b: Book, recovery: bool)
    ensures Erase(Recover(c, b, recovery)) == Recover(c, Erase(b), recovery)
    ensures Recover(c, b, recovery).delQ == b.delQ && Recover(c, b, recovery).dead == b.dead
  {
    EraseClear(c, b);
  }

  lemma EraseRecord(c: Config, b: Book, e: Event)
    requires e.Record? && !b.dead
    requires !OnRecord(c, b, e).dead || AllProper(b.delQ)
    ensures Erase(OnRecord(c, b, e)) == OnRecord(c, Erase(b), e)
    ensures AllProper(b.delQ) ==> AllProper(OnRecord(c, b, e).delQ)
  {
    hide OnNew, OnChange, OnDelete, Recover, Erased;
    if OnLadder(c, e.px) || !e.action.New? {
      EraseRecover(c, b, e.recovery);
      var b1 := Recover(c, b, e.recovery);
      if e.action.New? {
        EraseNew(c, b1, e);
      } else if e.recovery {
      } else if e.action.Change? && OnLadder(c, e.px) {
        EraseChange(c, b1, e);
      } else {
        EraseDelete(c, b1, e);
      }
    }
  }

  /** One event: ours changes nothing real, a real one does the same with and without our orders. */
  lemma EraseStep(c: Config, b: Book, e: Event)
    requires !Step(c, b, e).dead || (AllProper(b.delQ) && (e.FromUs? ==> Proper(e.msg)))
    ensures Erase(Step(c, b, e)) == if e.FromUs? then Erase(b) else Step(c, Erase(b), e)
    ensures AllProper(b.delQ) && (e.FromUs? ==> Proper(e.msg)) ==> AllProper(Step(c, b, e).delQ)
  {
    if !b.dead {
      match e
      case Record(_, _, _, _, _, _, _) => EraseRecord(c, b, e);
      case Exec(n, s, px, sz, tim) => EraseProcess(c, b, PExec(n, s, px, sz), tim);
      case ChannelReset => EraseClear(c, b);
      case Status(on) =>
      case FromUs(m) => if m.ts0 == 0 { EraseSim(c, b, m, 0); }
    }
  }

  /**
    Non-interference over whole runs, in both modes: erasing every message of ours leaves the
    same real queues, order map, inside prices, transaction boundary and recovery state, and the
    same verdict on whether the book crossed. It asks that the run lives, or that our messages
    are proper, in which case even a run that dies does so in both.
   */
  lemma {:induction false} SameRealBook(c: Config, b: Book, es: seq<Event>)
    requires !Run(c, b, es).dead || ProperRun(b, es)
    ensures Erase(Run(c, b, es)) == Run(c, Erase(b), MarketOnly(es))
    ensures ProperRun(b, es) ==> AllProper(Run(c, b, es).delQ)
  {
    if es != [] {
      hide Step, Erase, AllProper, Proper;
      var front, e := es[..|es| - 1], es[|es| - 1];
      assert ProperRun(b, es) ==> ProperRun(b, front);
      SameRealBook(c, b, front);
      EraseStep(c, Run(c, b, front), e);
      var m := MarketOnly(front);
      assert !e.FromUs? ==> (m + [e])[..|m + [e]| - 1] == m;
      assert e.FromUs? ==> m + [] == m;
    }
  }

  /** The same from the empty book, stated on what a market participant can see. */
  lemma SameMarket(c: Config, es: seq<Event>, s: Side, p: int)
    requires !Run(c, Init(c), es).dead
    ensures var full, bare := Run(c, Init(c), es), Run(c, Init(c), MarketOnly(es));
            && RealPart(full.Lev(s, p)) == bare.Lev(s, p)
            && full.orders == bare.orders
            && full.bestBid == bare.bestBid && full.bestAsk == bare.bestAsk
            && full.boundary == bare.boundary
  {
    hide Run;
    assert Erase(Init(c)) == Init(c) by {
      LaddersEqual(Erased(Init(c).bids), Init(c).bids);
      LaddersEqual(Erased(Init(c).asks), Init(c).asks);
    }
    SameRealBook(c, Init(c), es);
  }
}
