/**
  Honest queue position: the number of real orders ahead of a resting order of ours
  never rises, an execution reaches it only when that number is zero, and one
  execution fills exactly what stands ahead of the head real order, up to its size.
 */
module QueuePosition {
  import opened Levels
  import opened Book
  import opened NonInterference
  import opened Conservation

  /** Real orders in front of order `n` of ours (all of them when it does not rest here). */
  function RealAhead(q: Level, n: nat): (r: nat)
    ensures r <= |q|
  {
    if q == [] || q[0].id == Sim(n) then 0
    else (if q[0].IsSim() then 0 else 1) + RealAhead(q[1..], n)
  }

  // ----- one execution

  predicate AllSim(q: Level) { forall i :: 0 <= i < |q| ==> q[i].IsSim() && q[i].sz > 0 }

  predicate SimPositive(q: Level) { forall o :: o in q && o.IsSim() ==> o.sz > 0 }

  function FillLots(ts: seq<Note>): int {
    if ts == [] then 0 else (if ts[0].Fill? then ts[0].sz else 0) + FillLots(ts[1..])
  }

  lemma {:induction false} SimSizeConcat(a: Level, b: Level)
    ensures SimSize(a + b) == SimSize(a) + SimSize(b)
  {
    if a == [] {
      assert a + b == b;
    } else {
      assert (a + b)[1..] == a[1..] + b;
      SimSizeConcat(a[1..], b);
    }
  }

  lemma {:induction false} FillBackLots(q: Level, sz: int, px: int)
    requires AllSim(q) && sz >= 0
    ensures FillLots(FillBack(q, sz, px).1) == Min(sz, SimSize(q)) && SimSize(q) >= 0
    ensures SimSize(FillBack(q, sz, px).0) == SimSize(q) - Min(sz, SimSize(q))
    ensures AllSim(FillBack(q, sz, px).0)
  {
    if q != [] {
      var last, front := q[|q| - 1], q[..|q| - 1];
      assert q == front + [last];
      SimSizeConcat(front, [last]);
      FillBackLots(front, if last.sz <= sz then sz - last.sz else 0, px);
      if sz > 0 && last.sz > sz {
        SimSizeConcat(front, [last.(sz := last.sz - sz)]);
      }
    }
  }

  /** Every fill of FillBack is of an order that stood in the queue, at the traded price, never too large. */
  lemma {:induction false} FillBackWhom(q: Level, sz: int, px: int, j: nat)
    requires j < |FillBack(q, sz, px).1|
    ensures var t := FillBack(q, sz, px).1[j];
            t.Fill? && t.px == px && exists i :: 0 <= i < |q| && q[i].id == Sim(t.n) && t.sz + t.left == q[i].sz
  {
    var last, front := q[|q| - 1], q[..|q| - 1];
    if last.sz <= sz && j > 0 {
      FillBackWhom(front, sz - last.sz, px, j - 1);
      var t := FillBack(q, sz, px).1[j];
      var i :| 0 <= i < |front| && front[i].id == Sim(t.n) && t.sz + t.left == front[i].sz;
      assert q[i] == front[i];
    } else {
      assert q[|q| - 1].id == Sim(FillBack(q, sz, px).1[j].n);
    }
  }

  /**
    One execution of `sz` lots against real order `m`: our orders ahead of the head real order
    are filled, in total exactly the smaller of `sz` and what they hold, when `m` is that head
    order; otherwise nothing is filled.
   */
  lemma ExecFillsExactly(q: Level, m: nat, sz: int, px: int)
    requires sz > 0 && AllSim(q[..HeadReal(q)])
    ensures var h := HeadReal(q);
            FillLots(ExecLevel(q, m, sz, px).1) ==
            if h < |q| && Find(q, Real(m)) == h then Min(sz, SimSize(q[..h])) else 0
  {
    FillBackLots(q[..HeadReal(q)], sz, px);
  }

  /** An execution fills an order of ours only when no real order stands ahead of it. */
  lemma ExecFillsFront(q: Level, m: nat, sz: int, px: int, j: nat)
    requires j < |ExecLevel(q, m, sz, px).1|
    ensures var t := ExecLevel(q, m, sz, px).1[j];
            t.Fill? && t.px == px && Holds(q, Sim(t.n)) && RealAhead(q, t.n) == 0
  {
    var h := HeadReal(q);
    FillBackWhom(q[..h], sz, px, j);
    var t := ExecLevel(q, m, sz, px).1[j];
    var i :| 0 <= i < h && q[..h][i].id == Sim(t.n);
    assert q[i].id == Sim(t.n);
    FrontOfQueue(q, t.n, i);
  }

  lemma {:induction false} FrontOfQueue(q: Level, n: nat, i: nat)
    requires i < HeadReal(q) && q[i].id == Sim(n)
    ensures Holds(q, Sim(n)) && RealAhead(q, n) == 0
  {
    if q[0].id != Sim(n) {
      assert q[1..][i - 1] == q[i];
      FrontOfQueue(q[1..], n, i - 1);
    }
  }

  // ----- what an operation may do to the place of order n

  /** At most one copy of `n` stays at most one copy, and it does not slip back. */
  ghost predicate Kept(q: Level, r: Level, n: nat) {
    && LevelSum(r, n, Heads) <= LevelSum(q, n, Heads)
    && (LevelSum(q, n, Heads) <= 1 && Holds(r, Sim(n)) ==> RealAhead(r, n) <= RealAhead(q, n))
  }

  lemma KeptTrans(q: Level, r: Level, t: Level, n: nat)
    requires Kept(q, r, n) && Kept(r, t, n)
    ensures Kept(q, t, n)
  {
    LevelHeads(r, n);
    LevelHeads(t, n);
  }

  lemma {:induction false} AheadAppend(q: Level, o: Order, n: nat)
    requires o.id != Sim(n)
    ensures Kept(q, q + [o], n)
  {
    LevelSumConcat(q, [o], n, Heads);
    LevelHeads(q, n);
    LevelHeads(q + [o], n);
    if Holds(q, Sim(n)) { AheadConcat(q, [o], n); }
  }

  lemma {:induction false} AheadConcat(a: Level, b: Level, n: nat)
    ensures RealAhead(a + b, n) ==
            if Holds(a, Sim(n)) then RealAhead(a, n) else |RealPart(a)| + RealAhead(b, n)
  {
    if a == [] {
      assert a + b == b;
    } else {
      assert (a + b)[1..] == a[1..] + b;
      AheadConcat(a[1..], b, n);
    }
  }

  lemma {:induction false} AheadRemove(q: Level, id: OrderId, n: nat)
    ensures id != Sim(n) ==> RealAhead(Remove(q, id), n) <= RealAhead(q, n)
  {
    if q != [] && q[0].id != id {
      AheadRemove(q[1..], id, n);
      assert Remove(q, id)[1..] == Remove(q[1..], id);
    }
  }

  lemma KeptRemove(q: Level, id: OrderId, n: nat)
    ensures Kept(q, Remove(q, id), n)
  {
    LevelSumRemove(q, id, n, Heads);
    AheadRemove(q, id, n);
    LevelHeads(q, n);
    LevelHeads(Remove(q, id), n);
  }

  lemma {:induction false} AheadResize(q: Level, m: nat, sz: int, n: nat)
    ensures RealAhead(Resize(q, Real(m), sz), n) == RealAhead(q, n)
  {
    if q != [] {
      if q[0].id == Real(m) {
        assert Resize(q, Real(m), sz)[1..] == q[1..];
      } else {
        AheadResize(q[1..], m, sz, n);
        assert Resize(q, Real(m), sz)[1..] == Resize(q[1..], Real(m), sz);
      }
    }
  }

  lemma KeptResize(q: Level, m: nat, sz: int, n: nat)
    ensures Kept(q, Resize(q, Real(m), sz), n)
  {
    LevelSumResize(q, m, sz, n, Heads);
    AheadResize(q, m, sz, n);
  }

  lemma KeptSwept(q: Level, r: Level, n: nat)
    requires r == [] || r == RealPart(q)
    ensures Kept(q, r, n)
  {
    LevelSumRealPart(q, n, Heads);
    LevelHeads(q, n);
    LevelHeads(r, n);
  }

  lemma KeptExec(q: Level, m: nat, sz: int, px: int, n: nat)
    ensures Kept(q, ExecLevel(q, m, sz, px).0, n)
  {
    var h := HeadReal(q);
    var r := ExecLevel(q, m, sz, px);
    ExecLevelReport(q, m, sz, px, n, Heads);
    ReportedHeads(r.1, n);
    if h < |q| && Find(q, Real(m)) == h && LevelSum(q, n, Heads) <= 1 && Holds(r.0, Sim(n)) {
      var front, back, left := q[..h], q[h..], FillBack(q[..h], sz, px).0;
      assert q == front + back;
      EraseFillBack(front, sz, px);
      NoReals(front);
      AheadConcat(front, back, n);
      AheadConcat(left, back, n);
      FrontZero(left, n);
      LevelSumConcat(front, back, n, Heads);
      LevelSumConcat(left, back, n, Heads);
      FillBackReport(front, sz, px, n, Heads);
      ReportedHeads(FillBack(front, sz, px).1, n);
      LevelHeads(front, n); LevelHeads(back, n); LevelHeads(left, n); LevelHeads(r.0, n);
    }
  }

  lemma {:induction false} NoReals(q: Level)
    requires forall i :: 0 <= i < |q| ==> q[i].IsSim()
    ensures RealPart(q) == []
  {
    if q != [] { NoReals(q[1..]); }
  }

  lemma {:induction false} FrontZero(q: Level, n: nat)
    requires RealPart(q) == []
    ensures RealAhead(q, n) == 0
  {
    if q != [] { FrontZero(q[1..], n); }
  }

  lemma {:induction false} FillBackPositive(q: Level, sz: int, px: int)
    requires SimPositive(q)
    ensures SimPositive(FillBack(q, sz, px).0)
  {
    if q != [] && sz > 0 && q[|q| - 1].IsSim() {
      var last, front := q[|q| - 1], q[..|q| - 1];
      assert q == front + [last];
      if last.sz <= sz { FillBackPositive(front, sz - last.sz, px); }
    }
  }

  lemma {:induction false} RemovePositive(q: Level, id: OrderId)
    ensures forall o :: o in Remove(q, id) ==> o in q
  {
    if q != [] && q[0].id != id {
      RemovePositive(q[1..], id);
    }
  }

  lemma {:induction false} ResizePositive(q: Level, m: nat, sz: int)
    requires SimPositive(q)
    ensures SimPositive(Resize(q, Real(m), sz))
  {
    if q != [] {
      assert q == [q[0]] + q[1..];
      if q[0].id != Real(m) { ResizePositive(q[1..], m, sz); }
    }
  }

  lemma ExecPositive(q: Level, m: nat, sz: int, px: int)
    requires SimPositive(q)
    ensures SimPositive(ExecLevel(q, m, sz, px).0)
  {
    var h := HeadReal(q);
    assert q == q[..h] + q[h..];
    FillBackPositive(q[..h], sz, px);
  }

  // ----- whole operations, at every level

  /** No order with id `on` among these messages. */
  predicate Quiet(q: seq<SimMsg>, on: Option<nat>) {
    forall i :: 0 <= i < |q| ==> QuietMsg(q[i], on)
  }

  predicate QuietMsg(m: SimMsg, on: Option<nat>) { m.SimAdd? && on.Some? ==> m.n != on.value }

  /** A level evolves: order `on` keeps its place or leaves, and our sizes stay positive. */
  ghost predicate Evolves(q: Level, r: Level, on: Option<nat>) {
    (on.Some? ==> Kept(q, r, on.value)) && (SimPositive(q) ==> SimPositive(r))
  }

  ghost predicate BookEvolves(b: Book, r: Book, on: Option<nat>) {
    forall s, p :: Evolves(b.Lev(s, p), r.Lev(s, p), on)
  }

  lemma EvolvesTrans(b: Book, r: Book, t: Book, on: Option<nat>)
    requires BookEvolves(b, r, on) && BookEvolves(r, t, on)
    ensures BookEvolves(b, t, on)
  {
    hide Book.Lev, Kept;
    forall s, p ensures Evolves(b.Lev(s, p), t.Lev(s, p), on) {
      assert Evolves(b.Lev(s, p), r.Lev(s, p), on) && Evolves(r.Lev(s, p), t.Lev(s, p), on);
      if on.Some? { KeptTrans(b.Lev(s, p), r.Lev(s, p), t.Lev(s, p), on.value); }
    }
  }

  lemma EvolvesSame(b: Book, r: Book, on: Option<nat>)
    requires r.bids == b.bids && r.asks == b.asks
    ensures BookEvolves(b, r, on)
  {
    hide LevelSum, RealAhead;
    assert forall s, p :: r.Lev(s, p) == b.Lev(s, p);
  }

  lemma EvolvesEdit(b: Book, r: Book, s: Side, p: int, q: Level, on: Option<nat>)
    requires Evolves(b.Lev(s, p), q, on)
    requires r.bids == b.WithLev(s, p, q).bids && r.asks == b.WithLev(s, p, q).asks
    ensures BookEvolves(b, r, on)
  {
    hide LevelSum, RealAhead, SimPositive;
    forall t, k ensures Evolves(b.Lev(t, k), r.Lev(t, k), on) {
      assert r.Lev(t, k) == b.Lev(t, k) || (t == s && k == p && r.Lev(t, k) == q);
    }
  }

  lemma EvolvesSweep(c: Config, b: Book, s: Side, px: int, on: Option<nat>)
    ensures BookEvolves(b, Sweep(c, b, s, px), on)
  {
    hide NotesUp, NotesDown, LevelSum, RealAhead, SweepRange, Kept;
    var r := Sweep(c, b, s, px);
    forall t, k ensures Evolves(b.Lev(t, k), r.Lev(t, k), on) {
      var q := b.Lev(t, k);
      assert r.Lev(t, k) == q || r.Lev(t, k) == [] || r.Lev(t, k) == RealPart(q);
      RealPartMembers(q);
      if on.Some? {
        KeptSwept(q, [], on.value);
        KeptSwept(q, RealPart(q), on.value);
        KeptSelf(q, on.value);
      }
    }
  }

  lemma KeptSelf(q: Level, n: nat)
    ensures Kept(q, q, n)
  {}

  lemma EvolvesAppend(b: Book, s: Side, px: int, o: Order, on: Option<nat>)
    requires o.IsSim() ==> o.sz > 0
    requires on.Some? ==> o.id != Sim(on.value)
    ensures BookEvolves(b, Append(b, s, px, o), on)
  {
    hide Kept;
    if on.Some? { AheadAppend(b.Lev(s, px), o, on.value); }
    EvolvesEdit(b, Append(b, s, px, o), s, px, b.Lev(s, px) + [o], on);
  }

  lemma EvolvesPayload(c: Config, b: Book, p: Payload, on: Option<nat>)
    ensures BookEvolves(b, ApplyPayload(c, b, p), on)
  {
    hide BookEvolves;
    EvolvesSame(b, b, on);
    EvolvesSame(b, b.(dead := true), on);
    match p
    case PAdd(n, x, s, px, sz) =>
      if px < c.maxPx && sz > 0 { EvolvesAdd(c, b, n, x, s, px, sz, on); }
    case PCancel(n, s, px) => EvolvesCancel(c, b, n, s, px, on);
    case PResize(n, s, px, sz) => EvolvesResize(c, b, n, s, px, sz, on);
    case PExec(n, s, px, sz) => EvolvesExec(c, b, n, s, px, sz, on);
  }

  lemma EvolvesAdd(c: Config, b: Book, n: nat, x: nat, s: Side, px: int, sz: int, on: Option<nat>)
    requires px < c.maxPx && sz > 0
    ensures BookEvolves(b, AddReal(c, b, n, x, s, px, sz), on)
  {
    hide BookEvolves, Sweep, Append;
    var b1 := Sweep(c, b, s, px);
    var b2 := MoveInside(c, b1, s, px, Uncrosses(c, b, s, px));
    EvolvesSweep(c, b, s, px, on);
    EvolvesSame(b1, b2, on);
    EvolvesAppend(b2, s, px, Order(Real(n), x, sz), on);
    EvolvesTrans(b, b1, b2, on);
    EvolvesTrans(b, b2, AddReal(c, b, n, x, s, px, sz), on);
  }

  lemma EvolvesCancel(c: Config, b: Book, n: nat, s: Side, px: int, on: Option<nat>)
    ensures BookEvolves(b, CancelReal(c, b, n, s, px), on)
  {
    hide BookEvolves, Kept;
    EvolvesSame(b, b, on);
    var q := b.Lev(s, px);
    RemovePositive(q, Real(n));
    if on.Some? { KeptRemove(q, Real(n), on.value); }
    if px < c.maxPx && Holds(q, Real(n)) {
      EvolvesEdit(b, CancelReal(c, b, n, s, px), s, px, Remove(q, Real(n)), on);
    }
  }

  lemma EvolvesResize(c: Config, b: Book, n: nat, s: Side, px: int, sz: int, on: Option<nat>)
    ensures BookEvolves(b, ResizeReal(c, b, n, s, px, sz), on)
  {
    hide BookEvolves, Kept;
    EvolvesSame(b, b, on);
    EvolvesSame(b, b.(dead := true), on);
    var q := b.Lev(s, px);
    if SimPositive(q) { ResizePositive(q, n, sz); }
    if on.Some? { KeptResize(q, n, sz, on.value); }
    if px < c.maxPx && Holds(q, Real(n)) && sz > 0 {
      EvolvesEdit(b, ResizeReal(c, b, n, s, px, sz), s, px, Resize(q, Real(n), sz), on);
    }
  }

  lemma EvolvesExec(c: Config, b: Book, n: nat, s: Side, px: int, sz: int, on: Option<nat>)
    ensures BookEvolves(b, ExecReal(c, b, n, s, px, sz), on)
  {
    hide BookEvolves, Kept, ExecLevel;
    EvolvesSame(b, b, on);
    EvolvesSame(b, b.(dead := true), on);
    var q := b.Lev(s, px);
    if SimPositive(q) { ExecPositive(q, n, sz, px); }
    if on.Some? { KeptExec(q, n, sz, px, on.value); }
    if px < c.maxPx && Holds(q, Real(n)) && sz > 0 {
      EvolvesEdit(b, ExecReal(c, b, n, s, px, sz), s, px, ExecLevel(q, n, sz, px).0, on);
    }
  }

  lemma EvolvesSim(c: Config, b: Book, m: SimMsg, at: nat, on: Option<nat>)
    requires QuietMsg(m, on)
    ensures BookEvolves(b, ApplySim(c, b, m, at), on)
  {
    hide BookEvolves, Kept, Append;
    var b1 := b.(applied := b.applied + [(m, at)]);
    EvolvesSame(b, b1, on);
    match m
    case SimAdd(n, s, px, sz, _) =>
      EvolvesSame(b, b1.(dead := true), on);
      EvolvesSame(b, b1.(notes := b.notes + [Fill(n, sz, 0, if s.Buy? then b.bestAsk else b.bestBid)]), on);
      if sz > 0 {
        EvolvesAppend(b1, s, px, Order(Sim(n), 0, sz), on);
        EvolvesTrans(b, b1, Append(b1, s, px, Order(Sim(n), 0, sz)), on);
      }
    case SimCancel(n, s, px, _) =>
      var q := b.Lev(s, px);
      EvolvesSame(b, b1.(notes := b.notes + [CancReject(n)]), on);
      RemovePositive(q, Sim(n));
      if on.Some? { KeptRemove(q, Sim(n), on.value); }
      if px < c.maxPx && Holds(q, Sim(n)) {
        EvolvesEdit(b, ApplySim(c, b, m, at), s, px, Remove(q, Sim(n)), on);
      }
  }

  lemma {:induction false} EvolvesDrain(c: Config, b: Book, tim: nat, on: Option<nat>)
    requires Quiet(b.delQ, on)
    ensures BookEvolves(b, Drain(c, b, tim), on) && Quiet(Drain(c, b, tim).delQ, on)
    decreases |b.delQ|
  {
    hide BookEvolves, ApplySim, QuietMsg;
    EvolvesSame(b, b, on);
    if !(b.dead || b.delQ == [] || Due(c, b.delQ[0]) >= tim) {
      var b0 := b.(delQ := b.delQ[1..]);
      var b1 := ApplySim(c, b0, b.delQ[0], tim);
      EvolvesSame(b, b0, on);
      EvolvesSim(c, b0, b.delQ[0], tim, on);
      EvolvesDrain(c, b1, tim, on);
      EvolvesTrans(b, b0, b1, on);
      EvolvesTrans(b, b1, Drain(c, b1, tim), on);
    }
  }

  lemma EvolvesProcess(c: Config, b: Book, p: Payload, tim: nat, on: Option<nat>)
    requires Quiet(b.delQ, on)
    ensures BookEvolves(b, Process(c, b, p, tim), on) && Quiet(Process(c, b, p, tim).delQ, on)
  {
    hide BookEvolves, ApplyPayload, Drain, Quiet;
    EvolvesSame(b, b, on);
    if !(b.dead || p.px <= 0) {
      var d := Drain(c, b, tim);
      var d1 := d.(boundary := Max(d.boundary, tim));
      EvolvesDrain(c, b, tim, on);
      EvolvesSame(d, d1, on);
      EvolvesSame(d, d.(dead := true), on);
      EvolvesTrans(b, d, d1, on);
      EvolvesTrans(b, d, d.(dead := true), on);
      EvolvesPayload(c, d1, p, on);
      EvolvesTrans(b, d1, ApplyPayload(c, d1, p), on);
    }
  }

  lemma EvolvesClear(c: Config, b: Book, on: Option<nat>)
    ensures BookEvolves(b, Clear(c, b), on)
  {
    hide RealAhead, LevelSum;
    var r := Clear(c, b);
    forall s, p ensures Evolves(b.Lev(s, p), r.Lev(s, p), on) {
      assert r.Lev(s, p) == [];
      if on.Some? { KeptSwept(b.Lev(s, p), [], on.value); }
    }
  }

  lemma EvolvesRecord(c: Config, b: Book, e: Event, on: Option<nat>)
    requires e.Record? && Quiet(b.delQ, on)
    ensures BookEvolves(b, OnRecord(c, b, e), on) && Quiet(OnRecord(c, b, e).delQ, on)
  {
    hide BookEvolves, Quiet, OnNew, OnChange, OnDelete, Clear;
    EvolvesSame(b, b, on);
    var b1 := Recover(c, b, e.recovery);
    EvolvesClear(c, b, on);
    EvolvesSame(Clear(c, b), Clear(c, b).(inRecovery := true), on);
    EvolvesTrans(b, Clear(c, b), Clear(c, b).(inRecovery := true), on);
    EvolvesSame(b, b.(inRecovery := false), on);
    ClearKeepsQueue(c, b);
    EvolvesSame(b1, b1.(dead := true), on);
    EvolvesTrans(b, b1, b1.(dead := true), on);
    EvolvesAction(c, b1, e, on);
    EvolvesTrans(b, b1, OnNew(c, b1, e), on);
    EvolvesTrans(b, b1, OnChange(c, b1, e), on);
    EvolvesTrans(b, b1, OnDelete(c, b1, e), on);
  }

  lemma ClearKeepsQueue(c: Config, b: Book)
    ensures Clear(c, b).delQ == b.delQ
  {}

  lemma EvolvesAction(c: Config, b: Book, e: Event, on: Option<nat>)
    requires e.Record? && Quiet(b.delQ, on)
    ensures BookEvolves(b, OnNew(c, b, e), on) && Quiet(OnNew(c, b, e).delQ, on)
    ensures BookEvolves(b, OnChange(c, b, e), on) && Quiet(OnChange(c, b, e).delQ, on)
    ensures BookEvolves(b, OnDelete(c, b, e), on) && Quiet(OnDelete(c, b, e).delQ, on)
  {
    hide BookEvolves, Quiet, OnNew, OnChange, OnDelete;
    EvolvesNew(c, b, e, on);
    EvolvesChange(c, b, e, on);
    EvolvesDelete(c, b, e, on);
  }

  lemma EvolvesNew(c: Config, b: Book, e: Event, on: Option<nat>)
    requires e.Record? && Quiet(b.delQ, on)
    ensures BookEvolves(b, OnNew(c, b, e), on) && Quiet(OnNew(c, b, e).delQ, on)
  {
    hide BookEvolves, Quiet, Process;
    if e.xoid in b.orders || e.side.None? || e.qty == 0 {
      EvolvesSame(b, OnNew(c, b, e), on);
    } else {
      var b1 := b.(orders := b.orders[e.xoid := Info(b.nextId, e.px, e.qty, e.side.value)],
                   nextId := b.nextId + 1);
      EvolvesSame(b, b1, on);
      EvolvesProcess(c, b1, PAdd(b.nextId, e.xoid, e.side.value, e.px, e.qty), e.tim, on);
      EvolvesTrans(b, b1, OnNew(c, b, e), on);
    }
  }

  lemma EvolvesChange(c: Config, b: Book, e: Event, on: Option<nat>)
    requires e.Record? && Quiet(b.delQ, on)
    ensures BookEvolves(b, OnChange(c, b, e), on) && Quiet(OnChange(c, b, e).delQ, on)
  {
    hide BookEvolves, Quiet, Process;
    if e.xoid !in b.orders || (e.side.None? && e.qty > b.orders[e.xoid].sz) {
      EvolvesSame(b, OnChange(c, b, e), on);
    } else if !Replaces(b.orders[e.xoid], e) {
      var o := b.orders[e.xoid];
      var b1 := b.(orders := b.orders[e.xoid := o.(sz := e.qty)]);
      EvolvesSame(b, b1, on);
      EvolvesProcess(c, b1, PResize(o.id, o.side, o.px, e.qty), e.tim, on);
      EvolvesTrans(b, b1, OnChange(c, b, e), on);
    } else {
      var o := b.orders[e.xoid];
      var s := if e.side.Some? then e.side.value else o.side;
      var px := if e.side.Some? then e.px else o.px;
      var b1 := Process(c, b, PCancel(o.id, o.side, o.px), e.tim);
      var i1 := b1.(nextId := b1.nextId + 1);
      var b2 := Process(c, i1, PAdd(b1.nextId, e.xoid, s, px, e.qty), e.tim);
      EvolvesProcess(c, b, PCancel(o.id, o.side, o.px), e.tim, on);
      EvolvesSame(b1, i1, on);
      EvolvesTrans(b, b1, i1, on);
      EvolvesProcess(c, i1, PAdd(b1.nextId, e.xoid, s, px, e.qty), e.tim, on);
      EvolvesTrans(b, i1, b2, on);
      EvolvesSame(b2, OnChange(c, b, e), on);
      EvolvesTrans(b, b2, OnChange(c, b, e), on);
    }
  }

  lemma EvolvesDelete(c: Config, b: Book, e: Event, on: Option<nat>)
    requires e.Record? && Quiet(b.delQ, on)
    ensures BookEvolves(b, OnDelete(c, b, e), on) && Quiet(OnDelete(c, b, e).delQ, on)
  {
    hide BookEvolves, Quiet, Process;
    if e.xoid !in b.orders {
      EvolvesSame(b, b, on);
    } else {
      var o := b.orders[e.xoid];
      var b1 := Process(c, b, PCancel(o.id, o.side, o.px), e.tim);
      EvolvesProcess(c, b, PCancel(o.id, o.side, o.px), e.tim, on);
      EvolvesSame(b1, OnDelete(c, b, e), on);
      EvolvesTrans(b, b1, OnDelete(c, b, e), on);
    }
  }

  lemma EvolvesStep(c: Config, b: Book, e: Event, on: Option<nat>)
    requires Quiet(b.delQ, on) && (e.FromUs? ==> QuietMsg(e.msg, on))
    ensures BookEvolves(b, Step(c, b, e), on) && Quiet(Step(c, b, e).delQ, on)
  {
    hide BookEvolves, OnRecord, Process, Clear, ApplySim, QuietMsg;
    EvolvesSame(b, b, on);
    if !b.dead {
      match e
      case Record(_, _, _, _, _, _, _) => EvolvesRecord(c, b, e, on);
      case Exec(m, s, px, sz, tim) => EvolvesProcess(c, b, PExec(m, s, px, sz), tim, on);
      case ChannelReset => EvolvesClear(c, b, on); ClearKeepsQueue(c, b);
      case Status(flag) => EvolvesSame(b, b.(matching := flag), on);
      case FromUs(m) =>
        EvolvesSame(b, b.(dead := true), on);
        EvolvesSame(b, b.(delQ := b.delQ + [m]), on);
        EvolvesSim(c, b, m, 0, on);
    }
  }

  // ----- whole runs

  predicate QuietRun(es: seq<Event>, on: Option<nat>) {
    forall i :: 0 <= i < |es| && es[i].FromUs? ==> QuietMsg(es[i].msg, on)
  }

  lemma {:induction false} EvolvesRun(c: Config, b: Book, es: seq<Event>, on: Option<nat>)
    requires Quiet(b.delQ, on) && QuietRun(es, on)
    ensures BookEvolves(b, Run(c, b, es), on) && Quiet(Run(c, b, es).delQ, on)
  {
    hide BookEvolves, Step, Quiet, QuietMsg;
    if es == [] {
      EvolvesSame(b, b, on);
    } else {
      var b1 := Run(c, b, es[..|es| - 1]);
      EvolvesRun(c, b, es[..|es| - 1], on);
      EvolvesStep(c, b1, es[|es| - 1], on);
      EvolvesTrans(b, b1, Run(c, b, es), on);
    }
  }

  lemma {:induction false} OrderedConcat(a: seq<Event>, z: seq<Event>, n: nat)
    ensures Ordered(a + z, n, Heads) == Ordered(a, n, Heads) + Ordered(z, n, Heads)
    ensures Ordered(z, n, Heads) >= 0
    ensures Ordered(z, n, Heads) == 0 ==> QuietRun(z, Some(n))
  {
    if z == [] {
      assert a + z == a;
    } else {
      assert (a + z)[..|a + z| - 1] == a + z[..|z| - 1];
      OrderedConcat(a, z[..|z| - 1], n);
      if Ordered(z, n, Heads) == 0 {
        forall i | 0 <= i < |z| && z[i].FromUs? ensures QuietMsg(z[i].msg, Some(n)) {
          if i < |z| - 1 { assert z[..|z| - 1][i] == z[i]; }
        }
      }
    }
  }

  lemma {:induction false} NoneQueued(q: seq<SimMsg>, n: nat)
    requires Queued(q, n, Heads) == 0
    ensures Quiet(q, Some(n))
  {
    if q != [] {
      QueuedHeads(q[1..], n);
      NoneQueued(q[1..], n);
      forall i | 0 <= i < |q| ensures QuietMsg(q[i], Some(n)) {
        if i > 0 { assert q[i] == q[1..][i - 1]; }
      }
    }
  }

  /** Where order `n` of ours rests after `es`, it rests once, and no copy of it is on its way. */
  lemma RestsOnce(c: Config, es: seq<Event>, s: Side, p: int, n: nat)
    requires c.maxPx >= 0 && !Run(c, Init(c), es).dead && Ordered(es, n, Heads) <= 1
    requires Holds(Run(c, Init(c), es).Lev(s, p), Sim(n))
    ensures var b := Run(c, Init(c), es);
            LevelSum(b.Lev(s, p), n, Heads) == 1 && Quiet(b.delQ, Some(n)) && Ordered(es, n, Heads) == 1
  {
    hide Run, Reported, Refused, Ordered, Queued;
    var b := Run(c, Init(c), es);
    RunTotal(c, es, n, Heads);
    LadderHeads(b.bids, n, p);
    LadderHeads(b.asks, n, p);
    LevelHeads(b.Lev(s, p), n);
    QueuedHeads(b.delQ, n);
    RefusedHeads(c, b.applied, n);
    ReportedHeads(b.notes, n);
    NoneQueued(b.delQ, n);
  }

  /**
    Along any run, in both modes, whatever the market does: an order of ours that still rests
    where it rested before has no more real orders ahead of it than before.
   */
  lemma AheadNeverRises(c: Config, es: seq<Event>, later: seq<Event>, s: Side, p: int, n: nat)
    requires c.maxPx >= 0 && !Run(c, Init(c), es).dead && Ordered(es + later, n, Heads) <= 1
    requires Holds(Run(c, Init(c), es).Lev(s, p), Sim(n))
    requires Holds(Run(c, Run(c, Init(c), es), later).Lev(s, p), Sim(n))
    ensures RealAhead(Run(c, Run(c, Init(c), es), later).Lev(s, p), n) <=
            RealAhead(Run(c, Init(c), es).Lev(s, p), n)
  {
    hide Run, Ordered, RealAhead, LevelSum, QuietRun, Quiet;
    var b := Run(c, Init(c), es);
    OrderedConcat(es, later, n);
    RestsOnce(c, es, s, p, n);
    EvolvesRun(c, b, later, Some(n));
    assert Evolves(b.Lev(s, p), Run(c, b, later).Lev(s, p), Some(n));
  }

  lemma PositiveRun(c: Config, es: seq<Event>, s: Side, p: int)
    ensures SimPositive(Run(c, Init(c), es).Lev(s, p))
  {
    hide Run, Kept;
    EvolvesRun(c, Init(c), es, None);
    assert Init(c).Lev(s, p) == [];
    assert Evolves(Init(c).Lev(s, p), Run(c, Init(c), es).Lev(s, p), None);
  }

  lemma ExecNotes(c: Config, d: Book, m: nat, s: Side, px: int, sz: int)
    requires OnLadder(c, px) && sz > 0
    ensures ExecReal(c, d, m, s, px, sz).notes == d.notes + ExecLevel(d.Lev(s, px), m, sz, px).1
  {
    hide WalkUp, WalkDown, FillBack;
    assert d.notes + [] == d.notes;
  }

  /** An execution on a book whose sim orders have positive sizes: what it adds to the reports. */
  lemma ExecReports(c: Config, d: Book, m: nat, s: Side, px: int, sz: int)
    requires OnLadder(c, px) && sz > 0 && SimPositive(d.Lev(s, px))
    ensures ExecReal(c, d, m, s, px, sz).notes == d.notes + ExecLevel(d.Lev(s, px), m, sz, px).1
    ensures var q := d.Lev(s, px);
            FillLots(ExecLevel(q, m, sz, px).1) ==
            if HeadReal(q) < |q| && Find(q, Real(m)) == HeadReal(q) then Min(sz, SimSize(q[..HeadReal(q)])) else 0
  {
    hide RealAhead, FillLots, SimSize, Rewalk, FillBack, Book.WithLev;
    var q := d.Lev(s, px);
    assert forall i :: 0 <= i < HeadReal(q) ==> q[i] in q;
    ExecFillsExactly(q, m, sz, px);
    ExecNotes(c, d, m, s, px, sz);
  }

  /**
    An execution of `sz` lots, after any run: the record first releases our due messages, and on the
    book `d` they leave it adds fills that total exactly the smaller of `sz` and our lots ahead of the
    head real order when the executed order is that head, nothing otherwise, and only for orders of
    ours with no real order ahead.
   */
  lemma ExecOutcome(c: Config, es: seq<Event>, m: nat, s: Side, px: int, sz: int, tim: nat)
    requires OnLadder(c, px) && sz > 0 && !Step(c, Run(c, Init(c), es), Exec(m, s, px, sz, tim)).dead
    ensures var b := Run(c, Init(c), es);
            var d := Drain(c, b, tim);
            var q := d.Lev(s, px);
            var h := HeadReal(q);
            var notes := Step(c, b, Exec(m, s, px, sz, tim)).notes;
            && d.notes <= notes
            && FillLots(notes[|d.notes|..]) ==
               (if h < |q| && Find(q, Real(m)) == h then Min(sz, SimSize(q[..h])) else 0)
            && forall j :: |d.notes| <= j < |notes| ==>
                 notes[j].Fill? && notes[j].px == px && Holds(q, Sim(notes[j].n)) && RealAhead(q, notes[j].n) == 0
  {
    hide Run, RealAhead, FillLots, SimSize, ExecReal, ExecLevel, Drain, BookEvolves, Kept, HeadReal, Find;
    var b := Run(c, Init(c), es);
    var d := Drain(c, b, tim);
    var d1 := d.(boundary := Max(d.boundary, tim));
    var q := d.Lev(s, px);
    PositiveDrain(c, es, tim, s, px);
    ExecReports(c, d1, m, s, px, sz);
    var f := ExecLevel(q, m, sz, px).1;
    var notes := Step(c, b, Exec(m, s, px, sz, tim)).notes;
    assert notes == d.notes + f && notes[|d.notes|..] == f;
    forall j | |d.notes| <= j < |notes|
      ensures notes[j].Fill? && notes[j].px == px && Holds(q, Sim(notes[j].n)) && RealAhead(q, notes[j].n) == 0
    {
      ExecFillsFront(q, m, sz, px, j - |d.notes|);
      assert notes[j] == f[j - |d.notes|];
    }
  }

  lemma PositiveDrain(c: Config, es: seq<Event>, tim: nat, s: Side, p: int)
    ensures SimPositive(Drain(c, Run(c, Init(c), es), tim).Lev(s, p))
  {
    hide Run, Kept, Drain, SimPositive;
    var b := Run(c, Init(c), es);
    PositiveRun(c, es, s, p);
    EvolvesDrain(c, b, tim, None);
    assert Evolves(b.Lev(s, p), Drain(c, b, tim).Lev(s, p), None);
  }
}
