/**
  No order of ours is left on the wrong side: as long as our orders reach a book that
  is neither locked nor crossed, no resting sell of ours is at or below the best bid
  and no resting buy of ours at or above the best ask.
 */
module StraySims {
  import opened Levels
  import opened Book
  import opened LatencyQueue

  predicate HasSim(q: Level) { exists o :: o in q && o.IsSim() }

  ghost predicate NoStray(b: Book) {
    && (forall p :: HasSim(b.Lev(Sell, p)) ==> p > b.bestBid)
    && (forall p :: HasSim(b.Lev(Buy, p)) ==> p < b.bestAsk)
  }

  predicate Locked(b: Book) { b.bestBid >= b.bestAsk }

  /** An order of ours that would rest across a locked or crossed inside. */
  predicate RestsAcross(c: Config, b: Book, m: SimMsg) {
    && m.SimAdd? && m.px < c.maxPx && m.px < |b.Lad(m.side)| && Locked(b)
    && (if m.side.Buy? then m.px >= b.bestAsk else m.px <= b.bestBid)
  }

  lemma AppendSim(b: Book, s: Side, px: int, o: Order)
    requires o.IsSim()
    ensures forall t, p :: HasSim(Append(b, s, px, o).Lev(t, p)) <==>
                           HasSim(b.Lev(t, p)) || (t == s && p == px && 0 <= px < |b.Lad(s)|)
  {
    var r := Append(b, s, px, o);
    var q := b.Lev(s, px);
    if 0 <= px < |b.Lad(s)| {
      assert r.Lev(s, px) == q + [o] && o in q + [o];
    }
    forall t, p ensures HasSim(r.Lev(t, p)) <==>
                        HasSim(b.Lev(t, p)) || (t == s && p == px && 0 <= px < |b.Lad(s)|) {
      if t == s && p == px {
        if HasSim(q) {
          var u :| u in q && u.IsSim();
          assert u in q + [o];
        }
      } else {
        assert r.Lev(t, p) == b.Lev(t, p);
      }
    }
  }

  lemma AddSimKeepsIff(c: Config, b: Book, n: nat, s: Side, px: nat, sz: int, ts0: nat)
    requires NoStray(b) && !AddSim(c, b, n, s, px, sz).dead
    ensures NoStray(AddSim(c, b, n, s, px, sz)) <==> !RestsAcross(c, b, SimAdd(n, s, px, sz, ts0))
  {
    hide HasSim, Append, Book.Lev;
    var r := AddSim(c, b, n, s, px, sz);
    if px < c.maxPx && !FillsOnArrival(b, s, px) {
      AppendSim(b, s, px, Order(Sim(n), 0, sz));
      AppendInside(b, s, px, Order(Sim(n), 0, sz));
      if px < |b.Lad(s)| { assert HasSim(r.Lev(s, px)); }
    } else {
      SameStray(b, r);
    }
  }

  lemma AppendInside(b: Book, s: Side, px: int, o: Order)
    ensures Append(b, s, px, o).bestBid == b.bestBid && Append(b, s, px, o).bestAsk == b.bestAsk
  {}

  /** A message of ours breaks the property exactly when it rests across a locked inside. */
  lemma AppliedKeepsIff(c: Config, b: Book, m: SimMsg, at: nat)
    requires NoStray(b) && !ApplySim(c, b, m, at).dead
    ensures NoStray(ApplySim(c, b, m, at)) <==> !RestsAcross(c, b, m)
  {
    hide NoStray, AddSim, CancelSim;
    var b1 := b.(applied := b.applied + [(m, at)]);
    SameStray(b, b1);
    match m
    case SimAdd(n, s, px, sz, ts0) => AddSimKeepsIff(c, b1, n, s, px, sz, ts0);
    case SimCancel(n, s, px, _) => CancelKeeps(c, b1, n, s, px);
  }

  lemma {:induction false} RemoveSims(q: Level, id: OrderId)
    ensures HasSim(Remove(q, id)) ==> HasSim(q)
  {
    if q != [] {
      RemoveSims(q[1..], id);
      assert q == [q[0]] + q[1..];
      if HasSim(Remove(q, id)) {
        var o :| o in Remove(q, id) && o.IsSim();
        if o != q[0] && q[0].id != id {
          assert o in Remove(q[1..], id);
          assert HasSim(q[1..]);
        }
      }
    }
  }

  lemma CancelKeeps(c: Config, b: Book, n: nat, s: Side, px: int)
    requires NoStray(b)
    ensures NoStray(CancelSim(c, b, n, s, px))
  {
    var q := b.Lev(s, px);
    RemoveSims(q, Sim(n));
    var r := CancelSim(c, b, n, s, px);
    hide HasSim;
    Fewer(b, r, s, px, Remove(q, Sim(n)));
  }

  /** Fewer sims and a wider inside keep the property. */
  lemma Fewer(b: Book, r: Book, s: Side, px: int, q: Level)
    requires NoStray(b) && r.bestBid <= b.bestBid && r.bestAsk >= b.bestAsk
    requires HasSim(q) ==> HasSim(b.Lev(s, px))
    requires (r.bids == b.bids && r.asks == b.asks) ||
             (r.bids == b.WithLev(s, px, q).bids && r.asks == b.WithLev(s, px, q).asks)
    ensures NoStray(r)
  {
    hide HasSim;
    assert forall t, p :: r.Lev(t, p) == b.Lev(t, p) || (t == s && p == px && r.Lev(t, p) == q);
  }

  lemma RealPartNoSim(q: Level)
    ensures !HasSim(RealPart(q)) && !HasSim([])
  {
    RealPartMembers(q);
  }

  lemma SweptSims(c: Config, b: Book, s: Side, px: int)
    ensures var (lo, hi) := SweepRange(c, b, s, px);
            forall t, p :: HasSim(Sweep(c, b, s, px).Lev(t, p)) ==>
                           HasSim(b.Lev(t, p)) && (t == s || !(lo <= p <= hi))
  {
    hide HasSim, NotesUp, NotesDown, RealPart, SweepRange;
    var (lo, hi) := SweepRange(c, b, s, px);
    var r := Sweep(c, b, s, px);
    forall t, p | HasSim(r.Lev(t, p)) ensures HasSim(b.Lev(t, p)) && (t == s || !(lo <= p <= hi)) {
      RealPartNoSim(b.Lev(t, p));
    }
  }

  lemma AppendRealSims(b: Book, s: Side, px: int, o: Order)
    requires !o.IsSim()
    ensures forall t, p :: HasSim(Append(b, s, px, o).Lev(t, p)) ==> HasSim(b.Lev(t, p))
  {
    var r := Append(b, s, px, o);
    forall t, p | HasSim(r.Lev(t, p)) ensures HasSim(b.Lev(t, p)) {
      var u :| u in r.Lev(t, p) && u.IsSim();
      assert u in b.Lev(t, p);
    }
  }

  /** An arriving real order takes every order of ours it reaches. */
  lemma AddKeeps(c: Config, b: Book, n: nat, x: nat, s: Side, px: int, sz: int)
    requires NoStray(b)
    ensures NoStray(AddReal(c, b, n, x, s, px, sz))
  {
    hide HasSim, Append, Sweep, Uncrosses, WalkUp, WalkDown;
    if px >= c.maxPx || sz <= 0 {
      Fewer(b, AddReal(c, b, n, x, s, px, sz), s, px, b.Lev(s, px));
    } else {
      SweptSims(c, b, s, px);
      SweepBests(c, b, s, px);
      var b1 := Sweep(c, b, s, px);
      var b2 := MoveInside(c, b1, s, px, Uncrosses(c, b, s, px));
      var o := Order(Real(n), x, sz);
      AppendRealSims(b2, s, px, o);
      AppendBests(b2, s, px, o);
      assert forall t, p :: b2.Lev(t, p) == b1.Lev(t, p);
      var r := Append(b2, s, px, o);
      assert forall t, p :: HasSim(r.Lev(t, p)) ==> HasSim(b1.Lev(t, p));
      var (lo, hi) := SweepRange(c, b, s, px);
      if s.Buy? {
        assert px > b.bestBid ==> forall p :: b.bestBid < p <= px ==> !HasSim(r.Lev(Sell, p));
      } else {
        assert px < b.bestAsk ==> forall p :: px <= p < b.bestAsk ==> !HasSim(r.Lev(Buy, p));
      }
    }
  }

  lemma SweepBests(c: Config, b: Book, s: Side, px: int)
    ensures Sweep(c, b, s, px).bestBid == b.bestBid && Sweep(c, b, s, px).bestAsk == b.bestAsk
  {}

  lemma AppendBests(b: Book, s: Side, px: int, o: Order)
    ensures Append(b, s, px, o).bestBid == b.bestBid && Append(b, s, px, o).bestAsk == b.bestAsk
  {}

  lemma {:induction false} ResizeSims(q: Level, m: nat, sz: int)
    ensures HasSim(Resize(q, Real(m), sz)) ==> HasSim(q)
  {
    if q != [] {
      ResizeSims(q[1..], m, sz);
      assert q == [q[0]] + q[1..];
      if HasSim(Resize(q, Real(m), sz)) {
        var o :| o in Resize(q, Real(m), sz) && o.IsSim();
        if o != q[0] && q[0].id != Real(m) { assert HasSim(q[1..]); }
      }
    }
  }

  lemma ExecSims(q: Level, m: nat, sz: int, px: int)
    ensures HasSim(ExecLevel(q, m, sz, px).0) ==> HasSim(q)
  {
    var h := HeadReal(q);
    assert q == q[..h] + q[h..];
    if HasSim(ExecLevel(q, m, sz, px).0) && h > 0 { assert q[0] in q; }
    if h == 0 { assert q[..0] == []; }
  }

  lemma RewalkWidens(c: Config, b: Book, s: Side, px: int)
    ensures var r := Rewalk(c, b, s, px);
            r.bids == b.bids && r.asks == b.asks && r.bestBid <= b.bestBid && r.bestAsk >= b.bestAsk
  {}

  lemma EditKeeps(c: Config, b: Book, s: Side, px: int, q: Level, notes: seq<Note>)
    requires NoStray(b) && (HasSim(q) ==> HasSim(b.Lev(s, px)))
    ensures NoStray(Rewalk(c, b.WithLev(s, px, q).(notes := notes), s, px))
    ensures NoStray(Rewalk(c, b.WithLev(s, px, q), s, px))
  {
    hide HasSim, Rewalk;
    RewalkWidens(c, b.WithLev(s, px, q), s, px);
    RewalkWidens(c, b.WithLev(s, px, q).(notes := notes), s, px);
    Fewer(b, Rewalk(c, b.WithLev(s, px, q), s, px), s, px, q);
    Fewer(b, Rewalk(c, b.WithLev(s, px, q).(notes := notes), s, px), s, px, q);
  }

  lemma PayloadKeeps(c: Config, b: Book, p: Payload)
    requires NoStray(b)
    ensures NoStray(ApplyPayload(c, b, p))
  {
    hide NoStray, HasSim, AddReal, Rewalk, ExecLevel, Book.WithLev;
    var q := b.Lev(p.side, p.px);
    SameStray(b, b.(dead := true));
    match p
    case PAdd(n, x, s, px, sz) => AddKeeps(c, b, n, x, s, px, sz);
    case PCancel(n, s, px) =>
      RemoveSims(q, Real(n));
      EditKeeps(c, b, s, px, Remove(q, Real(n)), b.notes);
    case PResize(n, s, px, sz) =>
      ResizeSims(q, n, sz);
      EditKeeps(c, b, s, px, Resize(q, Real(n), sz), b.notes);
    case PExec(n, s, px, sz) =>
      ExecSims(q, n, sz, px);
      EditKeeps(c, b, s, px, ExecLevel(q, n, sz, px).0, b.notes + ExecLevel(q, n, sz, px).1);
  }

  // ----- whole records and runs

  /** No message that took effect between `b` and `r` rests across b's locked inside; a cancel never does. */
  ghost predicate Orderly(c: Config, b: Book, r: Book) {
    forall i :: |b.applied| <= i < |r.applied| ==> !RestsAcross(c, b, r.applied[i].0)
  }

  /** The inside of `r` is no narrower than that of `b`. */
  predicate Wider(b: Book, r: Book) {
    r.bestBid <= b.bestBid && b.bestAsk <= r.bestAsk && |r.bids| == |b.bids| && |r.asks| == |b.asks|
  }

  lemma WiderAcross(c: Config, b: Book, r: Book, m: SimMsg)
    requires Wider(b, r) && RestsAcross(c, r, m)
    ensures RestsAcross(c, b, m)
  {}

  lemma OrderlySplit(c: Config, b: Book, mid: Book, r: Book)
    requires Orderly(c, b, r) && Wider(b, mid) && b.applied <= mid.applied <= r.applied
    ensures Orderly(c, b, mid) && Orderly(c, mid, r)
  {
    hide RestsAcross;
    forall i | |mid.applied| <= i < |r.applied| ensures !RestsAcross(c, mid, r.applied[i].0) {
      if RestsAcross(c, mid, r.applied[i].0) { WiderAcross(c, b, mid, r.applied[i].0); }
    }
  }

  lemma {:induction false} DrainKeeps(c: Config, b: Book, tim: nat)
    requires NoStray(b) && !Drain(c, b, tim).dead && Orderly(c, b, Drain(c, b, tim))
    ensures NoStray(Drain(c, b, tim))
    decreases |b.delQ|
  {
    hide NoStray, ApplySim, HasSim, Stamped, RestsAcross;
    if !(b.dead || b.delQ == [] || Due(c, b.delQ[0]) >= tim) {
      var b0, m := b.(delQ := b.delQ[1..]), b.delQ[0];
      var b1 := ApplySim(c, b0, m, tim);
      SameStray(b, b0);
      AppliedNext(c, b0, m, tim);
      AppliedSizes(c, b0, m, tim);
      DrainReleases(c, b1, tim);
      OrderlySplit(c, b, b1, Drain(c, b, tim));
      assert b1.applied[|b.applied|] == (m, tim);
      SameAcross(c, b, b0, m);
      AppliedKeepsIff(c, b0, m, tim);
      DrainKeeps(c, b1, tim);
    }
  }

  lemma SameAcross(c: Config, b: Book, r: Book, m: SimMsg)
    requires r.bestBid == b.bestBid && r.bestAsk == b.bestAsk && |r.bids| == |b.bids| && |r.asks| == |b.asks|
    ensures RestsAcross(c, r, m) == RestsAcross(c, b, m)
  {}

  lemma AppliedSizes(c: Config, b: Book, m: SimMsg, at: nat)
    ensures var r := ApplySim(c, b, m, at); |r.bids| == |b.bids| && |r.asks| == |b.asks|
  {
    hide AddSim, CancelSim;
  }

  lemma {:induction false} DrainSizes(c: Config, b: Book, tim: nat)
    ensures var r := Drain(c, b, tim); |r.bids| == |b.bids| && |r.asks| == |b.asks|
    decreases |b.delQ|
  {
    hide ApplySim;
    if !(b.dead || b.delQ == [] || Due(c, b.delQ[0]) >= tim) {
      var b0 := b.(delQ := b.delQ[1..]);
      AppliedSizes(c, b0, b.delQ[0], tim);
      AppliedQueue(c, b0, b.delQ[0], tim);
      DrainSizes(c, ApplySim(c, b0, b.delQ[0], tim), tim);
    }
  }

  lemma AppliedQueue(c: Config, b: Book, m: SimMsg, at: nat)
    ensures ApplySim(c, b, m, at).delQ == b.delQ
  {
    hide AddSim, CancelSim;
  }

  lemma SameStray(b: Book, r: Book)
    requires r.bids == b.bids && r.asks == b.asks && r.bestBid == b.bestBid && r.bestAsk == b.bestAsk
    ensures NoStray(b) <==> NoStray(r)
  {
    hide HasSim;
    assert forall t, p :: r.Lev(t, p) == b.Lev(t, p);
  }

  lemma ProcessKeeps(c: Config, b: Book, p: Payload, tim: nat)
    requires NoStray(b) && !Process(c, b, p, tim).dead && Orderly(c, b, Process(c, b, p, tim))
    ensures NoStray(Process(c, b, p, tim))
  {
    hide NoStray, ApplyPayload, Drain, Stamped;
    if !(b.dead || p.px <= 0) {
      var d := Drain(c, b, tim);
      DrainKeeps(c, b, tim);
      var d1 := d.(boundary := Max(d.boundary, tim));
      SameStray(d, d1);
      PayloadKeeps(c, d1, p);
    }
  }

  lemma CancelWidens(c: Config, b: Book, n: nat, s: Side, px: int)
    ensures var r := CancelReal(c, b, n, s, px); r.bestBid <= b.bestBid && r.bestAsk >= b.bestAsk
  {
    hide Rewalk;
    RewalkWidens(c, b.WithLev(s, px, Remove(b.Lev(s, px), Real(n))), s, px);
  }

  lemma CancelProcessWidens(c: Config, b: Book, n: nat, s: Side, px: int, tim: nat)
    requires !Process(c, b, PCancel(n, s, px), tim).dead
    ensures Wider(b, Process(c, b, PCancel(n, s, px), tim))
  {
    hide Drain, CancelReal, Stamped;
    if px > 0 && !b.dead {
      DrainReleases(c, b, tim);
      DrainSizes(c, b, tim);
      var d := Drain(c, b, tim);
      CancelWidens(c, d.(boundary := Max(d.boundary, tim)), n, s, px);
    }
  }

  lemma AppliedGrows(c: Config, b: Book, p: Payload, tim: nat)
    requires !Process(c, b, p, tim).dead
    ensures b.applied <= Process(c, b, p, tim).applied
  {
    hide Drain, Stamped, ApplyPayload;
    if !b.dead && p.px > 0 { DrainReleases(c, b, tim); }
  }

  lemma ReplaceKeeps(c: Config, b: Book, e: Event)
    requires e.Record? && e.xoid in b.orders && Replaces(b.orders[e.xoid], e)
    requires NoStray(b) && !OnChange(c, b, e).dead && Orderly(c, b, OnChange(c, b, e))
    ensures NoStray(OnChange(c, b, e))
  {
    hide NoStray, Process, RestsAcross;
    var o := b.orders[e.xoid];
    var px := if e.side.Some? then e.px else o.px;
    var p1 := PCancel(o.id, o.side, o.px);
    var b1 := Process(c, b, p1, e.tim);
    var i1 := b1.(nextId := b1.nextId + 1);
    var p2 := PAdd(b1.nextId, e.xoid, o.side, px, e.qty);
    var b2 := Process(c, i1, p2, e.tim);
    assert !b1.dead by { ProcessStaysDead(c, i1, p2, e.tim); }
    AppliedGrows(c, b, p1, e.tim);
    AppliedGrows(c, i1, p2, e.tim);
    CancelProcessWidens(c, b, o.id, o.side, o.px, e.tim);
    OrderlySplit(c, b, i1, OnChange(c, b, e));
    SameOrderly(c, b, i1, b, b1);
    ProcessKeeps(c, b, p1, e.tim);
    SameStray(b1, i1);
    SameOrderly(c, i1, OnChange(c, b, e), i1, b2);
    ProcessKeeps(c, i1, p2, e.tim);
    SameStray(b2, OnChange(c, b, e));
  }

  /** Orderliness looks at the applied messages, the inside and the ladder sizes alone. */
  lemma SameOrderly(c: Config, b: Book, r: Book, b': Book, r': Book)
    requires Orderly(c, b, r) && Wider(b, b') && b'.applied == b.applied && r'.applied == r.applied
    ensures Orderly(c, b', r')
  {
    hide RestsAcross;
    forall i | |b'.applied| <= i < |r'.applied| ensures !RestsAcross(c, b', r'.applied[i].0) {
      if RestsAcross(c, b', r'.applied[i].0) { WiderAcross(c, b, b', r'.applied[i].0); }
    }
  }

  lemma ChangeKeeps(c: Config, b: Book, e: Event)
    requires e.Record? && NoStray(b) && !OnChange(c, b, e).dead && Orderly(c, b, OnChange(c, b, e))
    ensures NoStray(OnChange(c, b, e))
  {
    hide NoStray, Process;
    if e.xoid in b.orders {
      var o := b.orders[e.xoid];
      if Replaces(o, e) {
        ReplaceKeeps(c, b, e);
      } else {
        var b1 := b.(orders := b.orders[e.xoid := o.(sz := e.qty)]);
        SameStray(b, b1);
        SameOrderly(c, b, OnChange(c, b, e), b1, OnChange(c, b, e));
        ProcessKeeps(c, b1, PResize(o.id, o.side, o.px, e.qty), e.tim);
      }
    }
  }

  lemma NewKeeps(c: Config, b: Book, e: Event)
    requires e.Record? && NoStray(b) && !OnNew(c, b, e).dead && Orderly(c, b, OnNew(c, b, e))
    ensures NoStray(OnNew(c, b, e))
  {
    hide NoStray, Process;
    if e.xoid in b.orders {
      SameStray(b, OnNew(c, b, e));
    } else {
      var b1 := b.(orders := b.orders[e.xoid := Info(b.nextId, e.px, e.qty, e.side.value)],
                   nextId := b.nextId + 1);
      SameStray(b, b1);
      SameOrderly(c, b, OnNew(c, b, e), b1, OnNew(c, b, e));
      ProcessKeeps(c, b1, PAdd(b.nextId, e.xoid, e.side.value, e.px, e.qty), e.tim);
    }
  }

  lemma DeleteKeeps(c: Config, b: Book, e: Event)
    requires e.Record? && NoStray(b) && !OnDelete(c, b, e).dead && Orderly(c, b, OnDelete(c, b, e))
    ensures NoStray(OnDelete(c, b, e))
  {
    hide NoStray, Process;
    if e.xoid in b.orders {
      var o := b.orders[e.xoid];
      var p := PCancel(o.id, o.side, o.px);
      SameOrderly(c, b, OnDelete(c, b, e), b, Process(c, b, p, e.tim));
      ProcessKeeps(c, b, p, e.tim);
      SameStray(Process(c, b, p, e.tim), OnDelete(c, b, e));
    }
  }

  lemma ClearKeeps(c: Config, b: Book)
    requires c.maxPx >= 2
    ensures NoStray(Clear(c, b)) && !Locked(Clear(c, b)) && Clear(c, b).applied == b.applied
  {
    assert forall t, p :: Clear(c, b).Lev(t, p) == [];
  }

  /** The book our messages meet at an event: a record that begins a snapshot clears it first. */
  function Met(c: Config, b: Book, e: Event): Book { if e.Record? then Recover(c, b, e.recovery) else b }

  lemma RecordKeeps(c: Config, b: Book, e: Event)
    requires e.Record? && c.maxPx >= 2
    requires NoStray(b) && !OnRecord(c, b, e).dead && Orderly(c, Met(c, b, e), OnRecord(c, b, e))
    ensures NoStray(OnRecord(c, b, e))
  {
    hide NoStray, OnNew, OnChange, OnDelete, Clear;
    if OnLadder(c, e.px) || !e.action.New? {
      var b1 := Recover(c, b, e.recovery);
      ClearKeeps(c, b);
      SameStray(Clear(c, b), Clear(c, b).(inRecovery := true));
      SameStray(b, b.(inRecovery := false));
      hide Recover;
      if e.action.New? { NewKeeps(c, b1, e); }
      else if e.action.Change? && OnLadder(c, e.px) { ChangeKeeps(c, b1, e); }
      else { DeleteKeeps(c, b1, e); }
    }
  }

  lemma StepKeepsSides(c: Config, b: Book, e: Event)
    requires c.maxPx >= 2 && NoStray(b) && !Step(c, b, e).dead && Orderly(c, Met(c, b, e), Step(c, b, e))
    ensures NoStray(Step(c, b, e))
  {
    hide NoStray, OnRecord, Process, Clear, ApplySim;
    match e
    case Record(_, _, _, _, _, _, _) => RecordKeeps(c, b, e);
    case Exec(n, s, px, sz, tim) => ProcessKeeps(c, b, PExec(n, s, px, sz), tim);
    case ChannelReset => ClearKeeps(c, b);
    case Status(on) => SameStray(b, b.(matching := on));
    case FromUs(m) =>
      SameStray(b, b.(delQ := b.delQ + [m]));
      if m.ts0 == 0 {
        AppliedNext(c, b, m, 0);
        assert Step(c, b, e).applied[|b.applied|] == (m, 0);
        AppliedKeepsIff(c, b, m, 0);
      }
  }

  /** No order of ours took effect across a locked or crossed inside. Orders that arrive while the best
      bid is below the best ask never do, nor do cancels. */
  ghost predicate OrderlyRun(c: Config, b: Book, es: seq<Event>) {
    es == [] ||
    (OrderlyRun(c, b, es[..|es| - 1]) &&
     Orderly(c, Met(c, Run(c, b, es[..|es| - 1]), es[|es| - 1]), Run(c, b, es)))
  }

  lemma {:induction false} NoStrayRun(c: Config, es: seq<Event>)
    requires c.maxPx >= 2 && !Run(c, Init(c), es).dead && OrderlyRun(c, Init(c), es)
    ensures NoStray(Run(c, Init(c), es))
  {
    hide NoStray, Step, Met;
    if es == [] {
      InitNoStray(c);
    } else {
      var b1 := Run(c, Init(c), es[..|es| - 1]);
      var e := es[|es| - 1];
      assert !b1.dead by { StepStaysDead(c, b1, e); }
      NoStrayRun(c, es[..|es| - 1]);
      StepKeepsSides(c, b1, e);
    }
  }

  lemma InitNoStray(c: Config)
    ensures NoStray(Init(c))
  {
    assert forall t, p :: Init(c).Lev(t, p) == [];
  }
}
