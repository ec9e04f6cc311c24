/**
  Nothing of ours is lost or invented: over any run the lots we ordered are filled,
  cancelled, resting, still queued or refused for their price, and every order ends
  at most once.

  One accounting identity is proved for two measures at once: lots, and orders.
 */
module Conservation {
  import opened Levels
  import opened Book
  import opened LatencyQueue

  datatype Measure = Lots | Heads

  function Weight(o: Order, n: nat, k: Measure): int {
    if o.id != Sim(n) then 0 else if k.Lots? then o.sz else 1
  }

  function LevelSum(q: Level, n: nat, k: Measure): int {
    if q == [] then 0 else Weight(q[0], n, k) + LevelSum(q[1..], n, k)
  }

  function LadderSum(l: Ladder, n: nat, k: Measure): int {
    if l == [] then 0 else LevelSum(l[0], n, k) + LadderSum(l[1..], n, k)
  }

  /** What rests of order `n`, on either side. */
  function Resting(b: Book, n: nat, k: Measure): int {
    LadderSum(b.bids, n, k) + LadderSum(b.asks, n, k)
  }

  function NoteWeight(t: Note, n: nat, k: Measure): int {
    match t
    case Fill(m, sz, left, _) => if m != n then 0 else if k.Lots? then sz else if left == 0 then 1 else 0
    case CancAck(m, sz) => if m != n then 0 else if k.Lots? then sz else 1
    case CancReject(_) => 0
  }

  /** What the book reported filled or cancelled of order `n`; counted in orders, its final reports. */
  function Reported(ts: seq<Note>, n: nat, k: Measure): int {
    if ts == [] then 0 else Reported(ts[..|ts| - 1], n, k) + NoteWeight(ts[|ts| - 1], n, k)
  }

  function MsgWeight(m: SimMsg, n: nat, k: Measure): int {
    if !m.SimAdd? || m.n != n then 0 else if k.Lots? then m.sz else 1
  }

  function Queued(q: seq<SimMsg>, n: nat, k: Measure): int {
    if q == [] then 0 else MsgWeight(q[0], n, k) + Queued(q[1..], n, k)
  }

  /** Orders priced beyond the ladder: add() logs them and returns, no report is sent. */
  function Refused(c: Config, a: seq<(SimMsg, nat)>, n: nat, k: Measure): int {
    if a == [] then 0
    else
      var m := a[|a| - 1].0;
      Refused(c, a[..|a| - 1], n, k) + if m.px >= c.maxPx then MsgWeight(m, n, k) else 0
  }

  function Ordered(es: seq<Event>, n: nat, k: Measure): int {
    if es == [] then 0
    else
      var e := es[|es| - 1];
      Ordered(es[..|es| - 1], n, k) + if e.FromUs? then MsgWeight(e.msg, n, k) else 0
  }

  function Total(c: Config, b: Book, n: nat, k: Measure): int {
    Resting(b, n, k) + Reported(b.notes, n, k) + Queued(b.delQ, n, k) + Refused(c, b.applied, n, k)
  }

  // ----- levels

  lemma {:induction false} LevelSumConcat(a: Level, b: Level, n: nat, k: Measure)
    ensures LevelSum(a + b, n, k) == LevelSum(a, n, k) + LevelSum(b, n, k)
  {
    if a == [] {
      assert a + b == b;
    } else {
      assert (a + b)[1..] == a[1..] + b;
      LevelSumConcat(a[1..], b, n, k);
    }
  }

  lemma {:induction false} ReportedConcat(a: seq<Note>, b: seq<Note>, n: nat, k: Measure)
    ensures Reported(a + b, n, k) == Reported(a, n, k) + Reported(b, n, k)
  {
    if b == [] {
      assert a + b == a;
    } else {
      assert (a + b)[..|a + b| - 1] == a + b[..|b| - 1];
      ReportedConcat(a, b[..|b| - 1], n, k);
    }
  }

  lemma ReportedOne(t: Note, n: nat, k: Measure)
    ensures Reported([t], n, k) == NoteWeight(t, n, k)
  {
    assert [t][..0] == [];
  }

  lemma LevelSumRemove(q: Level, id: OrderId, n: nat, k: Measure)
    ensures LevelSum(Remove(q, id), n, k) ==
            LevelSum(q, n, k) - if Holds(q, id) then Weight(q[Find(q, id)], n, k) else 0
  {
    hide Remove, Find;
    if Holds(q, id) {
      var i := Find(q, id);
      RemoveSlices(q, id);
      LevelSumWithout(q, i, n, k);
      assert [q[i]][1..] == [];
    } else {
      RemoveAbsent(q, id);
    }
  }

  lemma {:induction false} LevelSumResize(q: Level, m: nat, sz: int, n: nat, k: Measure)
    ensures LevelSum(Resize(q, Real(m), sz), n, k) == LevelSum(q, n, k)
  {
    if q != [] {
      if q[0].id == Real(m) {
        assert Resize(q, Real(m), sz)[1..] == q[1..];
      } else {
        LevelSumResize(q[1..], m, sz, n, k);
        assert Resize(q, Real(m), sz)[1..] == Resize(q[1..], Real(m), sz);
      }
    }
  }

  lemma {:induction false} LevelSumRealPart(q: Level, n: nat, k: Measure)
    ensures LevelSum(RealPart(q), n, k) == 0
  {
    if q != [] {
      LevelSumRealPart(q[1..], n, k);
      if !q[0].IsSim() { assert RealPart(q)[1..] == RealPart(q[1..]); }
    }
  }

  /** A sweep reports exactly what rested on the level. */
  lemma {:induction false} LevelFillsReport(q: Level, px: int, n: nat, k: Measure)
    ensures Reported(LevelFills(q, px), n, k) == LevelSum(q, n, k)
  {
    if q != [] {
      LevelFillsReport(q[1..], px, n, k);
      var f := if q[0].IsSim() then [Fill(q[0].id.n, q[0].sz, 0, px)] else [];
      ReportedConcat(f, LevelFills(q[1..], px), n, k);
      if q[0].IsSim() { ReportedOne(f[0], n, k); }
    }
  }

  lemma LevelSumWithout(q: Level, i: nat, n: nat, k: Measure)
    requires i < |q|
    ensures LevelSum(q, n, k) == LevelSum(Without(q, i), n, k) + LevelSum([q[i]], n, k)
  {
    assert q == q[..i] + ([q[i]] + q[i + 1..]);
    LevelSumConcat(q[..i], [q[i]] + q[i + 1..], n, k);
    LevelSumConcat([q[i]], q[i + 1..], n, k);
    LevelSumConcat(q[..i], q[i + 1..], n, k);
  }

  lemma {:induction false} NoSimNoSum(q: Level, n: nat, k: Measure)
    requires forall j :: 0 <= j < |q| ==> !q[j].IsSim()
    ensures LevelSum(q, n, k) == 0
  {
    if q != [] { NoSimNoSum(q[1..], n, k); }
  }

  /** Clearing reports exactly what rested on the level. */
  lemma {:induction false} LevelAcksReport(q: Level, n: nat, k: Measure)
    ensures Reported(LevelAcks(q), n, k) == LevelSum(q, n, k)
    decreases |q|
  {
    hide LevelSum;
    var i := LeastSim(q);
    if i == |q| {
      NoSimNoSum(q, n, k);
    } else {
      var a := CancAck(q[i].id.n, q[i].sz);
      LevelAcksReport(Without(q, i), n, k);
      LevelSumWithout(q, i, n, k);
      ReportedConcat([a], LevelAcks(Without(q, i)), n, k);
      ReportedOne(a, n, k);
      OneSum(q[i], n, k);
    }
  }

  lemma OneSum(o: Order, n: nat, k: Measure)
    requires o.IsSim()
    ensures LevelSum([o], n, k) == NoteWeight(CancAck(o.id.n, o.sz), n, k)
  {
    assert [o][1..] == [];
  }

  /** Filling from the back moves lots from the queue to the reports. */
  lemma {:induction false} FillBackReport(q: Level, sz: int, px: int, n: nat, k: Measure)
    ensures LevelSum(FillBack(q, sz, px).0, n, k) + Reported(FillBack(q, sz, px).1, n, k) == LevelSum(q, n, k)
  {
    if q != [] && sz > 0 && q[|q| - 1].IsSim() {
      var last, front := q[|q| - 1], q[..|q| - 1];
      assert q == front + [last];
      LevelSumConcat(front, [last], n, k);
      if last.sz <= sz {
        FillBackReport(front, sz - last.sz, px, n, k);
        var f := Fill(last.id.n, last.sz, 0, px);
        ReportedConcat([f], FillBack(front, sz - last.sz, px).1, n, k);
        ReportedOne(f, n, k);
      } else {
        LevelSumConcat(front, [last.(sz := last.sz - sz)], n, k);
        ReportedOne(Fill(last.id.n, sz, last.sz - sz, px), n, k);
      }
    }
  }

  lemma ExecLevelReport(q: Level, m: nat, sz: int, px: int, n: nat, k: Measure)
    ensures LevelSum(ExecLevel(q, m, sz, px).0, n, k) + Reported(ExecLevel(q, m, sz, px).1, n, k)
            == LevelSum(q, n, k)
  {
    var h := HeadReal(q);
    if h < |q| && Find(q, Real(m)) == h {
      FillBackReport(q[..h], sz, px, n, k);
      LevelSumConcat(FillBack(q[..h], sz, px).0, q[h..], n, k);
      LevelSumConcat(q[..h], q[h..], n, k);
      assert q == q[..h] + q[h..];
    }
  }

  // ----- ladders

  lemma {:induction false} LadderSumUpdate(l: Ladder, p: nat, q: Level, n: nat, k: Measure)
    requires p < |l|
    ensures LadderSum(l[p := q], n, k) == LadderSum(l, n, k) - LevelSum(l[p], n, k) + LevelSum(q, n, k)
  {
    if p == 0 {
      assert l[p := q][1..] == l[1..];
    } else {
      assert l[p := q][1..] == l[1..][p - 1 := q];
      LadderSumUpdate(l[1..], p - 1, q, n, k);
    }
  }

  lemma PutSum(l: Ladder, p: int, q: Level, n: nat, k: Measure)
    requires 0 <= p < |l| || q == At(l, p)
    ensures LadderSum(Put(l, p, q), n, k) == LadderSum(l, n, k) - LevelSum(At(l, p), n, k) + LevelSum(q, n, k)
  {
    if 0 <= p < |l| { LadderSumUpdate(l, p, q, n, k); }
  }

  lemma {:induction false} EmptyLadderSum(l: Ladder, n: nat, k: Measure)
    requires forall i :: 0 <= i < |l| ==> l[i] == []
    ensures LadderSum(l, n, k) == 0
  {
    if l != [] { EmptyLadderSum(l[1..], n, k); }
  }

  lemma SweptNextSum(l: Ladder, lo: int, hi: int, repair: bool, low: bool, n: nat, k: Measure)
    requires lo <= hi
    ensures var at := if low then lo else hi;
            LadderSum(Swept(l, lo, hi, repair), n, k) ==
            LadderSum(SweptBut(l, lo, hi, repair, low), n, k) - LevelSum(At(l, at), n, k)
  {
    var at := if low then lo else hi;
    var m := SweptBut(l, lo, hi, repair, low);
    SweptNext(l, lo, hi, repair, low);
    LevelSumRealPart(At(l, at), n, k);
    if 0 <= at < |l| {
      assert At(m, at) == At(l, at);
      PutSum(m, at, if repair then [] else RealPart(At(l, at)), n, k);
    }
  }

  lemma {:induction false} SweepUpReport(l: Ladder, lo: int, hi: int, repair: bool, n: nat, k: Measure)
    ensures LadderSum(Swept(l, lo, hi, repair), n, k) + Reported(NotesUp(l, lo, hi), n, k) == LadderSum(l, n, k)
    decreases hi - lo
  {
    hide Swept;
    if lo > hi {
      SweptNone(l, lo, hi, repair);
    } else {
      SweepUpReport(l, lo + 1, hi, repair, n, k);
      SweptNextSum(l, lo, hi, repair, true, n, k);
      LevelFillsReport(At(l, lo), lo, n, k);
      ReportedConcat(LevelFills(At(l, lo), lo), NotesUp(l, lo + 1, hi), n, k);
    }
  }

  lemma {:induction false} SweepDownReport(l: Ladder, lo: int, hi: int, repair: bool, n: nat, k: Measure)
    ensures LadderSum(Swept(l, lo, hi, repair), n, k) + Reported(NotesDown(l, lo, hi), n, k) == LadderSum(l, n, k)
    decreases hi - lo
  {
    hide Swept;
    if lo > hi {
      SweptNone(l, lo, hi, repair);
    } else {
      SweepDownReport(l, lo, hi - 1, repair, n, k);
      SweptNextSum(l, lo, hi, repair, false, n, k);
      LevelFillsReport(At(l, hi), hi, n, k);
      ReportedConcat(LevelFills(At(l, hi), hi), NotesDown(l, lo, hi - 1), n, k);
    }
  }

  lemma {:induction false} LadderAcksReport(l: Ladder, n: nat, k: Measure)
    ensures Reported(LadderAcks(l), n, k) == LadderSum(l, n, k)
  {
    if l != [] {
      LadderAcksReport(l[1..], n, k);
      LevelAcksReport(l[0], n, k);
      ReportedConcat(LevelAcks(l[0]), LadderAcks(l[1..]), n, k);
    }
  }

  // ----- operations

  /** Editing one level changes what rests by what the level gains or loses. */
  lemma EditSum(b: Book, s: Side, p: int, q: Level, n: nat, k: Measure)
    requires 0 <= p < |b.Lad(s)| || q == b.Lev(s, p)
    ensures Resting(b.WithLev(s, p, q), n, k) ==
            Resting(b, n, k) - LevelSum(b.Lev(s, p), n, k) + LevelSum(q, n, k)
  {
    PutSum(b.Lad(s), p, q, n, k);
  }

  lemma SweepTotal(c: Config, b: Book, s: Side, px: int, n: nat, k: Measure)
    ensures Total(c, Sweep(c, b, s, px), n, k) == Total(c, b, n, k)
  {
    var (lo, hi) := SweepRange(c, b, s, px);
    var l := b.Lad(Other(s));
    if s.Buy? {
      SweepUpReport(l, lo, hi, c.repair, n, k);
      ReportedConcat(b.notes, NotesUp(l, lo, hi), n, k);
    } else {
      SweepDownReport(l, lo, hi, c.repair, n, k);
      ReportedConcat(b.notes, NotesDown(l, lo, hi), n, k);
    }
  }

  lemma AddRealTotal(c: Config, b: Book, m: nat, x: nat, s: Side, px: int, sz: int, n: nat, k: Measure)
    requires 0 <= px && |b.bids| == c.maxPx + 2 && |b.asks| == c.maxPx + 2
    ensures Total(c, AddReal(c, b, m, x, s, px, sz), n, k) == Total(c, b, n, k)
  {
    hide Sweep, Resting, Reported, Queued, Refused;
    if px < c.maxPx && sz > 0 {
      SweepTotal(c, b, s, px, n, k);
      var b1 := Sweep(c, b, s, px);
      var b2 := MoveInside(c, b1, s, px, Uncrosses(c, b, s, px));
      SameResting(b1, b2, n, k);
      var o := Order(Real(m), x, sz);
      LevelSumConcat(b2.Lev(s, px), [o], n, k);
      EditSum(b2, s, px, b2.Lev(s, px) + [o], n, k);
    }
    SameResting(b, b.(dead := true), n, k);
  }

  lemma SameResting(b: Book, r: Book, n: nat, k: Measure)
    requires r.bids == b.bids && r.asks == b.asks
    ensures Resting(r, n, k) == Resting(b, n, k)
  {}

  lemma CancelRealTotal(c: Config, b: Book, m: nat, s: Side, px: int, n: nat, k: Measure)
    ensures Total(c, CancelReal(c, b, m, s, px), n, k) == Total(c, b, n, k)
  {
    hide Resting, Reported, Queued, Refused;
    var q := b.Lev(s, px);
    if px < c.maxPx && Holds(q, Real(m)) {
      LevelSumRemove(q, Real(m), n, k);
      var b1 := b.WithLev(s, px, Remove(q, Real(m)));
      EditSum(b, s, px, Remove(q, Real(m)), n, k);
      SameResting(b1, Rewalk(c, b1, s, px), n, k);
    }
  }

  lemma ResizeRealTotal(c: Config, b: Book, m: nat, s: Side, px: int, sz: int, n: nat, k: Measure)
    ensures Total(c, ResizeReal(c, b, m, s, px, sz), n, k) == Total(c, b, n, k)
  {
    hide Resting, Reported, Queued, Refused;
    var q := b.Lev(s, px);
    if px < c.maxPx && Holds(q, Real(m)) && sz > 0 {
      LevelSumResize(q, m, sz, n, k);
      var b1 := b.WithLev(s, px, Resize(q, Real(m), sz));
      EditSum(b, s, px, Resize(q, Real(m), sz), n, k);
      SameResting(b1, Rewalk(c, b1, s, px), n, k);
    }
    SameResting(b, b.(dead := true), n, k);
  }

  lemma ExecRealTotal(c: Config, b: Book, m: nat, s: Side, px: int, sz: int, n: nat, k: Measure)
    ensures Total(c, ExecReal(c, b, m, s, px, sz), n, k) == Total(c, b, n, k)
  {
    hide Resting, Reported, Queued, Refused;
    var q := b.Lev(s, px);
    if px < c.maxPx && Holds(q, Real(m)) && sz > 0 {
      var f := ExecLevel(q, m, sz, px);
      ExecLevelReport(q, m, sz, px, n, k);
      EditSum(b, s, px, f.0, n, k);
      var b1 := b.WithLev(s, px, f.0).(notes := b.notes + f.1);
      SameResting(b.WithLev(s, px, f.0), b1, n, k);
      ReportedConcat(b.notes, f.1, n, k);
      SameResting(b1, Rewalk(c, b1, s, px), n, k);
    }
    SameResting(b, b.(dead := true), n, k);
  }

  lemma ClearTotal(c: Config, b: Book, n: nat, k: Measure)
    ensures Total(c, Clear(c, b), n, k) == Total(c, b, n, k)
  {
    LadderAcksReport(b.bids, n, k);
    LadderAcksReport(b.asks, n, k);
    ReportedConcat(b.notes, LadderAcks(b.bids), n, k);
    ReportedConcat(b.notes + LadderAcks(b.bids), LadderAcks(b.asks), n, k);
    EmptyLadderSum(Clear(c, b).bids, n, k);
    EmptyLadderSum(Clear(c, b).asks, n, k);
  }

  lemma RefusedNext(c: Config, a: seq<(SimMsg, nat)>, m: SimMsg, at: nat, n: nat, k: Measure)
    ensures Refused(c, a + [(m, at)], n, k) ==
            Refused(c, a, n, k) + if m.px >= c.maxPx then MsgWeight(m, n, k) else 0
  {
    assert (a + [(m, at)])[..|a|] == a;
  }

  /** A message of ours takes effect: its lots leave the message and appear in the book or the reports. */
  lemma ApplySimTotal(c: Config, b: Book, m: SimMsg, at: nat, n: nat, k: Measure)
    requires !ApplySim(c, b, m, at).dead && |b.bids| == c.maxPx + 2 && |b.asks| == c.maxPx + 2
    ensures Total(c, ApplySim(c, b, m, at), n, k) == Total(c, b, n, k) + MsgWeight(m, n, k)
  {
    hide Resting, Reported, Queued, Refused;
    RefusedNext(c, b.applied, m, at, n, k);
    var b1 := b.(applied := b.applied + [(m, at)]);
    SameResting(b, b1, n, k);
    if m.px < c.maxPx {
      if m.SimAdd? { AddSimTotal(c, b1, m.n, m.side, m.px, m.sz, n, k); }
      else { CancelSimTotal(c, b1, m.n, m.side, m.px, n, k); }
    }
  }

  lemma AddSimTotal(c: Config, b: Book, m: nat, s: Side, px: nat, sz: int, n: nat, k: Measure)
    requires px < c.maxPx && !AddSim(c, b, m, s, px, sz).dead
    requires |b.bids| == c.maxPx + 2 && |b.asks| == c.maxPx + 2
    ensures Total(c, AddSim(c, b, m, s, px, sz), n, k) ==
            Total(c, b, n, k) + if m != n then 0 else if k.Lots? then sz else 1
  {
    hide Resting, Reported, Queued, Refused;
    var f := Fill(m, sz, 0, if s.Buy? then b.bestAsk else b.bestBid);
    ReportedConcat(b.notes, [f], n, k);
    ReportedOne(f, n, k);
    SameResting(b, b.(notes := b.notes + [f]), n, k);
    var o := Order(Sim(m), 0, sz);
    LevelSumConcat(b.Lev(s, px), [o], n, k);
    EditSum(b, s, px, b.Lev(s, px) + [o], n, k);
  }

  lemma CancelSimTotal(c: Config, b: Book, m: nat, s: Side, px: nat, n: nat, k: Measure)
    ensures Total(c, CancelSim(c, b, m, s, px), n, k) == Total(c, b, n, k)
  {
    hide Resting, Reported, Queued, Refused;
    var q := b.Lev(s, px);
    var i := Find(q, Sim(m));
    if px < c.maxPx {
      var t := if i < |q| then CancAck(m, q[i].sz) else CancReject(m);
      ReportedConcat(b.notes, [t], n, k);
      ReportedOne(t, n, k);
      if i < |q| {
        LevelSumRemove(q, Sim(m), n, k);
        EditSum(b, s, px, Remove(q, Sim(m)), n, k);
        var b1 := b.WithLev(s, px, Remove(q, Sim(m)));
        SameResting(b1, b1.(notes := b.notes + [t]), n, k);
      } else {
        SameResting(b, b.(notes := b.notes + [t]), n, k);
      }
    }
  }

  ghost predicate Sized(c: Config, b: Book) { |b.bids| == c.maxPx + 2 && |b.asks| == c.maxPx + 2 }

  lemma {:induction false} DrainTotal(c: Config, b: Book, tim: nat, n: nat, k: Measure)
    requires Sized(c, b) && !Drain(c, b, tim).dead
    ensures Total(c, Drain(c, b, tim), n, k) == Total(c, b, n, k) && Sized(c, Drain(c, b, tim))
    decreases |b.delQ|
  {
    hide Resting, Reported, Refused, ApplySim;
    if !(b.dead || b.delQ == [] || Due(c, b.delQ[0]) >= tim) {
      var b0 := b.(delQ := b.delQ[1..]);
      var b1 := ApplySim(c, b0, b.delQ[0], tim);
      SameResting(b, b0, n, k);
      AppliedSized(c, b0, b.delQ[0], tim);
      ApplySimTotal(c, b0, b.delQ[0], tim, n, k);
      DrainTotal(c, b1, tim, n, k);
    }
  }

  lemma AppliedSized(c: Config, b: Book, m: SimMsg, at: nat)
    ensures |ApplySim(c, b, m, at).bids| == |b.bids| && |ApplySim(c, b, m, at).asks| == |b.asks|
  {}

  lemma PayloadTotal(c: Config, b: Book, p: Payload, n: nat, k: Measure)
    requires Sized(c, b) && p.px > 0
    ensures Total(c, ApplyPayload(c, b, p), n, k) == Total(c, b, n, k)
  {
    hide Total, AddReal, CancelReal, ResizeReal, ExecReal;
    match p
    case PAdd(m, x, s, px, sz) => AddRealTotal(c, b, m, x, s, px, sz, n, k);
    case PCancel(m, s, px) => CancelRealTotal(c, b, m, s, px, n, k);
    case PResize(m, s, px, sz) => ResizeRealTotal(c, b, m, s, px, sz, n, k);
    case PExec(m, s, px, sz) => ExecRealTotal(c, b, m, s, px, sz, n, k);
  }

  lemma ProcessTotal(c: Config, b: Book, p: Payload, tim: nat, n: nat, k: Measure)
    requires Sized(c, b) && !Process(c, b, p, tim).dead
    ensures Total(c, Process(c, b, p, tim), n, k) == Total(c, b, n, k) && Sized(c, Process(c, b, p, tim))
  {
    hide ApplyPayload, Resting, Reported, Refused, Queued;
    if !(b.dead || p.px <= 0) {
      DrainTotal(c, b, tim, n, k);
      var d := Drain(c, b, tim);
      var d1 := d.(boundary := Max(d.boundary, tim));
      SameResting(d, d1, n, k);
      PayloadTotal(c, d1, p, n, k);
    }
  }

  lemma SameTotal(c: Config, b: Book, r: Book, n: nat, k: Measure)
    requires r.bids == b.bids && r.asks == b.asks && r.notes == b.notes
    requires r.delQ == b.delQ && r.applied == b.applied
    ensures Total(c, r, n, k) == Total(c, b, n, k) && (Sized(c, b) ==> Sized(c, r))
  {
    hide Reported, Refused, Queued, LadderSum;
  }

  lemma ReplaceTotal(c: Config, b: Book, e: Event, n: nat, k: Measure)
    requires e.Record? && Sized(c, b) && e.xoid in b.orders && Replaces(b.orders[e.xoid], e)
    requires !OnChange(c, b, e).dead
    ensures Total(c, OnChange(c, b, e), n, k) == Total(c, b, n, k) && Sized(c, OnChange(c, b, e))
  {
    hide Process, Total, Sized;
    var o := b.orders[e.xoid];
    var px := if e.side.Some? then e.px else o.px;
    var b1 := Process(c, b, PCancel(o.id, o.side, o.px), e.tim);
    var i1 := b1.(nextId := b1.nextId + 1);
    var p2 := PAdd(b1.nextId, e.xoid, o.side, px, e.qty);
    var b2 := Process(c, i1, p2, e.tim);
    assert !b1.dead by { ProcessStaysDead(c, i1, p2, e.tim); }
    ProcessTotal(c, b, PCancel(o.id, o.side, o.px), e.tim, n, k);
    SameTotal(c, b1, i1, n, k);
    ProcessTotal(c, i1, p2, e.tim, n, k);
    SameTotal(c, b2, OnChange(c, b, e), n, k);
  }

  lemma ChangeTotal(c: Config, b: Book, e: Event, n: nat, k: Measure)
    requires e.Record? && Sized(c, b) && !OnChange(c, b, e).dead
    ensures Total(c, OnChange(c, b, e), n, k) == Total(c, b, n, k) && Sized(c, OnChange(c, b, e))
  {
    hide Process, Total, Sized;
    if e.xoid in b.orders {
      var o := b.orders[e.xoid];
      if Replaces(o, e) {
        ReplaceTotal(c, b, e, n, k);
      } else {
        var b1 := b.(orders := b.orders[e.xoid := o.(sz := e.qty)]);
        SameTotal(c, b, b1, n, k);
        ProcessTotal(c, b1, PResize(o.id, o.side, o.px, e.qty), e.tim, n, k);
      }
    }
  }

  lemma NewTotal(c: Config, b: Book, e: Event, n: nat, k: Measure)
    requires e.Record? && Sized(c, b) && !OnNew(c, b, e).dead
    ensures Total(c, OnNew(c, b, e), n, k) == Total(c, b, n, k) && Sized(c, OnNew(c, b, e))
  {
    hide Process, Total, Sized;
    if e.xoid in b.orders {
      SameTotal(c, b, OnNew(c, b, e), n, k);
    } else {
      var b1 := b.(orders := b.orders[e.xoid := Info(b.nextId, e.px, e.qty, e.side.value)],
                   nextId := b.nextId + 1);
      SameTotal(c, b, b1, n, k);
      ProcessTotal(c, b1, PAdd(b.nextId, e.xoid, e.side.value, e.px, e.qty), e.tim, n, k);
    }
  }

  lemma DeleteTotal(c: Config, b: Book, e: Event, n: nat, k: Measure)
    requires e.Record? && Sized(c, b) && !OnDelete(c, b, e).dead
    ensures Total(c, OnDelete(c, b, e), n, k) == Total(c, b, n, k) && Sized(c, OnDelete(c, b, e))
  {
    hide Process, Total, Sized;
    if e.xoid in b.orders {
      var o := b.orders[e.xoid];
      ProcessTotal(c, b, PCancel(o.id, o.side, o.px), e.tim, n, k);
      SameTotal(c, Process(c, b, PCancel(o.id, o.side, o.px), e.tim), OnDelete(c, b, e), n, k);
    }
  }

  lemma RecordTotal(c: Config, b: Book, e: Event, n: nat, k: Measure)
    requires e.Record? && Sized(c, b) && !OnRecord(c, b, e).dead
    ensures Total(c, OnRecord(c, b, e), n, k) == Total(c, b, n, k) && Sized(c, OnRecord(c, b, e))
  {
    hide OnNew, OnChange, OnDelete, Clear, Total, Sized;
    if OnLadder(c, e.px) || !e.action.New? {
      var b1 := Recover(c, b, e.recovery);
      if e.recovery && !b.inRecovery {
        ClearTotal(c, b, n, k);
        ClearSized(c, b);
        SameTotal(c, Clear(c, b), b1, n, k);
      } else {
        SameTotal(c, b, b1, n, k);
      }
      if e.action.New? { NewTotal(c, b1, e, n, k); }
      else if e.action.Change? && OnLadder(c, e.px) { ChangeTotal(c, b1, e, n, k); }
      else { DeleteTotal(c, b1, e, n, k); }
    }
  }

  lemma ClearSized(c: Config, b: Book)
    requires Sized(c, b)
    ensures Sized(c, Clear(c, b))
  {}

  /** One event: only a message of ours adds to the total, and by what it orders. */
  lemma StepTotal(c: Config, b: Book, e: Event, n: nat, k: Measure)
    requires Sized(c, b) && !Step(c, b, e).dead
    ensures Total(c, Step(c, b, e), n, k) ==
            Total(c, b, n, k) + (if e.FromUs? then MsgWeight(e.msg, n, k) else 0)
    ensures Sized(c, Step(c, b, e))
  {
    hide OnRecord, Process, Clear, ApplySim, Resting, Reported, Refused, MsgWeight;
    match e
    case Record(_, _, _, _, _, _, _) => RecordTotal(c, b, e, n, k);
    case Exec(m, s, px, sz, tim) => ProcessTotal(c, b, PExec(m, s, px, sz), tim, n, k);
    case ChannelReset => ClearTotal(c, b, n, k); ClearSized(c, b);
    case Status(on) => SameTotal(c, b, b.(matching := on), n, k);
    case FromUs(m) =>
      if m.ts0 == 0 {
        AppliedSized(c, b, m, 0);
        ApplySimTotal(c, b, m, 0, n, k);
      } else {
        QueuedNext(b.delQ, m, n, k);
        SameResting(b, b.(delQ := b.delQ + [m]), n, k);
      }
  }

  lemma {:induction false} QueuedNext(q: seq<SimMsg>, m: SimMsg, n: nat, k: Measure)
    ensures Queued(q + [m], n, k) == Queued(q, n, k) + MsgWeight(m, n, k)
  {
    if q == [] {
      assert ([] + [m])[1..] == [];
    } else {
      assert (q + [m])[1..] == q[1..] + [m];
      QueuedNext(q[1..], m, n, k);
    }
  }

  lemma {:induction false} RunTotal(c: Config, es: seq<Event>, n: nat, k: Measure)
    requires c.maxPx >= 0 && !Run(c, Init(c), es).dead
    ensures Total(c, Run(c, Init(c), es), n, k) == Ordered(es, n, k)
    ensures Sized(c, Run(c, Init(c), es))
  {
    hide Step, Total, Sized;
    if es == [] {
      InitTotal(c, n, k);
    } else {
      var b1 := Run(c, Init(c), es[..|es| - 1]);
      var e := es[|es| - 1];
      assert !b1.dead by { StepStaysDead(c, b1, e); }
      RunTotal(c, es[..|es| - 1], n, k);
      StepTotal(c, b1, e, n, k);
    }
  }

  lemma InitTotal(c: Config, n: nat, k: Measure)
    requires c.maxPx >= 0
    ensures Total(c, Init(c), n, k) == 0 && Sized(c, Init(c))
  {
    EmptyLadderSum(Init(c).bids, n, k);
  }

  function Filled(ts: seq<Note>, n: nat): int {
    if ts == [] then 0
    else
      var t := ts[|ts| - 1];
      Filled(ts[..|ts| - 1], n) + if t.Fill? && t.n == n then t.sz else 0
  }

  function Cancelled(ts: seq<Note>, n: nat): int {
    if ts == [] then 0
    else
      var t := ts[|ts| - 1];
      Cancelled(ts[..|ts| - 1], n) + if t.CancAck? && t.n == n then t.sz else 0
  }

  lemma {:induction false} ReportedSplits(ts: seq<Note>, n: nat)
    ensures Reported(ts, n, Lots) == Filled(ts, n) + Cancelled(ts, n)
  {
    if ts != [] { ReportedSplits(ts[..|ts| - 1], n); }
  }

  /** Every lot of every order of ours, over every run. */
  lemma LotsConserved(c: Config, es: seq<Event>, n: nat)
    requires c.maxPx >= 0 && !Run(c, Init(c), es).dead
    ensures var b := Run(c, Init(c), es);
            Ordered(es, n, Lots) ==
            Filled(b.notes, n) + Cancelled(b.notes, n) + Resting(b, n, Lots) + Queued(b.delQ, n, Lots)
            + Refused(c, b.applied, n, Lots)
  {
    hide Run, Resting, Reported, Queued, Refused, Ordered;
    RunTotal(c, es, n, Lots);
    ReportedSplits(Run(c, Init(c), es).notes, n);
  }

  // ----- an order ends at most once

  lemma {:induction false} LevelHeads(q: Level, n: nat)
    ensures LevelSum(q, n, Heads) >= 0
    ensures Holds(q, Sim(n)) <==> LevelSum(q, n, Heads) > 0
  {
    if q != [] { LevelHeads(q[1..], n); }
  }

  lemma {:induction false} LadderHeads(l: Ladder, n: nat, p: int)
    ensures LadderSum(l, n, Heads) >= LevelSum(At(l, p), n, Heads) >= 0
  {
    LevelHeads(At(l, p), n);
    if l != [] {
      LevelHeads(l[0], n);
      assert p > 0 ==> At(l, p) == At(l[1..], p - 1);
      LadderHeads(l[1..], n, p - 1);
      LevelHeads(At(l[1..], p - 1), n);
    }
  }

  lemma RestingHeads(b: Book, n: nat, s: Side, p: int)
    ensures Resting(b, n, Heads) >= 0
    ensures Holds(b.Lev(s, p), Sim(n)) ==> Resting(b, n, Heads) > 0
  {
    LadderHeads(b.bids, n, p);
    LadderHeads(b.asks, n, p);
    LevelHeads(b.Lev(s, p), n);
  }

  lemma {:induction false} QueuedHeads(q: seq<SimMsg>, n: nat)
    ensures Queued(q, n, Heads) >= 0
  {
    if q != [] { QueuedHeads(q[1..], n); }
  }

  lemma {:induction false} RefusedHeads(c: Config, a: seq<(SimMsg, nat)>, n: nat)
    ensures Refused(c, a, n, Heads) >= 0
  {
    if a != [] { RefusedHeads(c, a[..|a| - 1], n); }
  }

  lemma {:induction false} ReportedHeads(ts: seq<Note>, n: nat)
    ensures Reported(ts, n, Heads) >= 0
  {
    if ts != [] { ReportedHeads(ts[..|ts| - 1], n); }
  }

  /** Of an id ordered once, at most one final report exists, and none while it rests or waits. */
  lemma EndsOnce(c: Config, es: seq<Event>, n: nat)
    requires c.maxPx >= 0 && !Run(c, Init(c), es).dead && Ordered(es, n, Heads) <= 1
    ensures var b := Run(c, Init(c), es);
            && 0 <= Reported(b.notes, n, Heads) <= 1
            && (Reported(b.notes, n, Heads) == 1 ==>
                  Resting(b, n, Heads) == 0 && Queued(b.delQ, n, Heads) == 0)
  {
    hide Run, Resting, Reported, Queued, Refused, Ordered;
    var b := Run(c, Init(c), es);
    RunTotal(c, es, n, Heads);
    RestingHeads(b, n, Buy, 0);
    QueuedHeads(b.delQ, n);
    RefusedHeads(c, b.applied, n);
    ReportedHeads(b.notes, n);
  }

  /** A cancel of an order that has ended, on any book that accounts for it once: one reject, nothing else. */
  lemma EndedCancelRejected(c: Config, b: Book, n: nat, s: Side, px: nat, ts0: nat, at: nat)
    requires Total(c, b, n, Heads) <= 1 && Reported(b.notes, n, Heads) == 1 && px < c.maxPx
    ensures var m := SimCancel(n, s, px, ts0);
            ApplySim(c, b, m, at) ==
            b.(notes := b.notes + [CancReject(n)], applied := b.applied + [(m, at)])
  {
    hide Resting, Reported, Queued, Refused;
    RestingHeads(b, n, s, px);
    QueuedHeads(b.delQ, n);
    RefusedHeads(c, b.applied, n);
  }

  lemma {:induction false} ScannedTotal(c: Config, b: Book, tim: nat, j: nat, n: nat, k: Measure)
    requires Sized(c, b) && !Drain(c, b, tim).dead && j <= Ripe(c, b.delQ, tim)
    ensures Total(c, Scanned(c, b, tim, j), n, k) == Total(c, b, n, k) && Sized(c, Scanned(c, b, tim, j))
  {
    hide Resting, Reported, Refused, ApplySim, Drain, Ripe;
    DrainScans(c, b, tim, j);
    if j > 0 {
      ScannedTotal(c, b, tim, j - 1, n, k);
      var v, m := Scanned(c, b, tim, j - 1), b.delQ[j - 1];
      var v0 := v.(delQ := b.delQ[j..]);
      assert v.delQ == [m] + b.delQ[j..];
      SameResting(v, v0, n, k);
      AppliedSized(c, v0, m, tim);
      ApplySimTotal(c, v0, m, tim, n, k);
    }
  }

  /**
    A timed cancel takes effect in the middle of a scan: whichever it is of the messages a record
    releases after any run, if its order has ended by then it is answered by one cancel-reject and
    the book is otherwise as the message before left it, whatever side and ladder price it names.
   */
  lemma LateCancelRejected(c: Config, es: seq<Event>, tim: nat, i: nat)
    requires var b := Run(c, Init(c), es);
             && c.maxPx >= 0 && !b.dead && !Drain(c, b, tim).dead
             && i < Ripe(c, b.delQ, tim) && b.delQ[i].SimCancel? && b.delQ[i].px < c.maxPx
             && Ordered(es, b.delQ[i].n, Heads) <= 1
             && Reported(Scanned(c, b, tim, i).notes, b.delQ[i].n, Heads) == 1
    ensures var b := Run(c, Init(c), es);
            var v, m := Scanned(c, b, tim, i), b.delQ[i];
            Scanned(c, b, tim, i + 1) ==
            v.(delQ := v.delQ[1..], notes := v.notes + [CancReject(m.n)], applied := v.applied + [(m, tim)])
  {
    hide Run, Resting, Reported, Queued, Refused, Ordered, Drain, Ripe, ApplySim;
    var b := Run(c, Init(c), es);
    var v, m := Scanned(c, b, tim, i), b.delQ[i];
    RunTotal(c, es, m.n, Heads);
    ScannedTotal(c, b, tim, i, m.n, Heads);
    var v0 := v.(delQ := b.delQ[i + 1..]);
    assert v.delQ == [m] + b.delQ[i + 1..];
    PoppedCancel(c, v, v0, m);
    EndedCancelRejected(c, v0, m.n, m.side, m.px, m.ts0, tim);
  }

  /** Taking a cancel off the queue changes no order's total. */
  lemma PoppedCancel(c: Config, v: Book, v0: Book, m: SimMsg)
    requires m.SimCancel? && v.delQ == [m] + v0.delQ && v0 == v.(delQ := v0.delQ)
    ensures Total(c, v0, m.n, Heads) == Total(c, v, m.n, Heads)
  {
    hide Resting, Reported, Refused;
    SameResting(v, v0, m.n, Heads);
    assert v.delQ[1..] == v0.delQ;
  }
}
