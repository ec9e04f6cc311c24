/**
  Orders and the first-in first-out queue of one price level (OrderQ).

  An order's identity says whether it is ours: `issim()` in the program tests the
  exchange code packed into the id, which is the constructor of `OrderId` here.
  A level is the sequence of its orders, head first.
 */
module Levels {

  datatype Side = Buy | Sell

  datatype OrderId = Real(n: nat) | Sim(n: nat)

  datatype Order = Order(id: OrderId, xoid: nat, sz: int) {
    predicate IsSim() { id.Sim? }
  }

  type Level = seq<Order>
  type Ladder = seq<Level>

  /** What the book tells the owner of a sim order. */
  datatype Note =
    | Fill(n: nat, sz: int, left: int, px: int)
    | CancAck(n: nat, sz: int)
    | CancReject(n: nat)

  // ----- queries on one level

  predicate HasReal(q: Level) {
    exists i :: 0 <= i < |q| && !q[i].IsSim()
  }

  /** The real orders of a level, in queue order. */
  function RealPart(q: Level): (r: Level)
    ensures |r| <= |q|
  {
    if q == [] then []
    else if q[0].IsSim() then RealPart(q[1..])
    else [q[0]] + RealPart(q[1..])
  }

  /** Position of the first order carrying `id`, or the length of the queue. */
  function Find(q: Level, id: OrderId): (i: nat)
    ensures i <= |q|
    ensures i < |q| ==> q[i].id == id
    ensures forall j :: 0 <= j < i ==> q[j].id != id
  {
    if q == [] then 0 else if q[0].id == id then 0 else
      var k := Find(q[1..], id);
      assert forall j :: 1 <= j < 1 + k ==> q[j] == q[1..][j - 1];
      1 + k
  }

  predicate Holds(q: Level, id: OrderId) { Find(q, id) < |q| }

  /** Position of the first real order (get_head_no_sim), or the length of the queue. */
  function HeadReal(q: Level): (i: nat)
    ensures i <= |q|
    ensures i < |q| ==> !q[i].IsSim()
    ensures forall j :: 0 <= j < i ==> q[j].IsSim()
  {
    if q == [] then 0 else if !q[0].IsSim() then 0 else
      var k := HeadReal(q[1..]);
      assert forall j :: 1 <= j < 1 + k ==> q[j] == q[1..][j - 1];
      1 + k
  }

  function RealSize(q: Level): int {
    if q == [] then 0 else (if q[0].IsSim() then 0 else q[0].sz) + RealSize(q[1..])
  }

  function SimSize(q: Level): int {
    if q == [] then 0 else (if q[0].IsSim() then q[0].sz else 0) + SimSize(q[1..])
  }

  // ----- updates of one level

  /** Unlink the first order carrying `id`. */
  function Remove(q: Level, id: OrderId): Level {
    if q == [] then [] else if q[0].id == id then q[1..] else [q[0]] + Remove(q[1..], id)
  }

  /** Set the size of the first order carrying `id`; its place does not change. */
  function Resize(q: Level, id: OrderId, sz: int): Level {
    if q == [] then []
    else if q[0].id == id then [q[0].(sz := sz)] + q[1..]
    else [q[0]] + Resize(q[1..], id, sz)
  }

  /** Fill sim orders from the back of `q` towards the front, `sz` lots in all (OB::fill). */
  function FillBack(q: Level, sz: int, px: int): (r: (Level, seq<Note>))
    ensures |r.0| <= |q|
  {
    if q == [] || sz <= 0 || !q[|q| - 1].IsSim() then (q, [])
    else
      var last := q[|q| - 1];
      var front := q[..|q| - 1];
      if last.sz <= sz then
        var rest := FillBack(front, sz - last.sz, px);
        (rest.0, [Fill(last.id.n, last.sz, 0, px)] + rest.1)
      else
        (front + [last.(sz := last.sz - sz)], [Fill(last.id.n, sz, last.sz - sz, px)])
  }

  /** The fills of a sweep over one level: every sim order, head first, in full. */
  function LevelFills(q: Level, px: int): seq<Note> {
    if q == [] then []
    else (if q[0].IsSim() then [Fill(q[0].id.n, q[0].sz, 0, px)] else []) + LevelFills(q[1..], px)
  }

  /** Position of the sim order with the least id, or the length of the queue. */
  function LeastSim(q: Level): (i: nat)
    ensures i <= |q|
    ensures i < |q| ==> q[i].IsSim() && forall j :: 0 <= j < |q| && q[j].IsSim() ==> q[i].id.n <= q[j].id.n
    ensures i == |q| ==> forall j :: 0 <= j < |q| ==> !q[j].IsSim()
  {
    if q == [] then 0
    else
      var t := q[1..];
      var k := LeastSim(t);
      assert forall j :: 1 <= j < |q| ==> q[j] == t[j - 1];
      if q[0].IsSim() && (k == |t| || q[0].id.n <= t[k].id.n) then 0 else k + 1
  }

  function Without(q: Level, i: nat): (r: Level)
    requires i < |q|
    ensures |r| == |q| - 1
  {
    q[..i] + q[i + 1..]
  }

  /** The acknowledgements of clearing one level, lowest id first: only sim orders have an originator. */
  function LevelAcks(q: Level): seq<Note>
    decreases |q|
  {
    var i := LeastSim(q);
    if i == |q| then [] else [CancAck(q[i].id.n, q[i].sz)] + LevelAcks(Without(q, i))
  }

  // ----- ladders

  function At(l: Ladder, p: int): Level {
    if 0 <= p < |l| then l[p] else []
  }

  function Put(l: Ladder, p: int, q: Level): (r: Ladder)
    ensures |r| == |l|
    ensures forall k :: At(r, k) == if k == p && 0 <= p < |l| then q else At(l, k)
  {
    if 0 <= p < |l| then l[p := q] else l
  }

  /** Every level of lo..hi loses its sim orders, and with `repair` its real ones as well. */
  function Swept(l: Ladder, lo: int, hi: int, repair: bool): (r: Ladder)
    ensures |r| == |l|
    ensures forall k :: At(r, k) ==
                        if lo <= k <= hi then (if repair then [] else RealPart(At(l, k))) else At(l, k)
  {
    seq(|l|, i requires 0 <= i < |l| =>
      if lo <= i <= hi then (if repair then [] else RealPart(l[i])) else l[i])
  }

  function NotesUp(l: Ladder, lo: int, hi: int): seq<Note>
    decreases hi - lo
  {
    if lo > hi then [] else LevelFills(At(l, lo), lo) + NotesUp(l, lo + 1, hi)
  }

  function NotesDown(l: Ladder, lo: int, hi: int): seq<Note>
    decreases hi - lo
  {
    if lo > hi then [] else LevelFills(At(l, hi), hi) + NotesDown(l, lo, hi - 1)
  }

  /** Levels without orders. */
  function Blank(n: nat): (l: Ladder)
    ensures |l| == n && forall p :: At(l, p) == []
  {
    seq(n, _ => [])
  }

  function LadderAcks(l: Ladder): seq<Note> {
    if l == [] then [] else LevelAcks(l[0]) + LadderAcks(l[1..])
  }

  predicate AnyReal(l: Ladder, lo: int, hi: int) {
    exists p :: lo <= p <= hi && HasReal(At(l, p))
  }

  /** Walk an inside price down to the first level holding a real order, stopping at 1. */
  function WalkDown(l: Ladder, p: int): (r: int)
    decreases p
    ensures r <= p && (p >= 1 ==> r >= 1) && (p < 1 ==> r == p)
    ensures forall k :: r < k <= p ==> !HasReal(At(l, k))
    ensures HasReal(At(l, r)) || r <= 1
  {
    if p <= 1 || HasReal(At(l, p)) then p else WalkDown(l, p - 1)
  }

  /** Walk an inside price up to the first level holding a real order, stopping at `stop`. */
  function WalkUp(l: Ladder, p: int, stop: int): (r: int)
    decreases stop - p
    ensures p <= r && (p <= stop ==> r <= stop) && (p > stop ==> r == p)
    ensures forall k :: p <= k < r ==> !HasReal(At(l, k))
    ensures HasReal(At(l, r)) || r >= stop
  {
    if p >= stop || HasReal(At(l, p)) then p else WalkUp(l, p + 1, stop)
  }

  // ----- facts about one level

  lemma {:induction false} RealPartConcat(a: Level, b: Level)
    ensures RealPart(a + b) == RealPart(a) + RealPart(b)
  {
    if a == [] {
      assert a + b == b;
    } else {
      assert (a + b)[1..] == a[1..] + b;
      RealPartConcat(a[1..], b);
    }
  }

  lemma {:induction false} RealPartMembers(q: Level)
    ensures forall o :: o in RealPart(q) <==> o in q && !o.IsSim()
  {
    if q != [] {
      RealPartMembers(q[1..]);
      assert q == [q[0]] + q[1..];
    }
  }

  lemma {:induction false} RealPartIdem(q: Level)
    ensures RealPart(RealPart(q)) == RealPart(q)
  {
    if q != [] {
      RealPartIdem(q[1..]);
      if !q[0].IsSim() { assert RealPart(q)[1..] == RealPart(q[1..]); }
    }
  }

  lemma RealPartHasReal(q: Level)
    ensures HasReal(q) <==> RealPart(q) != []
    ensures HasReal(RealPart(q)) <==> HasReal(q)
  {
    RealPartMembers(q);
    if HasReal(q) {
      var i :| 0 <= i < |q| && !q[i].IsSim();
      assert q[i] in RealPart(q);
      assert RealPart(q)[0] in RealPart(q);
    }
    if RealPart(q) != [] { assert RealPart(q)[0] in q; }
  }

  lemma {:induction false} RemoveSlices(q: Level, id: OrderId)
    requires Holds(q, id)
    ensures var i := Find(q, id); Remove(q, id) == q[..i] + q[i + 1..]
  {
    if q[0].id != id {
      RemoveSlices(q[1..], id);
      var i := Find(q[1..], id);
      assert q[..i + 1] == [q[0]] + q[1..][..i];
      assert q[1..][i + 1..] == q[i + 2..];
    }
  }

  lemma {:induction false} RemoveAbsent(q: Level, id: OrderId)
    requires !Holds(q, id)
    ensures Remove(q, id) == q
  {
    if q != [] { RemoveAbsent(q[1..], id); }
  }

  lemma {:induction false} ResizeUpdates(q: Level, id: OrderId, sz: int)
    requires Holds(q, id)
    ensures var i := Find(q, id); Resize(q, id, sz) == q[..i] + [q[i].(sz := sz)] + q[i + 1..]
  {
    if q[0].id != id {
      var t := q[1..];
      ResizeUpdates(t, id, sz);
      var i := Find(t, id);
      var mid, back := [t[i].(sz := sz)], t[i + 1..];
      assert q[..i + 1] == [q[0]] + t[..i] && back == q[i + 2..] && q[i + 1] == t[i];
      assert [q[0]] + (t[..i] + mid + back) == [q[0]] + t[..i] + mid + back;
    }
  }

  /** Clearing acknowledges one sim order after another by rising id, each one that rested. */
  lemma {:induction false} AcksById(q: Level)
    ensures forall t :: t in LevelAcks(q) ==> t.CancAck? && Order(Sim(t.n), 0, t.sz) in Plain(q)
    ensures forall i, j :: 0 <= i < j < |LevelAcks(q)| ==> LevelAcks(q)[i].n <= LevelAcks(q)[j].n
    decreases |q|
  {
    var i := LeastSim(q);
    if i < |q| {
      AcksById(Without(q, i));
      PlainWithout(q, i);
      assert Plain(q)[i] == Order(Sim(q[i].id.n), 0, q[i].sz);
      var ts := LevelAcks(Without(q, i));
      forall t | t in ts ensures q[i].id.n <= t.n {
        assert Order(Sim(t.n), 0, t.sz) in Plain(q);
        var j :| 0 <= j < |q| && Plain(q)[j] == Order(Sim(t.n), 0, t.sz);
      }
    }
  }

  /** The orders of a level without their exchange ids. */
  function Plain(q: Level): Level { seq(|q|, i requires 0 <= i < |q| => q[i].(xoid := 0)) }

  lemma PlainWithout(q: Level, i: nat)
    requires i < |q|
    ensures forall o :: o in Plain(Without(q, i)) ==> o in Plain(q)
  {
    var r := Without(q, i);
    forall o | o in Plain(r) ensures o in Plain(q) {
      var j :| 0 <= j < |r| && Plain(r)[j] == o;
      assert Plain(q)[if j < i then j else j + 1] == o;
    }
  }

  // ----- facts about ladders

  /** The sweep of one level less: without the lowest, or without the highest. */
  function SweptBut(l: Ladder, lo: int, hi: int, repair: bool, low: bool): Ladder {
    if low then Swept(l, lo + 1, hi, repair) else Swept(l, lo, hi - 1, repair)
  }

  lemma SweptNext(l: Ladder, lo: int, hi: int, repair: bool, low: bool)
    requires lo <= hi
    ensures var at := if low then lo else hi;
            Swept(l, lo, hi, repair) ==
            Put(SweptBut(l, lo, hi, repair, low), at, if repair then [] else RealPart(At(l, at)))
  {
    var at := if low then lo else hi;
    var r := Put(SweptBut(l, lo, hi, repair, low), at, if repair then [] else RealPart(At(l, at)));
    forall i | 0 <= i < |l| ensures Swept(l, lo, hi, repair)[i] == r[i] {
      assert At(Swept(l, lo, hi, repair), i) == At(r, i);
    }
  }

  lemma SweptNone(l: Ladder, lo: int, hi: int, repair: bool)
    requires lo > hi
    ensures Swept(l, lo, hi, repair) == l
  {
    forall i | 0 <= i < |l| ensures Swept(l, lo, hi, repair)[i] == l[i] {
      assert At(Swept(l, lo, hi, repair), i) == At(l, i);
    }
  }
}
