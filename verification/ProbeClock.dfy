/**
  What an alarm of the market clock does: which session it measures, whether it closes the open
  window, and whether it opens one.
 */
module ProbeClock {
  import opened Probe
  import opened ProbeTheorems

  /** The event reaches an enabled probe. */
  predicate Running(c: Config, p: Probe) { !p.dead && !p.stopped && Enabled(c, p) }

  // ----- the session

  /** `r` measures session `k`, which is the one of `p` or a later one of the list. */
  predicate Measures(c: Config, p: Probe, r: Probe, k: nat) {
    && r.session == k
    && if k == p.session then r.start == p.start && r.end == p.end
       else p.session < k < |c.sessions| && (r.start, r.end) == c.sessions[k]
  }

  lemma {:induction false} WalkStops(c: Config, p: Probe, now: nat)
    ensures var r := NextSession(c, p, now);
            && Measures(c, p, r, r.session) && r.bid == p.bid && r.ask == p.ask
            && (p.open || now < p.end ==> r == p)
            && (!p.open && now >= p.end ==>
                  && (now < r.end || r.session + 1 >= |c.sessions|)
                  && forall j :: p.session < j < r.session ==> now >= c.sessions[j].1)
    decreases |c.sessions| - p.session
  {
    if !p.open && now >= p.end && p.session + 1 < |c.sessions| {
      var k := p.session + 1;
      WalkStops(c, p.(session := k, start := c.sessions[k].0, end := c.sessions[k].1), now);
    }
  }

  /**
    The session after an alarm. With a window open, or before the end of the current session, it is the
    current one; otherwise it is the first session from the current one on that has not ended by then, or
    the last of the list when all have.
   */
  lemma AlarmSession(c: Config, p: Probe, now: nat)
    requires Running(c, p) && now != 0
    ensures var r := Step(c, p, Alarm(now));
            && Measures(c, p, r, r.session)
            && (p.open || now < p.end ==> r.session == p.session)
            && (!p.open && now >= p.end ==>
                  && (now < r.end || r.session + 1 >= |c.sessions|)
                  && forall j :: p.session < j < r.session ==> now >= c.sessions[j].1)
  {
    hide NextSession, Tick;
    var p1 := p.(lastTim := now);
    WalkStops(c, p1, now);
    TickSession(c, NextSession(c, p1, now), now);
  }

  /** The session, touch, clock, streams and totals are those of `p`. */
  ghost predicate SameCounts(p: Probe, r: Probe) {
    && r.session == p.session && r.start == p.start && r.end == p.end && r.bid == p.bid && r.ask == p.ask
    && r.lastTim == p.lastTim && r.hits == p.hits && r.takes == p.takes && r.stopped == p.stopped
    && r.inv.position == p.inv.position
    && forall s: Side :: r.D(s).filled == p.D(s).filled && r.D(s).lights == p.D(s).lights
                         && r.D(s).excluded == p.D(s).excluded
  }

  lemma TickSession(c: Config, p: Probe, now: nat)
    requires c.parent > 0
    ensures SameCounts(p, Tick(c, p, now))
  {
    hide OpenWindow, CloseWindow;
    OpenCounts(c, p, now);
    CloseCounts(c, p, now);
    OpenCounts(c, CloseWindow(c, p, now), now);
  }

  lemma OpenCounts(c: Config, p: Probe, now: nat)
    requires c.parent > 0
    ensures SameCounts(p, OpenWindow(c, p, now))
  {
    hide OpenFails, Mark, Rounds;
  }

  lemma CloseCounts(c: Config, p: Probe, now: nat)
    ensures SameCounts(p, CloseWindow(c, p, now))
  {
    hide CloseFails;
  }

  // ----- the windows

  /** An alarm inside the session `r` measures, once there is a touch. */
  predicate InSession(p: Probe, r: Probe, now: nat) { r.start <= now && p.bid > 0 && p.ask > 0 }

  /** The alarm ends the open window: its minimum is over and both legs are done. */
  predicate Closing(c: Config, p: Probe, r: Probe, now: nat) {
    p.open && InSession(p, r, now) && now >= p.fireTs + c.minWindow && p.buy.leg.done && p.sel.leg.done
  }

  /** The alarm starts a window: a new one that can end inside the session, or the first since the last ended. */
  predicate Opening(c: Config, p: Probe, r: Probe, now: nat) {
    InSession(p, r, now) && if p.open then Closing(c, p, r, now) && now + c.minWindow <= r.end else now < r.end
  }

  /** The row of window `p`, ended by an alarm. */
  predicate ClosedRow(p: Probe, now: nat, w: Row) {
    && w.ok && w.fireTs == p.fireTs && w.buy == p.buy.leg && w.sel == p.sel.leg
    && (w.closeTs == now || w.closeTs == p.buy.leg.ended || w.closeTs == p.sel.leg.ended)
    && w.closeTs >= now && w.closeTs >= p.buy.leg.ended && w.closeTs >= p.sel.leg.ended
    && RowInventory(p, w)
  }

  /** The row carries the window's inventory, its last position held until the row's end. */
  predicate RowInventory(p: Probe, w: Row) {
    var v := p.inv;
    var held := Max(w.closeTs - v.lastTim, 0);
    && w.inv.position == v.position && w.inv.max == v.max && w.inv.min == v.min
    && w.inv.integral == v.integral + v.position * held
    && w.inv.absIntegral == v.absIntegral + Abs(v.position) * held
  }

  /** A leg and an inventory that measure nothing yet. */
  ghost predicate Fresh(p: Probe, r: Probe, now: nat) {
    && r.open && r.fireTs == now
    && r.inv == Inventory(p.inv.position, p.inv.position, p.inv.position, 0, 0, now, 0, 0)
    && forall s: Side ::
         var l := r.D(s).leg;
         l == NewLeg.(started := now, anchored := true, first := p.Stream(s), last := p.Stream(s),
                      toDo := r.D(s).given - p.D(s).filled)
  }

  /**
    What an alarm does to the windows: it ends the open one exactly when its minimum has passed and both
    legs are done, opens one exactly when there is room, and aborts exactly when it would open one for an
    overrun side.
   */
  lemma AlarmOutcome(c: Config, p: Probe, now: nat)
    requires Sound(c) && Good(c, p) && Running(c, p) && now != 0
    ensures var r := Step(c, p, Alarm(now));
            var ends, starts := Closing(c, p, r, now), Opening(c, p, r, now);
            && (r.dead <==> starts && exists s: Side :: Overrun(c, p.D(s)))
            && (!r.dead ==>
                  && r.starts == p.starts + (if starts then [now] else [])
                  && (if ends then |r.rows| == |p.rows| + 1 && p.rows <= r.rows && ClosedRow(p, now, r.rows[|p.rows|])
                      else r.rows == p.rows)
                  && (r.open <==> starts || (p.open && !ends))
                  && (starts ==> Fresh(p, r, now))
                  && (p.open && !ends ==> r == p.(lastTim := now)))
  {
    hide NextSession, Good, Tick, Overrun;
    var p1 := p.(lastTim := now);
    var q := NextSession(c, p1, now);
    WalkStops(c, p1, now);
    NextSessionFrame(c, p1, now);
    SameGood(c, p, q);
    TickGood(c, q, now);
    TickSession(c, q, now);
    TickWindows(c, q, now);
    assert forall s: Side :: q.D(s) == p.D(s);
  }

  lemma SameGood(c: Config, p: Probe, q: Probe)
    requires Good(c, p) && q == p.(lastTim := q.lastTim, session := q.session, start := q.start, end := q.end)
    requires p.open ==> q.end == p.end && q.start == p.start
    ensures Good(c, q)
  {
    hide DeskOk, RowsOk, InvOk;
    SameDesk(c, p, q, Buy);
    SameDesk(c, p, q, Sell);
  }

  lemma TickWindows(c: Config, q: Probe, now: nat)
    requires Sound(c) && c.parent > 0 && Good(c, q) && !q.dead && !q.stopped && now != 0
    ensures var r := Tick(c, q, now);
            var ends, starts := Closing(c, q, r, now), Opening(c, q, r, now);
            && (!r.dead ==>
                  && r.starts == q.starts + (if starts then [now] else [])
                  && (if ends then |r.rows| == |q.rows| + 1 && q.rows <= r.rows && ClosedRow(q, now, r.rows[|q.rows|])
                      else r.rows == q.rows)
                  && (r.open <==> starts || (q.open && !ends))
                  && (starts ==> Fresh(q, r, now))
                  && (!starts && !ends ==> r == q))
  {
    hide Good, CloseWindow, OpenWindow, ClosedRow, Fresh;
    TickSession(c, q, now);
    assert q.starts + [] == q.starts;
    if Closing(c, q, q, now) {
      CloseWindowGood(c, q, now);
      CloseTells(c, q, now);
      var r := CloseWindow(c, q, now);
      OpenTells(c, r, now);
      FreshSame(q, r, OpenWindow(c, r, now), now);
    } else {
      OpenTells(c, q, now);
    }
  }

  lemma FreshSame(q: Probe, r: Probe, t: Probe, now: nat)
    requires r.hits == q.hits && r.takes == q.takes && r.buy == q.buy && r.sel == q.sel
    requires r.inv.position == q.inv.position
    ensures Fresh(r, t, now) ==> Fresh(q, t, now)
  {
    assert forall s: Side :: r.D(s) == q.D(s) && r.Stream(s) == q.Stream(s);
  }

  lemma OpenTells(c: Config, q: Probe, now: nat)
    requires c.parent > 0
    ensures var r := OpenWindow(c, q, now);
            !r.dead && !q.dead ==> r.open && r.starts == q.starts + [now] && r.rows == q.rows && Fresh(q, r, now)
  {
    hide OpenFails, Rounds;
  }

  lemma CloseTells(c: Config, q: Probe, now: nat)
    requires Good(c, q) && q.open && !CloseFails(c, q, now)
    ensures var r := CloseWindow(c, q, now);
            && r == q.(inv := r.inv, open := false, rows := r.rows) && r.inv.position == q.inv.position
            && r.rows == q.rows + [r.rows[|q.rows|]] && ClosedRow(q, now, r.rows[|q.rows|])
  {
    hide Good, CloseFails, Accrue;
    assert InvOk(q.inv, q.fireTs) by { GoodInventory(c, q); }
    AccrueTells(q.inv, q.fireTs, CloseTime(q, now));
  }

  lemma GoodInventory(c: Config, q: Probe)
    requires Good(c, q) && q.open
    ensures InvOk(q.inv, q.fireTs)
  {}

  lemma AccrueTells(v: Inventory, fireTs: nat, at: nat)
    requires v.lastTim > 0
    ensures var a, held := Accrue(v, fireTs, at), Max(at - v.lastTim, 0);
            && a.position == v.position && a.max == v.max && a.min == v.min && a.lastTim == Max(v.lastTim, at)
            && a.integral == v.integral + v.position * held
            && a.absIntegral == v.absIntegral + Abs(v.position) * held
  {}

  /** A disabled probe ignores its alarms, and so does an enabled one the alarm with no time. */
  lemma AlarmIgnored(c: Config, p: Probe, now: nat)
    requires c.parent <= 0 || p.end <= p.start || now == 0
    ensures Step(c, p, Alarm(now)) == p
  {}
}
