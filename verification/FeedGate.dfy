/**
  The time gate in front of the book: snapshot records older than the live stream and live records no
  newer than the snapshot are dropped before they reach it. The gate looks at nothing but the feed, so
  a gated run is a run on the records it lets through, and everything proved of runs holds of it.
 */
module FeedGate {
  import opened Levels
  import opened Book
  import OB

  /** Times of the last live and the last snapshot record; 0 if none since the last channel reset. */
  datatype Gate = Gate(lastTx: nat, lastRecovery: nat)

  /** A record the gate sees: one that could be placed, or that removes its order. */
  predicate Seen(c: Config, e: Event) { e.Record? && (OnLadder(c, e.px) || !e.action.New?) }

  function Noted(c: Config, g: Gate, e: Event): Gate {
    if e.ChannelReset? then Gate(0, 0)
    else if !Seen(c, e) || e.tim == 0 then g
    else if e.recovery then g.(lastRecovery := e.tim) else g.(lastTx := e.tim)
  }

  /** Whether a record passes, given the gate with the record's own time noted. */
  predicate Passes(c: Config, g: Gate, e: Event) {
    Seen(c, e) && e.tim != 0 && g.lastTx != 0 && g.lastRecovery != 0 ==>
      if e.recovery then e.tim >= g.lastTx else e.tim > g.lastRecovery
  }

  function GateAfter(c: Config, es: seq<Event>): Gate {
    if es == [] then Gate(0, 0) else Noted(c, GateAfter(c, es[..|es| - 1]), es[|es| - 1])
  }

  /** The events that reach the book. */
  function Passed(c: Config, es: seq<Event>): seq<Event> {
    if es == [] then []
    else Passed(c, es[..|es| - 1]) + if Passes(c, GateAfter(c, es), es[|es| - 1]) then [es[|es| - 1]] else []
  }

  /** The book behind the gate. */
  function GatedRun(c: Config, es: seq<Event>): Book {
    if es == [] then Init(c)
    else
      var b := GatedRun(c, es[..|es| - 1]);
      if Passes(c, GateAfter(c, es), es[|es| - 1]) then Step(c, b, es[|es| - 1]) else b
  }

  /** A gated run is a run on what passes. */
  lemma {:induction false} GatedIsRun(c: Config, es: seq<Event>)
    ensures GatedRun(c, es) == Run(c, Init(c), Passed(c, es))
  {
    hide Step, Passes, GateAfter;
    if es != [] {
      var n := |es| - 1;
      GatedIsRun(c, es[..n]);
      var ps := Passed(c, es[..n]);
      assert (ps + [es[n]])[..|ps|] == ps && ps + [] == ps;
    }
  }

  // ----- what passes

  predicate Timed(c: Config, e: Event, recovery: bool) { Seen(c, e) && e.tim != 0 && e.recovery == recovery }

  /** Position `i` holds the last timed record of its kind since the last channel reset. */
  ghost predicate IsLast(c: Config, es: seq<Event>, recovery: bool, i: nat) {
    && i < |es| && Timed(c, es[i], recovery)
    && forall j :: i < j < |es| ==> !es[j].ChannelReset? && !Timed(c, es[j], recovery)
  }

  lemma LastNext(c: Config, es: seq<Event>, recovery: bool, i: nat)
    requires es != []
    ensures var n := |es| - 1;
            IsLast(c, es, recovery, i) <==>
            if i == n then Timed(c, es[n], recovery)
            else IsLast(c, es[..n], recovery, i) && !es[n].ChannelReset? && !Timed(c, es[n], recovery)
  {
    hide Timed;
    var n := |es| - 1;
    assert forall j :: 0 <= j < n ==> es[..n][j] == es[j];
  }

  function TimeAt(es: seq<Event>, i: nat): nat { if i < |es| && es[i].Record? then es[i].tim else 0 }

  function Time(g: Gate, recovery: bool): nat { if recovery then g.lastRecovery else g.lastTx }

  lemma NotedTime(c: Config, g: Gate, e: Event, recovery: bool)
    ensures Time(Noted(c, g, e), recovery) ==
            if e.ChannelReset? then 0 else if Timed(c, e, recovery) then e.tim else Time(g, recovery)
    ensures Timed(c, e, recovery) ==> e.Record? && e.tim != 0
  {}

  /** The gate's times are those records' times, and 0 when there is none. */
  lemma {:induction false} GateTimes(c: Config, es: seq<Event>, recovery: bool)
    ensures var t := Time(GateAfter(c, es), recovery);
            && (t != 0 ==> exists i: nat :: IsLast(c, es, recovery, i))
            && (forall i: nat :: IsLast(c, es, recovery, i) ==> TimeAt(es, i) == t != 0)
  {
    hide Timed, Noted, Time, IsLast;
    if es == [] {
      NoneLast(c, recovery);
    } else {
      var n := |es| - 1;
      GateTimes(c, es[..n], recovery);
      NotedTime(c, GateAfter(c, es[..n]), es[n], recovery);
      LastNext(c, es, recovery, n);
      forall i: nat | IsLast(c, es, recovery, i) ensures TimeAt(es, i) == Time(GateAfter(c, es), recovery) != 0 {
        LastNext(c, es, recovery, i);
        LastInside(c, es, recovery, i);
        assert i < n ==> TimeAt(es, i) == TimeAt(es[..n], i);
      }
      if Time(GateAfter(c, es), recovery) != 0 && !Timed(c, es[n], recovery) {
        var i: nat :| IsLast(c, es[..n], recovery, i);
        LastInside(c, es[..n], recovery, i);
        LastNext(c, es, recovery, i);
      }
    }
  }

  lemma LastInside(c: Config, es: seq<Event>, recovery: bool, i: nat)
    requires IsLast(c, es, recovery, i)
    ensures i < |es| && Timed(c, es[i], recovery)
  {}

  lemma NoneLast(c: Config, recovery: bool)
    ensures Time(GateAfter(c, []), recovery) == 0 && forall i: nat :: !IsLast(c, [], recovery, i)
  {}

  /**
    A timed record passes exactly when it does not contradict the other stream: a live record is later
    than the last snapshot record, a snapshot record no earlier than the last live one, counting also
    records that were themselves dropped.
   */
  lemma PassesIff(c: Config, es: seq<Event>, e: Event)
    requires Seen(c, e) && e.tim != 0
    ensures Passes(c, GateAfter(c, es + [e]), e) <==>
            forall i: nat :: IsLast(c, es, !e.recovery, i) ==>
              if e.recovery then TimeAt(es, i) <= e.tim else TimeAt(es, i) < e.tim
  {
    hide IsLast, GateAfter, TimeAt;
    GateNext(c, es, e);
    GateTimes(c, es, !e.recovery);
  }

  lemma GateNext(c: Config, es: seq<Event>, e: Event)
    ensures GateAfter(c, es + [e]) == Noted(c, GateAfter(c, es), e)
  {
    hide Noted;
    assert (es + [e])[..|es|] == es;
  }

  /** The gate lets every record through. */
  ghost predicate AllPass(c: Config, es: seq<Event>) {
    forall i :: 0 <= i < |es| ==> Passes(c, GateAfter(c, es[..i + 1]), es[i])
  }

  lemma AllPassFront(c: Config, es: seq<Event>)
    requires es != [] && AllPass(c, es)
    ensures AllPass(c, es[..|es| - 1]) && Passes(c, GateAfter(c, es), es[|es| - 1])
  {
    hide Passes, GateAfter;
    var n := |es| - 1;
    forall i | 0 <= i < n ensures Passes(c, GateAfter(c, es[..n][..i + 1]), es[..n][i]) {
      assert es[..n][..i + 1] == es[..i + 1];
    }
    assert es[..n + 1] == es;
  }

  lemma {:induction false} AllPassed(c: Config, es: seq<Event>)
    requires AllPass(c, es)
    ensures Passed(c, es) == es
  {
    hide Passes, GateAfter, AllPass;
    if es != [] {
      AllPassFront(c, es);
      AllPassed(c, es[..|es| - 1]);
      assert es[..|es| - 1] + [es[|es| - 1]] == es;
    }
  }

  // ----- the object

  class Feed {
    const ob: OB.OB
    var lastTx: nat
    var lastRecovery: nat

    constructor (ob: OB.OB)
      ensures this.ob == ob && lastTx == 0 && lastRecovery == 0
    {
      this.ob := ob;
      lastTx, lastRecovery := 0, 0;
    }

    /** data_handler with its time gate. */
    method DataHandler(e: Event)
      requires ob.Valid()
      modifies this, ob
      ensures ob.Valid()
      ensures Gate(lastTx, lastRecovery) == Noted(ob.c, old(Gate(lastTx, lastRecovery)), e)
      ensures ob.View() == if Passes(ob.c, Gate(lastTx, lastRecovery), e) then Step(ob.c, old(ob.View()), e)
                           else old(ob.View())
    {
      hide Step;
      if e.ChannelReset? { lastTx, lastRecovery := 0, 0; }
      if e.Record? && (OnLadder(ob.c, e.px) || !e.action.New?) && e.tim != 0 {
        if e.recovery { lastRecovery := e.tim; } else { lastTx := e.tim; }
        if lastTx != 0 && lastRecovery != 0 {
          if e.recovery && e.tim < lastTx { return; }
          if !e.recovery && e.tim <= lastRecovery { return; }
        }
      }
      ob.Handle(e);
    }
  }
}
