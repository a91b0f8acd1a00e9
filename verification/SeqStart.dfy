/** The start number of an era on the market-data port of a market-by-order feed
    (`FRAME.MKTDATA_SEQ_START`, judged in `Process` of `engine/engine.go` as a
    datagram arrives, before the reorder buffer): exactly when it is charged. */
module SeqStart {
  import opened Core
  import Eras
  import EW = EraWipe
  import MW = MboWipe

  /** Something happens at the ports; a datagram carries its sequence number. */
  datatype Arrival = Arrival(e: EW.Event, seqNo: u64)

  function Events(xs: seq<Arrival>): (es: seq<EW.Event>)
    ensures |es| == |xs|
  {
    seq(|xs|, i requires 0 <= i < |xs| => xs[i].e)
  }

  /** A market-data datagram that brings a reset, and not after a run of stragglers,
      must be number 0. */
  predicate Charged(c: Eras.Channel, x: Arrival, window: nat) {
    && x.e.Arrives? && x.e.d.port == MktData && x.seqNo != 0
    && Eras.DecisionOn(c, x.e.d, window) == Eras.Advance(false)
  }

  function Charges(y: EW.System, xs: seq<Arrival>, window: nat): nat {
    if xs == [] then 0
    else
      var init := xs[..|xs| - 1];
      Charges(y, init, window)
      + if Charged(EW.Run(y, Events(init), window).c, xs[|xs| - 1], window) then 1 else 0
  }

  predicate Opens(x: Arrival, w: u8) {
    x.e.Arrives? && x.e.d == Eras.Datagram(MktData, w)
  }

  /** The number of the first datagram of `w` to reach the market-data port. */
  function FirstOf(xs: seq<Arrival>, w: u8): Option<u64> {
    if xs == [] then None
    else
      var first := FirstOf(xs[..|xs| - 1], w);
      if first.None? && Opens(xs[|xs| - 1], w) then Some(xs[|xs| - 1].seqNo) else first
  }

  lemma {:induction false} CrossesWithoutStragglers(
    p: Eras.PortEra, from: Eras.Log, log: Eras.Log, v: u8, w: u8, window: nat)
    requires EW.CrossLog(from, log, v, w) && EW.PortCrosses(p, from, log, v, w, None) && p.seen && p.era == v
    ensures Eras.OnDatagram(p, log, w, window).decision == Eras.Advance(false)
  {
    EW.OrdinalsAcross(from, log, v, w);
  }

  predicate Tracks(c: Eras.Channel, first: Option<u64>, charges: nat, v: u8, w: u8) {
    && c.mktData.seen && (c.mktData.era == v || c.mktData.era == w)
    && (c.mktData.era == w <==> first.Some?)
    && charges == if first.Some? && first.value != 0 then 1 else 0
  }

  lemma {:induction false} TracksStep(
    from: Eras.Log, es: seq<EW.Event>, c: Eras.Channel, x: Arrival, first: Option<u64>, charges: nat,
    v: u8, w: u8, window: nat)
    requires EW.CrossInv(c, from, es, v, w) && Tracks(c, first, charges, v, w)
    requires x.e.Arrives? && (x.e.d.era == v || x.e.d.era == w)
    requires var n := EW.Stragglers(es, x.e.d.port, v); n.Some? && x.e.d.era == v ==> n.value < Eras.Limit(window)
    ensures Tracks(Eras.Step(c, x.e.d, window), if first.None? && Opens(x, w) then Some(x.seqNo) else first,
                   charges + if Charged(c, x, window) then 1 else 0, v, w)
  {
    var d := x.e.d;
    if d.port == MktData {
      var met := EW.Stragglers(es, MktData, v);
      assert EW.PortCrosses(c.At(MktData), from, c.log, v, w, met);
      EW.PortCrossesStep(c.mktData, from, c.log, v, w, met, d.era, window);
      MW.AdvanceExactly(c.mktData, from, c.log, v, w, met, d.era, window);
      if c.mktData.era == v && d.era == w { CrossesWithoutStragglers(c.mktData, from, c.log, v, w, window); }
    }
  }

  lemma EventsInit(xs: seq<Arrival>)
    requires xs != []
    ensures Events(xs) == Events(xs[..|xs| - 1]) + [xs[|xs| - 1].e]
    ensures Events(xs)[..|xs| - 1] == Events(xs[..|xs| - 1])
  {
  }

  lemma {:induction false} TracksRun(y: EW.System, xs: seq<Arrival>, v: u8, w: u8, window: nat)
    requires EW.AtRest(y.c, v, w) && y.c.mktData.seen
    requires EW.Crossing(Events(xs), v, w, window) && EW.CanRun(y, Events(xs), window)
    ensures Tracks(EW.Run(y, Events(xs), window).c, FirstOf(xs, w), Charges(y, xs, window), v, w)
  {
    if xs == [] {
      assert y.c.At(MktData).seen;
    } else {
      var init, x := xs[..|xs| - 1], xs[|xs| - 1];
      var es := Events(init);
      EventsInit(xs);
      EW.CrossingInit(Events(xs), v, w, window);
      EW.CanRunInit(y, Events(xs), window);
      TracksRun(y, init, v, w, window);
      if x.e.Arrives? {
        EW.CrossingKeeps(y, es, v, w, window);
        WithinLimit(es, x.e, v, w, window);
        TracksStep(y.c.log, es, EW.Run(y, es, window).c, x, FirstOf(init, w), Charges(y, init, window), v, w, window);
      }
    }
  }

  lemma {:induction false} WithinLimit(es: seq<EW.Event>, e: EW.Event, v: u8, w: u8, window: nat)
    requires EW.Crossing(es + [e], v, w, window) && e.Arrives?
    ensures e.d.era == v || e.d.era == w
    ensures var n := EW.Stragglers(es, e.d.port, v); n.Some? && e.d.era == v ==> n.value < Eras.Limit(window)
  {
    var all := es + [e];
    assert all[|es|] == e && all[..|all|] == all;
    assert EW.Stragglers(all[..|all|], e.d.port, v).Some? ==>
        EW.Stragglers(all, e.d.port, v).value <= Eras.Limit(window);
    EW.MetStep(es, e, e.d.port, v);
  }

  /** Over any reset of a channel whose market-data port was heard before, the rule
      charges exactly once if the first datagram of the new era to arrive there is
      not number 0, and never otherwise: whether number 0 was never sent, was lost, or
      was merely overtaken by one that the reorder buffer would have put behind it. */
  lemma {:induction false} StartChargedExactly(y: EW.System, xs: seq<Arrival>, v: u8, w: u8, window: nat)
    requires EW.AtRest(y.c, v, w) && y.c.mktData.seen
    requires EW.Crossing(Events(xs), v, w, window) && EW.CanRun(y, Events(xs), window)
    ensures Charges(y, xs, window) == if FirstOf(xs, w).Some? && FirstOf(xs, w).value != 0 then 1 else 0
  {
    TracksRun(y, xs, v, w, window);
  }

  /** Nothing is lost: of the new era's first two datagrams the second arrives first,
      within any reorder window, and is charged. */
  lemma {:induction false} OvertakenStartAccuses(v: u8, w: u8, window: nat)
    requires v != w
    ensures var y := EW.Step(EW.START, EW.Arrives(Eras.Datagram(MktData, v)), window);
            var next := EW.Arrives(Eras.Datagram(MktData, w));
            Charges(y, [Arrival(next, 1), Arrival(next, 0)], window) == 1
  {
    var y := EW.Step(EW.START, EW.Arrives(Eras.Datagram(MktData, v)), window);
    var next := EW.Arrives(Eras.Datagram(MktData, w));
    var xs := [Arrival(next, 1), Arrival(next, 0)];
    EW.FirstDatagramRests(MktData, v, w, window);
    assert Events(xs) == [next, next];
    NewOnly([next, next], v, w, window);
    assert xs[..1] == [xs[0]] && [xs[0]][..0] == [];
    assert FirstOf([xs[0]], w) == Some(1);
    StartChargedExactly(y, xs, v, w, window);
  }

  /** Datagrams of the new era alone leave no stragglers. */
  lemma {:induction false} NewOnly(es: seq<EW.Event>, v: u8, w: u8, window: nat)
    requires v != w && forall i :: 0 <= i < |es| ==> es[i].Arrives? && es[i].d.era == w
    ensures EW.Crossing(es, v, w, window)
  {
    forall i, port | 0 <= i <= |es|
      ensures var n := EW.Stragglers(es[..i], port, v); n.Some? ==> n.value <= Eras.Limit(window)
    {
      NoStragglers(es[..i], port, v, w);
    }
  }

  lemma {:induction false} NoStragglers(es: seq<EW.Event>, port: Port, v: u8, w: u8)
    requires v != w && forall i :: 0 <= i < |es| ==> es[i].Arrives? && es[i].d.era == w
    ensures EW.Stragglers(es, port, v).Some? ==> EW.Stragglers(es, port, v).value == 0
  {
    if es != [] {
      assert forall i :: 0 <= i < |es| - 1 ==> es[..|es| - 1][i] == es[i];
      NoStragglers(es[..|es| - 1], port, v, w);
    }
  }
}
