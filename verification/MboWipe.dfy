/** Discarding market-by-order state on a Reset Count change
    (`onResetCountForEra` in `engine/gate.go`): driven by the ports' era advances,
    and one record for every channel. */
module MboWipe {
  import opened Core
  import Eras
  import EW = EraWipe
  import Gate
  import IB = InstrBook
  import MG = MboGroups
  import Oracle

  /** The state that a wipe clears, and the Reset Count wiped for last. */
  class State {
    var trackers: map<EW.InstrKey, Gate.Track>
    var openSnaps: map<u8, MG.OpenSnapshot>
    var books: map<EW.InstrKey, IB.Book>
    var oracleSuspects: map<EW.InstrKey, Oracle.Suspect>
    var resetEra: u8
    var resetEraSet: bool

    ghost function WipedFor(): Option<u8>
      reads this
    {
      if resetEraSet then Some(resetEra) else None
    }

    /** Clears every channel, unless this Reset Count was the last one acted on. */
    method OnResetCountForEra(newEra: u8) returns (wiped: bool)
      modifies this
      ensures wiped == Acts(old(WipedFor()), newEra) && WipedFor() == Some(newEra)
      ensures trackers == (if wiped then map[] else old(trackers))
      ensures openSnaps == (if wiped then map[] else old(openSnaps))
      ensures books == (if wiped then map[] else old(books))
      ensures oracleSuspects == if wiped then map[] else old(oracleSuspects)
    {
      if resetEraSet && resetEra == newEra {
        return false;
      }
      resetEra := newEra;
      resetEraSet := true;
      trackers := map[];
      openSnaps := map[];
      books := map[];
      oracleSuspects := map[];
      return true;
    }
  }

  predicate Acts(last: Option<u8>, era: u8) { last != Some(era) }

  /** The Reset Count wiped for last, after these advances of any channel's ports. */
  function LastAfter(last: Option<u8>, advances: seq<u8>): Option<u8> {
    if advances == [] then last else Some(advances[|advances| - 1])
  }

  function Wipes(last: Option<u8>, advances: seq<u8>): nat {
    if advances == [] then 0
    else
      var init := advances[..|advances| - 1];
      Wipes(last, init) + if Acts(LastAfter(last, init), advances[|advances| - 1]) then 1 else 0
  }

  // ---- one channel, from rest to rest -----------------------------------------

  function AdvanceOn(y: EW.System, e: EW.Event, window: nat): seq<u8> {
    if e.Arrives? && Eras.DecisionOn(y.c, e.d, window).Advance? then [e.d.era] else []
  }

  /** The eras that ports of the channel advance into, in order. */
  function Advances(y: EW.System, es: seq<EW.Event>, window: nat): seq<u8> {
    if es == [] then []
    else
      var init := es[..|es| - 1];
      Advances(y, init, window) + AdvanceOn(EW.Run(y, init, window), es[|es| - 1], window)
  }

  predicate AllAre(advances: seq<u8>, w: u8) {
    forall i :: 0 <= i < |advances| ==> advances[i] == w
  }

  /** Some port that had been heard before has crossed. */
  predicate SomeCrossed(from: Eras.Channel, c: Eras.Channel, w: u8) {
    exists port :: from.At(port).seen && c.At(port).era == w
  }

  predicate AdvancesSay(from: Eras.Channel, c: Eras.Channel, advances: seq<u8>, w: u8) {
    && AllAre(advances, w)
    && (forall port :: from.At(port).seen ==> c.At(port).seen)
    && (SomeCrossed(from, c, w) ==> advances != [])
  }

  /** While the channel crosses from `v` to `w`, a datagram is an advance exactly
      when it takes a port already heard across. */
  lemma {:induction false} AdvanceExactly(
    p: Eras.PortEra, from: Eras.Log, log: Eras.Log, v: u8, w: u8, met: Option<nat>, era: u8, window: nat)
    requires EW.CrossLog(from, log, v, w) && EW.PortCrosses(p, from, log, v, w, met)
    requires era == v || era == w
    requires met.Some? && era == v ==> met.value < Eras.Limit(window)
    ensures var o := Eras.OnDatagram(p, log, era, window);
            && o.p.seen
            && (o.decision.Advance? <==> p.seen && p.era == v && era == w)
            && (p.seen && o.p.era == w ==> p.era == w || o.decision.Advance?)
  {
    EW.OrdinalsAcross(from, log, v, w);
    if !p.seen {
      EW.UnseenPortDecides(p, from, log, v, w, era, window);
      var s := Eras.Seed(p, log, era);
      EW.OrdinalsAcross(from, s.log, v, w);
    }
  }

  lemma {:induction false} AdvanceStep(
    from: Eras.Channel, c: Eras.Channel, port: Port, p: Eras.PortEra, log: Eras.Log,
    advances: seq<u8>, more: seq<u8>, w: u8)
    requires AdvancesSay(from, c, advances, w) && p.seen && AllAre(more, w)
    requires c.At(port).seen && p.era == w ==> c.At(port).era == w || more != []
    ensures AdvancesSay(from, c.With(port, p, log), advances + more, w)
  {
    var c' := c.With(port, p, log);
    if SomeCrossed(from, c', w) && more == [] {
      var q :| from.At(q).seen && c'.At(q).era == w;
      assert from.At(q).seen && c.At(q).era == w;
    }
  }

  lemma {:induction false} AdvancesOver(y: EW.System, es: seq<EW.Event>, v: u8, w: u8, window: nat)
    requires EW.AtRest(y.c, v, w) && EW.Crossing(es, v, w, window) && EW.CanRun(y, es, window)
    ensures AdvancesSay(y.c, EW.Run(y, es, window).c, Advances(y, es, window), w)
  {
    if es == [] {
      assert forall port :: y.c.At(port).seen ==> y.c.At(port).era == v;
    } else {
      var init, e := es[..|es| - 1], es[|es| - 1];
      assert init + [e] == es;
      EW.CrossingInit(es, v, w, window);
      EW.CanRunInit(y, es, window);
      AdvancesOver(y, init, v, w, window);
      if e.Arrives? { DatagramAdvances(y, init, e, v, w, window); }
    }
  }

  lemma {:induction false} DatagramAdvances(
    y: EW.System, es: seq<EW.Event>, e: EW.Event, v: u8, w: u8, window: nat)
    requires EW.AtRest(y.c, v, w) && EW.Crossing(es + [e], v, w, window) && EW.CanRun(y, es, window)
    requires e.Arrives? && EW.Crossing(es, v, w, window)
    requires AdvancesSay(y.c, EW.Run(y, es, window).c, Advances(y, es, window), w)
    ensures var y1 := EW.Run(y, es, window);
            AdvancesSay(y.c, Eras.Step(y1.c, e.d, window),
              Advances(y, es, window) + AdvanceOn(y1, e, window), w)
  {
    var y1, port, all := EW.Run(y, es, window), e.d.port, es + [e];
    var met := EW.Stragglers(es, port, v);
    EW.CrossingKeeps(y, es, v, w, window);
    assert EW.PortCrosses(y1.c.At(port), y.c.log, y1.c.log, v, w, met);
    assert all[|es|] == e && all[..|all|] == all;
    assert EW.Stragglers(all[..|all|], port, v).Some? ==> EW.Stragglers(all, port, v).value <= Eras.Limit(window);
    EW.MetStep(es, e, port, v);
    AdvanceExactly(y1.c.At(port), y.c.log, y1.c.log, v, w, met, e.d.era, window);
    var o := Eras.OnDatagram(y1.c.At(port), y1.c.log, e.d.era, window);
    AdvanceStep(y.c, y1.c, port, o.p, o.log, Advances(y, es, window), AdvanceOn(y1, e, window), w);
  }

  lemma {:induction false} AllAlikeWipeOnce(last: Option<u8>, advances: seq<u8>, w: u8)
    requires AllAre(advances, w) && Acts(last, w)
    ensures Wipes(last, advances) == if advances == [] then 0 else 1
  {
    if advances != [] {
      AllAlikeWipeOnce(last, advances[..|advances| - 1], w);
    }
  }

  /** One wipe per reset: however the ports of a channel cross, and however often
      they fall behind and return, at most one of their advances wipes, and one
      does as soon as a port heard before has crossed, unless the last wipe of any
      channel was for the same value. */
  lemma {:induction false} CrossingWipesOnce(
    last: Option<u8>, y: EW.System, es: seq<EW.Event>, v: u8, w: u8, window: nat)
    requires EW.AtRest(y.c, v, w) && EW.Crossing(es, v, w, window) && EW.CanRun(y, es, window)
    ensures var advances := Advances(y, es, window);
            && (last == Some(w) ==> Wipes(last, advances) == 0)
            && (last != Some(w) ==> Wipes(last, advances) <= 1)
            && (last != Some(w) && SomeCrossed(y.c, EW.Run(y, es, window).c, w) ==> Wipes(last, advances) == 1)
  {
    var advances := Advances(y, es, window);
    AdvancesOver(y, es, v, w, window);
    if last == Some(w) { SameValueWipesNothing(advances, w); } else { AllAlikeWipeOnce(last, advances, w); }
  }

  lemma {:induction false} SameValueWipesNothing(advances: seq<u8>, w: u8)
    requires AllAre(advances, w)
    ensures Wipes(Some(w), advances) == 0
  {
    if advances != [] { SameValueWipesNothing(advances[..|advances| - 1], w); }
  }

  // ---- any number of resets ---------------------------------------------------

  /** The advances over one reset after another. */
  function LegAdvances(y: EW.System, legs: seq<EW.Leg>, window: nat): seq<u8>
    decreases legs
  {
    if legs == [] then []
    else Advances(y, legs[0].es, window) + LegAdvances(EW.Run(y, legs[0].es, window), legs[1..], window)
  }

  lemma {:induction false} WipesAdd(last: Option<u8>, a: seq<u8>, b: seq<u8>)
    ensures Wipes(last, a + b) == Wipes(last, a) + Wipes(LastAfter(last, a), b)
  {
    if b == [] {
      assert a + b == a;
    } else {
      var init := b[..|b| - 1];
      WipesAdd(last, a, init);
      assert (a + b)[..|a + b| - 1] == a + init;
      assert LastAfter(last, a + init) == LastAfter(LastAfter(last, a), init);
    }
  }

  lemma {:induction false} LegWipesOnce(
    last: Option<u8>, y: EW.System, v: u8, leg: EW.Leg, window: nat, port: Port)
    requires EW.AtRest(y.c, v, leg.to) && EW.Crossing(leg.es, v, leg.to, window) && EW.CanRun(y, leg.es, window)
    requires EW.AllIn(EW.Run(y, leg.es, window).c, leg.to) && y.c.At(port).seen && Acts(last, leg.to)
    ensures var advances := Advances(y, leg.es, window);
            Wipes(last, advances) == 1 && LastAfter(last, advances) == Some(leg.to)
    ensures EW.Run(y, leg.es, window).c.At(port).seen
  {
    AdvancesOver(y, leg.es, v, leg.to, window);
    assert y.c.At(port).seen && EW.Run(y, leg.es, window).c.At(port).era == leg.to;
    CrossingWipesOnce(last, y, leg.es, v, leg.to, window);
  }

  /** Over any number of resets of one channel, as many wipes. */
  lemma {:induction false} EveryResetWipesOnce(
    last: Option<u8>, y: EW.System, v: u8, legs: seq<EW.Leg>, window: nat, port: Port)
    requires EW.Legs(y, v, legs, window) && y.c.At(port).seen
    requires legs != [] ==> Acts(last, legs[0].to)
    ensures Wipes(last, LegAdvances(y, legs, window)) == |legs|
    decreases legs
  {
    if legs != [] {
      var y' := EW.Run(y, legs[0].es, window);
      LegWipesOnce(last, y, v, legs[0], window, port);
      EveryResetWipesOnce(Some(legs[0].to), y', legs[0].to, legs[1..], window, port);
      WipesAdd(last, Advances(y, legs[0].es, window), LegAdvances(y', legs[1..], window));
    }
  }

  // ---- two channels -------------------------------------------------------------

  /** The record is one for all channels. Once a channel has gone to `w`, a second
      channel that goes to `w` wipes nothing: its own reset leaves its state as it
      is. */
  lemma {:induction false} SharedValueHidesTheReset(
    last: Option<u8>, y1: EW.System, es1: seq<EW.Event>, v1: u8,
    y2: EW.System, es2: seq<EW.Event>, v2: u8, w: u8, window: nat)
    requires EW.AtRest(y1.c, v1, w) && EW.Crossing(es1, v1, w, window) && EW.CanRun(y1, es1, window)
    requires EW.AtRest(y2.c, v2, w) && EW.Crossing(es2, v2, w, window) && EW.CanRun(y2, es2, window)
    requires SomeCrossed(y1.c, EW.Run(y1, es1, window).c, w)
    ensures Wipes(LastAfter(last, Advances(y1, es1, window)), Advances(y2, es2, window)) == 0
  {
    AdvancesOver(y1, es1, v1, w, window);
    CrossingWipesOnce(Some(w), y2, es2, v2, w, window);
  }

  // ---- a port that lags a whole era behind -----------------------------------------

  predicate GoesTo(es: seq<EW.Event>, e: EW.Event, window: nat, c: Eras.Channel, advances: seq<u8>) {
    EW.Run(EW.START, es + [e], window).c == c && Advances(EW.START, es + [e], window) == advances
  }

  lemma Next(es: seq<EW.Event>, port: Port, era: u8, window: nat, c: Eras.Channel, before: seq<u8>)
    requires EW.Run(EW.START, es, window).c == c && Advances(EW.START, es, window) == before
    ensures var d := Eras.Datagram(port, era);
            GoesTo(es, EW.Arrives(d), window, Eras.Step(c, d, window),
                   before + if Eras.DecisionOn(c, d, window).Advance? then [era] else [])
  {
    assert (es + [EW.Arrives(Eras.Datagram(port, era))])[..|es|] == es;
  }

  function Comes(port: Port, era: u8): EW.Event {
    EW.Arrives(Eras.Datagram(port, era))
  }

  function In(era: u8, ordinal: nat): Eras.PortEra
    requires ordinal >= 1
  {
    Eras.PortEra(era, true, ordinal, ordinal - 1, 0)
  }

  function Two(log: Eras.Log, mkt: Eras.PortEra, ref: Eras.PortEra): Eras.Channel {
    Eras.Channel(log, mkt, ref, Eras.UNSEEN)
  }

  lemma ThreeOrdinals(v: u8, w: u8, x: u8)
    requires v != w && w != x && v != x
    ensures Eras.Ordinal([v, w], x) == 0
    ensures Eras.Ordinal([v, w, x], v) == 1 && Eras.Ordinal([v, w, x], w) == 2 && Eras.Ordinal([v, w, x], x) == 3
    ensures [v, w] + [x] == [v, w, x]
  {
    EW.TwoOrdinals(v, w);
    assert [v, w, x][..2] == [v, w] && [v, w][..1] == [v] && [v][..0] == [];
  }

  /** Both ports open in `v`; the market-data port goes through `w` to `x`. */
  function Ahead(v: u8, w: u8, x: u8): seq<EW.Event> {
    [] + [Comes(RefData, v)] + [Comes(MktData, v)] + [Comes(MktData, w)] + [Comes(MktData, x)]
  }

  lemma BothOpen(v: u8, window: nat)
    ensures Eras.Step(Eras.SILENT, Eras.Datagram(RefData, v), window) == Two([v], Eras.UNSEEN, In(v, 1))
    ensures Eras.Step(Two([v], Eras.UNSEEN, In(v, 1)), Eras.Datagram(MktData, v), window)
      == Two([v], In(v, 1), In(v, 1))
    ensures Eras.DecisionOn(Eras.SILENT, Eras.Datagram(RefData, v), window) == Eras.Accept
    ensures Eras.DecisionOn(Two([v], Eras.UNSEEN, In(v, 1)), Eras.Datagram(MktData, v), window) == Eras.Accept
  {
    assert [v][..0] == [] && [] + [v] == [v];
  }

  lemma GoesAhead(v: u8, w: u8, x: u8, window: nat)
    requires v != w && w != x && v != x
    ensures Eras.Step(Two([v], In(v, 1), In(v, 1)), Eras.Datagram(MktData, w), window)
      == Two([v, w], In(w, 2), In(v, 1))
    ensures Eras.DecisionOn(Two([v], In(v, 1), In(v, 1)), Eras.Datagram(MktData, w), window).Advance?
    ensures Eras.Step(Two([v, w], In(w, 2), In(v, 1)), Eras.Datagram(MktData, x), window)
      == Two([v, w, x], In(x, 3), In(v, 1))
    ensures Eras.DecisionOn(Two([v, w], In(w, 2), In(v, 1)), Eras.Datagram(MktData, x), window).Advance?
  {
    EW.TwoOrdinals(v, w);
    ThreeOrdinals(v, w, x);
    assert [v] + [w] == [v, w];
  }

  lemma Follows(v: u8, w: u8, x: u8, window: nat)
    requires v != w && w != x && v != x
    ensures var c := Two([v, w, x], In(x, 3), In(v, 1));
            && Eras.Step(c, Eras.Datagram(RefData, w), window) == Two([v, w, x], In(x, 3), In(w, 2))
            && Eras.DecisionOn(c, Eras.Datagram(RefData, w), window).Advance?
    ensures var c := Two([v, w, x], In(x, 3), In(w, 2));
            && Eras.Step(c, Eras.Datagram(RefData, x), window) == Two([v, w, x], In(x, 3), In(x, 3))
            && Eras.DecisionOn(c, Eras.Datagram(RefData, x), window).Advance?
  {
    ThreeOrdinals(v, w, x);
  }

  lemma {:induction false} Opened(v: u8, window: nat)
    ensures var es := [] + [Comes(RefData, v)] + [Comes(MktData, v)];
            EW.Run(EW.START, es, window).c == Two([v], In(v, 1), In(v, 1)) && Advances(EW.START, es, window) == []
  {
    BothOpen(v, window);
    Next([], RefData, v, window, Eras.SILENT, []);
    Next([] + [Comes(RefData, v)], MktData, v, window, Two([v], Eras.UNSEEN, In(v, 1)), []);
  }

  lemma {:induction false} GoneAhead(es: seq<EW.Event>, v: u8, w: u8, x: u8, window: nat)
    requires v != w && w != x && v != x
    requires EW.Run(EW.START, es, window).c == Two([v], In(v, 1), In(v, 1)) && Advances(EW.START, es, window) == []
    ensures var es' := es + [Comes(MktData, w)] + [Comes(MktData, x)];
            && EW.Run(EW.START, es', window).c == Two([v, w, x], In(x, 3), In(v, 1))
            && Advances(EW.START, es', window) == [w, x]
  {
    GoesAhead(v, w, x, window);
    Next(es, MktData, w, window, Two([v], In(v, 1), In(v, 1)), []);
    Next(es + [Comes(MktData, w)], MktData, x, window, Two([v, w], In(w, 2), In(v, 1)), [w]);
    assert [] + [w] + [x] == [w, x];
  }

  /** The reference-data port follows through `w`, an era behind: two resets, and
      nothing lost or late, but four wipes, since each advance is compared with the
      last one only. */
  lemma {:induction false} LaggingPortWipesAgain(v: u8, w: u8, x: u8, window: nat)
    requires v != w && w != x && v != x
    ensures var es := Ahead(v, w, x) + [Comes(RefData, w)] + [Comes(RefData, x)];
            && EW.Run(EW.START, es, window).c.log == [v, w, x]
            && Wipes(None, Advances(EW.START, es, window)) == 4
  {
    var es := Ahead(v, w, x);
    Opened(v, window);
    GoneAhead([] + [Comes(RefData, v)] + [Comes(MktData, v)], v, w, x, window);
    Follows(v, w, x, window);
    Next(es, RefData, w, window, Two([v, w, x], In(x, 3), In(v, 1)), [w, x]);
    Next(es + [Comes(RefData, w)], RefData, x, window, Two([v, w, x], In(x, 3), In(w, 2)), [w, x, w]);
    FourWipes(w, x);
  }

  lemma OneAdvance(last: Option<u8>, era: u8)
    ensures Wipes(last, [era]) == if Acts(last, era) then 1 else 0
  {
    assert [era][..0] == [];
  }

  lemma {:induction false} FourWipes(w: u8, x: u8)
    requires w != x
    ensures Wipes(None, [w, x, w] + [x]) == 4
  {
    assert [w, x, w] == [w] + [x] + [w];
    OneAdvance(None, w);
    OneAdvance(Some(w), x);
    OneAdvance(Some(x), w);
    WipesAdd(None, [w], [x]);
    WipesAdd(None, [w] + [x], [w]);
    WipesAdd(None, [w, x, w], [x]);
  }

  // ---- exactly one wipe for each value --------------------------------------------

  function Values(advances: seq<u8>): set<u8> {
    set era | era in advances
  }

  /** All advances into one value come together, across all channels. */
  predicate Grouped(advances: seq<u8>) {
    forall i, j, k :: 0 <= i < j < k < |advances| && advances[i] == advances[k] ==> advances[j] == advances[i]
  }

  lemma {:induction false} GroupedStep(advances: seq<u8>, era: u8)
    ensures Grouped(advances + [era])
      <==> Grouped(advances) && (era in advances ==> advances[|advances| - 1] == era)
  {
    var all := advances + [era];
    assert forall i :: 0 <= i < |advances| ==> all[i] == advances[i];
    if Grouped(all) && era in advances {
      var i :| 0 <= i < |advances| && advances[i] == era;
      assert all[|advances|] == era && all[|advances| - 1] == advances[|advances| - 1];
    }
    if Grouped(advances) && (era in advances ==> advances[|advances| - 1] == era) {
      forall i, j, k | 0 <= i < j < k < |all| && all[i] == all[k] ensures all[j] == all[i] {
        if k == |advances| {
          assert all[i] in advances;
          assert advances[i] == advances[|advances| - 1];
        }
      }
    }
  }

  lemma ValuesStep(advances: seq<u8>, era: u8)
    ensures |Values(advances + [era])| == |Values(advances)| + if era in advances then 0 else 1
  {
    assert Values(advances + [era]) == Values(advances) + {era};
  }

  lemma WipesStep(advances: seq<u8>, era: u8)
    ensures Wipes(None, advances + [era])
      == Wipes(None, advances) + if advances != [] && advances[|advances| - 1] == era then 0 else 1
  {
    assert (advances + [era])[..|advances|] == advances;
  }

  /** The advances of all channels together wipe at least once for each value, and
      only once for each exactly if those into one value all come together. */
  lemma {:induction false} WipesOnceExactly(advances: seq<u8>)
    ensures Wipes(None, advances) >= |Values(advances)|
    ensures Wipes(None, advances) == |Values(advances)| <==> Grouped(advances)
  {
    if advances == [] {
      assert Values(advances) == {};
    } else {
      var init, era := advances[..|advances| - 1], advances[|advances| - 1];
      assert init + [era] == advances;
      WipesOnceExactly(init);
      WipesStep(init, era);
      GroupedStep(init, era);
      ValuesStep(init, era);
    }
  }
}
