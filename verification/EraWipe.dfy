/** Discarding market-by-price state on a Reset Count change (`mbpObserveEra`
    in `engine/mbp.go`), driven by every accepted frame of all three ports of
    one source and channel. */
module EraWipe {
  import opened Core
  import Eras
  import MbpInstr
  import MbpGroups

  /** What one channel remembers: the latest ordinal acted on, the Reset Count
      its state is built for, and the one it left at its last wipe. */
  datatype Memory = Memory(seen: Option<nat>, resetCount: Option<u8>, leftCount: Option<u8>)

  const BLANK := Memory(None, None, None)

  datatype Observed = Observed(m: Memory, wiped: bool)

  function Observe(m: Memory, era: u8, ordinal: nat): Observed {
    if m.seen.Some? && ordinal <= m.seen.value then Observed(m, false)
    else if m.seen.None? && m.leftCount == Some(era) then Observed(m.(seen := Some(ordinal)), false)
    else if m.resetCount.None? || m.resetCount == Some(era) then
      Observed(Memory(Some(ordinal), Some(era), m.leftCount), false)
    else Observed(Memory(Some(ordinal), Some(era), m.resetCount), true)
  }

  datatype InstrKey = InstrKey(ch: u8, instrID: u32)

  /** The per-channel state of the consumer and its reset bookkeeping. `seen`
      belongs to one source address; the maps are keyed by channel. */
  class State {
    var instr: map<InstrKey, MbpInstr.Instr>
    var open: map<u8, MbpGroups.Open>
    var seen: Option<nat>
    var resetCount: map<u8, u8>
    var leftCount: map<u8, u8>

    ghost function MemoryOf(ch: u8): Memory
      reads this
    {
      Memory(seen,
        if ch in resetCount then Some(resetCount[ch]) else None,
        if ch in leftCount then Some(leftCount[ch]) else None)
    }

    /** Drops one channel's instruments and its group in flight, and no other's. */
    method WipeChannel(ch: u8)
      modifies this`instr, this`open
      ensures instr == map k | k in old(instr) && k.ch != ch :: old(instr)[k]
      ensures open == old(open) - {ch}
    {
      var todo := instr.Keys;
      while todo != {}
        invariant todo <= instr.Keys
        invariant instr.Keys <= old(instr).Keys && open == old(open)
        invariant forall k :: k in instr ==> instr[k] == old(instr)[k]
        invariant forall k :: k in old(instr) && k.ch != ch ==> k in instr
        invariant forall k :: k in instr && k.ch == ch ==> k in todo
        decreases todo
      {
        var k :| k in todo;
        todo := todo - {k};
        if k.ch == ch {
          instr := instr - {k};
        }
      }
      open := open - {ch};
    }

    /** Two tables agree on every channel but one. */
    static predicate Elsewhere(now: map<u8, u8>, was: map<u8, u8>, ch: u8) {
      now - {ch} == was - {ch}
    }

    method ObserveEra(ch: u8, era: u8, ordinal: nat, port: Port) returns (taintSnapshot: bool)
      modifies this
      ensures MemoryOf(ch) == Observe(old(MemoryOf(ch)), era, ordinal).m
      ensures var wiped := Observe(old(MemoryOf(ch)), era, ordinal).wiped;
              && taintSnapshot == (wiped && port != Snapshot)
              && (forall k :: k in instr <==> k in old(instr) && !(wiped && k.ch == ch))
              && (forall k :: k in instr ==> instr[k] == old(instr)[k])
              && open == if wiped then old(open) - {ch} else old(open)
      ensures Elsewhere(resetCount, old(resetCount), ch) && Elsewhere(leftCount, old(leftCount), ch)
    {
      if seen.Some? && ordinal <= seen.value {
        return false;
      }
      var first := seen.None?;
      seen := Some(ordinal);
      if first && ch in leftCount && leftCount[ch] == era {
        return false;
      }
      var known := ch in resetCount;
      var last := if known then resetCount[ch] else 0;
      resetCount := resetCount[ch := era];
      if !known || last == era {
        return false;
      }
      leftCount := leftCount[ch := last];
      WipeChannel(ch);
      return port != Snapshot;
    }
  }

  // ---- exactly which frames wipe ------------------------------------------

  /** A classified frame, by the era its port was in. */
  datatype Seen = Seen(era: u8, ordinal: nat)

  function Replayed(fs: seq<Seen>): Memory {
    if fs == [] then BLANK
    else Observe(Replayed(fs[..|fs| - 1]), fs[|fs| - 1].era, fs[|fs| - 1].ordinal).m
  }

  function Wipes(fs: seq<Seen>): nat {
    if fs == [] then 0
    else
      var init, f := fs[..|fs| - 1], fs[|fs| - 1];
      Wipes(init) + (if Observe(Replayed(init), f.era, f.ordinal).wiped then 1 else 0)
  }

  /** The frames that were ahead of every frame before them. */
  function Leaders(fs: seq<Seen>): seq<Seen> {
    if fs == [] then []
    else
      var l, f := Leaders(fs[..|fs| - 1]), fs[|fs| - 1];
      if l == [] || f.ordinal > l[|l| - 1].ordinal then l + [f] else l
  }

  /** How often consecutive leaders carry different Reset Counts. */
  function Changes(l: seq<Seen>): nat {
    if |l| < 2 then 0
    else Changes(l[..|l| - 1]) + (if l[|l| - 2].era != l[|l| - 1].era then 1 else 0)
  }

  /** The state is wiped exactly where a frame from a later era than any before
      it brings a new Reset Count. A frame of a port that is still behind wipes
      nothing, and no era is wiped for twice. */
  lemma {:induction false} WipesFollowLeaders(fs: seq<Seen>)
    ensures Wipes(fs) == Changes(Leaders(fs))
    ensures var l := Leaders(fs);
            Replayed(fs).seen == (if l == [] then None else Some(l[|l| - 1].ordinal))
            && Replayed(fs).resetCount == (if l == [] then None else Some(l[|l| - 1].era))
            && (l == [] ==> Replayed(fs).leftCount == None)
  {
    if fs != [] {
      var init := fs[..|fs| - 1];
      WipesFollowLeaders(init);
      var l := Leaders(init);
      assert (l + [fs[|fs| - 1]])[..|l|] == l;
    }
  }

  // ---- several source addresses ---------------------------------------------

  /** The first frame of an address, over state that another one left: it wipes if and
      only if state was built, for another Reset Count, and its own is not the one the
      channel left last. */
  lemma FreshAddressWipesExactly(m: Memory, era: u8, ordinal: nat)
    requires m.seen.None?
    ensures Observe(m, era, ordinal).wiped
      <==> m.resetCount.Some? && m.resetCount != Some(era) && m.leftCount != Some(era)
  {
  }

  /** An address that is behind the reset wipes nothing, when it is first heard and
      when it enters the era the state is built for. */
  lemma AddressBehindWipesNothing(v: u8, w: u8, n: nat, later: nat)
    requires v != w && n < later
    ensures var o := Observe(Memory(None, Some(w), Some(v)), v, n);
            && !o.wiped && o.m == Memory(Some(n), Some(w), Some(v))
            && !Observe(o.m, w, later).wiped && Observe(o.m, w, later).m == Memory(Some(later), Some(w), Some(v))
  {
  }

  // ---- one reset, crossed by three ports ----------------------------------

  /** A datagram arrives at a port, or the port classifies an accepted frame. */
  datatype Event = Arrives(d: Eras.Datagram) | Classifies(port: Port)

  datatype System = System(c: Eras.Channel, classified: seq<Seen>)

  predicate Enabled(y: System, e: Event) {
    e.Classifies? ==> y.c.At(e.port).seen
  }

  function Step(y: System, e: Event, window: nat): System {
    match e
    case Arrives(d) => System(Eras.Step(y.c, d, window), y.classified)
    case Classifies(port) => System(y.c, y.classified + [Seen(y.c.At(port).era, y.c.At(port).eraPos)])
  }

  /** Before anything has arrived. */
  const START := System(Eras.SILENT, [])

  function Run(y: System, es: seq<Event>, window: nat): System {
    if es == [] then y else Step(Run(y, es[..|es| - 1], window), es[|es| - 1], window)
  }

  predicate CanRun(y: System, es: seq<Event>, window: nat) {
    forall i :: 0 <= i < |es| ==> Enabled(Run(y, es[..i], window), es[i])
  }

  /** Every port heard so far is in `v`, the era entered last. */
  predicate Settled(c: Eras.Channel, v: u8) {
    && c.log != [] && c.log[|c.log| - 1] == v
    && forall port :: c.At(port).seen ==> c.At(port).era == v && c.At(port).eraPos == |c.log|
  }

  /** Where a port stands, a datagram of `w` is no straggler: the channel has not
      used that Reset Count, or not since before the era the port came from. */
  predicate NewTo(p: Eras.PortEra, log: Eras.Log, w: u8) {
    Eras.Ordinal(log, w) == 0 || (p.seen && Eras.Ordinal(log, w) < p.floorPos)
  }

  predicate AtRest(c: Eras.Channel, v: u8, w: u8) {
    v != w && Settled(c, v) && forall port :: NewTo(c.At(port), c.log, w)
  }

  /** How many datagrams of the left era a port that already crossed has met
      since its last datagram of the new one. */
  function Stragglers(es: seq<Event>, port: Port, left: u8): Option<nat> {
    if es == [] then None
    else
      var init, e := es[..|es| - 1], es[|es| - 1];
      var n := Stragglers(init, port, left);
      if !e.Arrives? || e.d.port != port then n
      else if e.d.era != left then Some(0)
      else if n.Some? then Some(n.value + 1) else None
  }

  /** The channel goes from `v` to `w`: every datagram is of one of the two, and
      no straggler run outlasts the window. */
  predicate Crossing(es: seq<Event>, v: u8, w: u8, window: nat) {
    && (forall i :: 0 <= i < |es| && es[i].Arrives? ==> es[i].d.era == v || es[i].d.era == w)
    && (forall i, port :: 0 <= i <= |es| ==>
          var n := Stragglers(es[..i], port, v); n.Some? ==> n.value <= Eras.Limit(window))
  }

  /** A port that crosses from `v`, the last of `from`, to `w`. */
  predicate PortCrosses(p: Eras.PortEra, from: Eras.Log, log: Eras.Log, v: u8, w: u8, met: Option<nat>) {
    if !p.seen then met.None? && NewTo(p, from, w)
    else if p.era == v then p.eraPos == |from| && met.None? && NewTo(p, from, w)
    else
      p.era == w && p.eraPos == |from| + 1 && p.floorPos == |from| && log == from + [w] && met == Some(p.stragglers)
  }

  /** The order of the two eras, as far as the crossing has come. */
  predicate CrossLog(from: Eras.Log, log: Eras.Log, v: u8, w: u8) {
    v != w && from != [] && from[|from| - 1] == v && (log == from || log == from + [w])
  }

  predicate CrossInv(c: Eras.Channel, from: Eras.Log, es: seq<Event>, v: u8, w: u8) {
    CrossLog(from, c.log, v, w)
    && forall port :: PortCrosses(c.At(port), from, c.log, v, w, Stragglers(es, port, v))
  }

  lemma OrdinalsAcross(from: Eras.Log, log: Eras.Log, v: u8, w: u8)
    requires CrossLog(from, log, v, w)
    ensures Eras.Ordinal(log, v) == |from|
    ensures Eras.Ordinal(log, w) == if log == from then Eras.Ordinal(from, w) else |from| + 1
    ensures Eras.Ordinal(from, w) < |from|
  {
    assert (from + [w])[..|from|] == from;
  }

  lemma {:induction false} UnseenPortDecides(
    p: Eras.PortEra, from: Eras.Log, log: Eras.Log, v: u8, w: u8, era: u8, window: nat)
    requires CrossLog(from, log, v, w) && !p.seen && NewTo(p, from, w) && (era == v || era == w)
    ensures var o := Eras.OnDatagram(p, log, era, window);
            PortCrosses(o.p, from, o.log, v, w, if era == v then None else Some(0)) && CrossLog(from, o.log, v, w)
            && log <= o.log
  {
    OrdinalsAcross(from, log, v, w);
    var s := Eras.Seed(p, log, era);
    OrdinalsAcross(from, s.log, v, w);
  }

  lemma {:induction false} OldPortDecides(
    p: Eras.PortEra, from: Eras.Log, log: Eras.Log, v: u8, w: u8, era: u8, window: nat)
    requires CrossLog(from, log, v, w) && p.seen && p.era == v && PortCrosses(p, from, log, v, w, None)
    requires era == v || era == w
    ensures var o := Eras.OnDatagram(p, log, era, window);
            PortCrosses(o.p, from, o.log, v, w, if era == v then None else Some(0)) && CrossLog(from, o.log, v, w)
            && log <= o.log
  {
    OrdinalsAcross(from, log, v, w);
  }

  lemma {:induction false} NewPortDecides(
    p: Eras.PortEra, from: Eras.Log, log: Eras.Log, v: u8, w: u8, era: u8, n: nat, window: nat)
    requires CrossLog(from, log, v, w) && p.seen && p.era == w && PortCrosses(p, from, log, v, w, Some(n))
    requires era == w || (era == v && n < Eras.Limit(window))
    ensures var o := Eras.OnDatagram(p, log, era, window);
            PortCrosses(o.p, from, o.log, v, w, Some(if era == w then 0 else n + 1)) && o.log == log
  {
    OrdinalsAcross(from, log, v, w);
  }

  lemma {:induction false} PortCrossesStep(
    p: Eras.PortEra, from: Eras.Log, log: Eras.Log, v: u8, w: u8, met: Option<nat>, era: u8, window: nat)
    requires CrossLog(from, log, v, w) && PortCrosses(p, from, log, v, w, met)
    requires era == v || era == w
    requires met.Some? && era == v ==> met.value < Eras.Limit(window)
    ensures var o := Eras.OnDatagram(p, log, era, window);
            var met' := if era != v then Some(0) else if met.Some? then Some(met.value + 1) else None;
            PortCrosses(o.p, from, o.log, v, w, met') && CrossLog(from, o.log, v, w) && log <= o.log
  {
    if !p.seen {
      UnseenPortDecides(p, from, log, v, w, era, window);
    } else if p.era == v {
      OldPortDecides(p, from, log, v, w, era, window);
    } else {
      NewPortDecides(p, from, log, v, w, era, p.stragglers, window);
    }
  }

  lemma {:induction false} PortCrossesOn(
    p: Eras.PortEra, from: Eras.Log, log: Eras.Log, es: seq<Event>, e: Event, v: u8, w: u8, window: nat)
    requires e.Arrives? && (e.d.era == v || e.d.era == w)
    requires CrossLog(from, log, v, w) && PortCrosses(p, from, log, v, w, Stragglers(es, e.d.port, v))
    requires var n := Stragglers(es, e.d.port, v); n.Some? && e.d.era == v ==> n.value < Eras.Limit(window)
    ensures var o := Eras.OnDatagram(p, log, e.d.era, window);
            && PortCrosses(o.p, from, o.log, v, w, Stragglers(es + [e], e.d.port, v))
            && CrossLog(from, o.log, v, w) && log <= o.log
  {
    MetStep(es, e, e.d.port, v);
    PortCrossesStep(p, from, log, v, w, Stragglers(es, e.d.port, v), e.d.era, window);
  }

  lemma {:induction false} CrossInvStep(
    from: Eras.Log, es: seq<Event>, e: Event, c: Eras.Channel, v: u8, w: u8, window: nat)
    requires CrossInv(c, from, es, v, w) && e.Arrives? && (e.d.era == v || e.d.era == w)
    requires var n := Stragglers(es, e.d.port, v); n.Some? && e.d.era == v ==> n.value < Eras.Limit(window)
    ensures CrossInv(Eras.Step(c, e.d, window), from, es + [e], v, w)
    ensures c.log <= Eras.Step(c, e.d, window).log
  {
    var port := e.d.port;
    var o := Eras.OnDatagram(c.At(port), c.log, e.d.era, window);
    assert PortCrosses(c.At(port), from, c.log, v, w, Stragglers(es, port, v));
    PortCrossesOn(c.At(port), from, c.log, es, e, v, w, window);
    PortGoes(from, es, e, c, o.p, o.log, v, w, Eras.Step(c, e.d, window));
  }

  lemma {:induction false} PortGoes(
    from: Eras.Log, es: seq<Event>, e: Event, c: Eras.Channel, p: Eras.PortEra, log: Eras.Log, v: u8, w: u8,
    c': Eras.Channel)
    requires CrossInv(c, from, es, v, w) && e.Arrives?
    requires c.log <= log && CrossLog(from, log, v, w)
    requires PortCrosses(p, from, log, v, w, Stragglers(es + [e], e.d.port, v))
    requires c' == c.With(e.d.port, p, log)
    ensures CrossInv(c', from, es + [e], v, w) && c.log <= c'.log
  {
    AllCross(from, es, e, c, p, log, v, w);
  }

  lemma {:induction false} AllCross(
    from: Eras.Log, es: seq<Event>, e: Event, c: Eras.Channel, p: Eras.PortEra, log: Eras.Log, v: u8, w: u8)
    requires CrossInv(c, from, es, v, w) && e.Arrives?
    requires c.log <= log && CrossLog(from, log, v, w)
    requires PortCrosses(p, from, log, v, w, Stragglers(es + [e], e.d.port, v))
    ensures CrossInv(c.With(e.d.port, p, log), from, es + [e], v, w)
  {
    forall port
      ensures PortCrosses(c.With(e.d.port, p, log).At(port), from, log, v, w, Stragglers(es + [e], port, v))
    {
      if port != e.d.port {
        MetStep(es, e, port, v);
        assert PortCrosses(c.At(port), from, c.log, v, w, Stragglers(es, port, v));
      }
    }
  }

  lemma MetStep(es: seq<Event>, e: Event, port: Port, v: u8)
    requires e.Arrives?
    ensures var met := Stragglers(es, port, v);
            Stragglers(es + [e], port, v) ==
            if e.d.port != port then met
            else if e.d.era != v then Some(0)
            else if met.Some? then Some(met.value + 1) else None
  {
    assert (es + [e])[..|es|] == es;
  }

  /** Frames classified during the crossing: of the old era, the `n`-th, or of the
      new one, the next. */
  predicate TwoEras(fs: seq<Seen>, v: u8, w: u8, n: nat) {
    forall f :: f in fs ==> f == Seen(v, n) || f == Seen(w, n + 1)
  }

  lemma CrossingInit(es: seq<Event>, v: u8, w: u8, window: nat)
    requires es != [] && Crossing(es, v, w, window)
    ensures Crossing(es[..|es| - 1], v, w, window)
  {
    var init := es[..|es| - 1];
    forall i | 0 <= i < |init| && init[i].Arrives? ensures init[i].d.era == v || init[i].d.era == w {
      assert init[i] == es[i];
    }
    forall i, port | 0 <= i <= |init|
      ensures var n := Stragglers(init[..i], port, v); n.Some? ==> n.value <= Eras.Limit(window)
    {
      assert init[..i] == es[..i];
    }
  }

  lemma {:induction false} CanRunInit(y: System, es: seq<Event>, window: nat)
    requires es != [] && CanRun(y, es, window)
    ensures CanRun(y, es[..|es| - 1], window) && Enabled(Run(y, es[..|es| - 1], window), es[|es| - 1])
  {
    var init := es[..|es| - 1];
    forall i | 0 <= i < |init| ensures Enabled(Run(y, init[..i], window), init[i]) { assert init[..i] == es[..i]; }
  }

  /** What the run has classified beyond `y`. */
  function Since(y: System, y': System): seq<Seen> {
    if |y.classified| <= |y'.classified| then y'.classified[|y.classified|..] else []
  }

  predicate Crossed(y: System, es: seq<Event>, y': System, v: u8, w: u8) {
    && CrossInv(y'.c, y.c.log, es, v, w)
    && y.classified <= y'.classified && TwoEras(Since(y, y'), v, w, |y.c.log|)
    && (Seen(w, |y.c.log| + 1) in Since(y, y') ==> y'.c.log == y.c.log + [w])
  }

  lemma {:induction false} CrossingKeeps(y: System, es: seq<Event>, v: u8, w: u8, window: nat)
    requires AtRest(y.c, v, w) && Crossing(es, v, w, window) && CanRun(y, es, window)
    ensures Crossed(y, es, Run(y, es, window), v, w)
  {
    if es == [] {
      CrossingBegins(y, v, w);
    } else {
      var init, e := es[..|es| - 1], es[|es| - 1];
      assert init + [e] == es;
      CrossingInit(es, v, w, window);
      CanRunInit(y, es, window);
      CrossingKeeps(y, init, v, w, window);
      CrossingStep(y, init, e, Run(y, init, window), v, w, window);
    }
  }

  lemma {:induction false} CrossingBegins(y: System, v: u8, w: u8)
    requires AtRest(y.c, v, w)
    ensures Crossed(y, [], y, v, w)
  {
    forall port ensures PortCrosses(y.c.At(port), y.c.log, y.c.log, v, w, Stragglers([], port, v)) {
      assert NewTo(y.c.At(port), y.c.log, w);
    }
  }

  lemma {:induction false} CrossingStep(
    y0: System, es: seq<Event>, e: Event, y: System, v: u8, w: u8, window: nat)
    requires Enabled(y, e) && Crossing(es + [e], v, w, window) && Crossed(y0, es, y, v, w)
    ensures Crossed(y0, es + [e], Step(y, e, window), v, w)
  {
    var all := es + [e];
    assert all[|es|] == e && all[..|all|] == all;
    if e.Arrives? {
      var port := e.d.port;
      assert Stragglers(all, port, v).Some? ==> Stragglers(all, port, v).value <= Eras.Limit(window);
      MetStep(es, e, port, v);
      CrossInvStep(y0.c.log, es, e, y.c, v, w, window);
    } else {
      ClassifyingKeeps(y0, es, e, y, v, w, window);
    }
  }

  lemma ClassifyingMeetsNone(es: seq<Event>, e: Event, port: Port, v: u8)
    requires e.Classifies?
    ensures Stragglers(es + [e], port, v) == Stragglers(es, port, v)
  {
    assert (es + [e])[..|es|] == es;
  }

  lemma {:induction false} ClassifyingKeepsPorts(
    from: Eras.Log, es: seq<Event>, e: Event, c: Eras.Channel, v: u8, w: u8)
    requires e.Classifies? && CrossInv(c, from, es, v, w)
    ensures CrossInv(c, from, es + [e], v, w)
  {
    forall port ensures PortCrosses(c.At(port), from, c.log, v, w, Stragglers(es + [e], port, v)) {
      ClassifyingMeetsNone(es, e, port, v);
      assert PortCrosses(c.At(port), from, c.log, v, w, Stragglers(es, port, v));
    }
  }

  lemma {:induction false} FrameOfTwo(from: Eras.Log, es: seq<Event>, c: Eras.Channel, port: Port, v: u8, w: u8)
    requires CrossInv(c, from, es, v, w) && c.At(port).seen
    ensures var f := Seen(c.At(port).era, c.At(port).eraPos);
            f == Seen(v, |from|) || (f == Seen(w, |from| + 1) && c.log == from + [w])
  {
    assert PortCrosses(c.At(port), from, c.log, v, w, Stragglers(es, port, v));
  }

  lemma {:induction false} ClassifyingKeeps(
    y0: System, es: seq<Event>, e: Event, y: System, v: u8, w: u8, window: nat)
    requires e.Classifies? && Enabled(y, e) && Crossed(y0, es, y, v, w)
    ensures Crossed(y0, es + [e], Step(y, e, window), v, w)
  {
    ClassifyingKeepsPorts(y0.c.log, es, e, y.c, v, w);
    FrameOfTwo(y0.c.log, es, y.c, e.port, v, w);
    var f := Seen(y.c.At(e.port).era, y.c.At(e.port).eraPos);
    assert Since(y0, Step(y, e, window)) == Since(y0, y) + [f];
  }

  // ---- the wipes of a crossing ----------------------------------------------

  /** The state is built for `v`, the `n`-th era, or nothing was classified yet. */
  predicate Built(fs: seq<Seen>, v: u8, n: nat) {
    fs == [] || StandsAt(Replayed(fs), v, n)
  }

  /** The same memory and wipes, from a memory on. */
  function ReplayedOn(m: Memory, fs: seq<Seen>): Memory {
    if fs == [] then m
    else Observe(ReplayedOn(m, fs[..|fs| - 1]), fs[|fs| - 1].era, fs[|fs| - 1].ordinal).m
  }

  function WipesOn(m: Memory, fs: seq<Seen>): nat {
    if fs == [] then 0
    else
      var init, f := fs[..|fs| - 1], fs[|fs| - 1];
      WipesOn(m, init) + (if Observe(ReplayedOn(m, init), f.era, f.ordinal).wiped then 1 else 0)
  }

  lemma {:induction false} ReplayAdds(a: seq<Seen>, b: seq<Seen>)
    ensures Replayed(a + b) == ReplayedOn(Replayed(a), b)
    ensures Wipes(a + b) == Wipes(a) + WipesOn(Replayed(a), b)
  {
    if b == [] {
      assert a + b == a;
    } else {
      ReplayAdds(a, b[..|b| - 1]);
      assert (a + b)[..|a + b| - 1] == a + b[..|b| - 1];
    }
  }

  predicate StandsAt(m: Memory, v: u8, n: nat) {
    m.seen == Some(n) && m.resetCount == Some(v)
  }

  lemma {:induction false} ObserveOfTwo(m: Memory, f: Seen, v: u8, w: u8, n: nat)
    requires v != w && (f == Seen(v, n) || f == Seen(w, n + 1))
    requires m == BLANK || StandsAt(m, v, n) || StandsAt(m, w, n + 1)
    ensures var o := Observe(m, f.era, f.ordinal);
            && (o.wiped <==> StandsAt(m, v, n) && f == Seen(w, n + 1))
            && if StandsAt(m, w, n + 1) || f == Seen(w, n + 1) then StandsAt(o.m, w, n + 1) else StandsAt(o.m, v, n)
  {
  }

  /** Whether a wipe is due: old state, and a new frame to discard it. */
  predicate Due(blank: bool, fs: seq<Seen>, v: u8, w: u8, n: nat) {
    Seen(w, n + 1) in fs && (!blank || fs[0].era == v)
  }

  lemma {:induction false} DueStep(blank: bool, fs: seq<Seen>, f: Seen, v: u8, w: u8, n: nat)
    requires v != w && TwoEras(fs, v, w, n)
    ensures Due(blank, fs + [f], v, w, n)
      <==> Due(blank, fs, v, w, n) || (f == Seen(w, n + 1) && f !in fs && !(blank && fs == []))
  {
    var all := fs + [f];
    assert f in all && forall x :: x in all <==> x in fs || x == f;
    if fs == [] { assert all[0] == f; } else { assert all[0] == fs[0] && fs[0] in fs; }
  }

  /** Where the memory stands after frames of the two eras. */
  predicate TwoErasStand(blank: bool, m: Memory, fs: seq<Seen>, v: u8, w: u8, n: nat) {
    if Seen(w, n + 1) in fs then StandsAt(m, w, n + 1)
    else if blank && fs == [] then m == BLANK
    else StandsAt(m, v, n)
  }

  lemma {:induction false} TwoErasStep(blank: bool, m: Memory, fs: seq<Seen>, f: Seen, v: u8, w: u8, n: nat)
    requires v != w && TwoEras(fs, v, w, n) && (f == Seen(v, n) || f == Seen(w, n + 1))
    requires TwoErasStand(blank, m, fs, v, w, n)
    ensures var o := Observe(m, f.era, f.ordinal);
            && TwoErasStand(blank, o.m, fs + [f], v, w, n)
            && (o.wiped <==> Due(blank, fs + [f], v, w, n) && !Due(blank, fs, v, w, n))
    ensures Due(blank, fs, v, w, n) ==> Due(blank, fs + [f], v, w, n)
  {
    ObserveOfTwo(m, f, v, w, n);
    DueStep(blank, fs, f, v, w, n);
    assert Seen(w, n + 1) in fs + [f] <==> Seen(w, n + 1) in fs || f == Seen(w, n + 1);
  }

  lemma {:induction false} TwoErasWipe(m: Memory, fs: seq<Seen>, v: u8, w: u8, n: nat)
    requires v != w && (m == BLANK || StandsAt(m, v, n)) && TwoEras(fs, v, w, n)
    ensures TwoErasStand(m == BLANK, ReplayedOn(m, fs), fs, v, w, n)
    ensures WipesOn(m, fs) == if Due(m == BLANK, fs, v, w, n) then 1 else 0
  {
    if fs != [] {
      var init, f := fs[..|fs| - 1], fs[|fs| - 1];
      assert f in fs && forall x :: x in init ==> x in fs;
      TwoErasWipe(m, init, v, w, n);
      TwoErasStep(m == BLANK, ReplayedOn(m, init), init, f, v, w, n);
      assert init + [f] == fs;
    }
  }

  lemma {:induction false} AddedWipes(before: seq<Seen>, fs: seq<Seen>, v: u8, w: u8, n: nat)
    requires v != w && Built(before, v, n) && TwoEras(fs, v, w, n)
    ensures Wipes(before + fs) == Wipes(before) + if Due(before == [], fs, v, w, n) then 1 else 0
    ensures Seen(w, n + 1) in fs ==> StandsAt(Replayed(before + fs), w, n + 1)
  {
    var m := Replayed(before);
    assert m == BLANK <==> before == [];
    ReplayAdds(before, fs);
    TwoErasWipe(m, fs, v, w, n);
  }

  lemma {:induction false} CrossedWipes(y: System, es: seq<Event>, y': System, v: u8, w: u8)
    requires v != w && Built(y.classified, v, |y.c.log|) && Crossed(y, es, y', v, w)
    ensures Wipes(y'.classified)
      == Wipes(y.classified) + if Due(y.classified == [], Since(y, y'), v, w, |y.c.log|) then 1 else 0
    ensures Seen(w, |y.c.log| + 1) in Since(y, y') ==>
              y'.classified != [] && Built(y'.classified, w, |y'.c.log|)
  {
    assert y'.classified == y.classified + Since(y, y');
    AddedWipes(y.classified, Since(y, y'), v, w, |y.c.log|);
  }

  /** One wipe per reset, the first of a channel's life or any later one: whatever
      the order in which the ports cross and the frames are classified, the state
      built for the old era is discarded exactly once, and only if there was such
      state and a new frame to discard it. */
  lemma {:induction false} CrossingWipesOnce(y: System, es: seq<Event>, v: u8, w: u8, window: nat)
    requires AtRest(y.c, v, w) && Built(y.classified, v, |y.c.log|)
    requires Crossing(es, v, w, window) && CanRun(y, es, window)
    ensures var y' := Run(y, es, window);
            && y.classified <= y'.classified
            && Wipes(y'.classified) == Wipes(y.classified)
                 + if Due(y.classified == [], Since(y, y'), v, w, |y.c.log|) then 1 else 0
  {
    CrossingKeeps(y, es, v, w, window);
    CrossedWipes(y, es, Run(y, es, window), v, w);
  }

  predicate AllIn(c: Eras.Channel, w: u8) {
    forall port :: c.At(port).seen ==> c.At(port).era == w
  }

  predicate AllSeen(c: Eras.Channel) {
    forall port :: c.At(port).seen
  }

  lemma {:induction false} NextNew(p: Eras.PortEra, from: Eras.Log, v: u8, w: u8, x: u8, met: Option<nat>)
    requires CrossLog(from, from + [w], v, w) && PortCrosses(p, from, from + [w], v, w, met)
    requires p.seen ==> p.era == w
    ensures w != x && NewTo(p, from + [w], x)
      <==> w != x && if p.seen then x != v else Eras.Ordinal(from + [w], x) == 0
  {
    OrdinalsAcross(from, from + [w], v, w);
    assert (from + [w])[..|from|] == from;
  }

  /** Once every port heard has crossed, the channel is at rest again: any Reset
      Count but the last two starts the next crossing, as long as no port is still
      unheard or the channel never used it. */
  lemma {:induction false} CrossingEndsAtRest(
    y: System, es: seq<Event>, v: u8, w: u8, window: nat, x: u8, port: Port)
    requires AtRest(y.c, v, w) && Crossing(es, v, w, window) && CanRun(y, es, window)
    requires var c := Run(y, es, window).c; AllIn(c, w) && c.At(port).seen
    ensures var c := Run(y, es, window).c;
            && c.log == y.c.log + [w]
            && (AtRest(c, w, x) <==> x != v && x != w && (AllSeen(c) || Eras.Ordinal(c.log, x) == 0))
  {
    var c := Run(y, es, window).c;
    CrossingKeeps(y, es, v, w, window);
    assert PortCrosses(c.At(port), y.c.log, c.log, v, w, Stragglers(es, port, v));
    forall q
      ensures c.At(q).seen ==> c.At(q).era == w && c.At(q).eraPos == |c.log|
      ensures w != x && NewTo(c.At(q), c.log, x)
        <==> w != x && if c.At(q).seen then x != v else Eras.Ordinal(c.log, x) == 0
    {
      assert PortCrosses(c.At(q), y.c.log, c.log, v, w, Stragglers(es, q, v));
      NextNew(c.At(q), y.c.log, v, w, x, Stragglers(es, q, v));
    }
    SettledNext(c, v, w, x, port);
  }

  lemma SettledNext(c: Eras.Channel, v: u8, w: u8, x: u8, port: Port)
    requires c.log != [] && c.log[|c.log| - 1] == w && c.At(port).seen
    requires forall q :: c.At(q).seen ==> c.At(q).era == w && c.At(q).eraPos == |c.log|
    requires forall q :: w != x && NewTo(c.At(q), c.log, x)
               <==> w != x && if c.At(q).seen then x != v else Eras.Ordinal(c.log, x) == 0
    requires v != w && (Eras.Ordinal(c.log, x) == 0 ==> x != v)
    ensures AtRest(c, w, x) <==> x != v && x != w && (AllSeen(c) || Eras.Ordinal(c.log, x) == 0)
  {
  }

  // ---- any number of resets --------------------------------------------------

  datatype Leg = Leg(es: seq<Event>, to: u8)

  function RunLegs(y: System, legs: seq<Leg>, window: nat): System
    decreases legs
  {
    if legs == [] then y else RunLegs(Run(y, legs[0].es, window), legs[1..], window)
  }

  /** One reset after another, each crossed by every port heard and met by at
      least one new frame before the next. */
  predicate Legs(y: System, v: u8, legs: seq<Leg>, window: nat)
    decreases legs
  {
    legs == [] ||
    var y', w := Run(y, legs[0].es, window), legs[0].to;
    && AtRest(y.c, v, w) && Crossing(legs[0].es, v, w, window) && CanRun(y, legs[0].es, window)
    && AllIn(y'.c, w) && Seen(w, |y.c.log| + 1) in Since(y, y')
    && Legs(y', w, legs[1..], window)
  }

  lemma {:induction false} LegBuilds(y: System, v: u8, leg: Leg, window: nat)
    requires y.classified != [] && Built(y.classified, v, |y.c.log|)
    requires AtRest(y.c, v, leg.to) && Crossing(leg.es, v, leg.to, window) && CanRun(y, leg.es, window)
    requires var y' := Run(y, leg.es, window); AllIn(y'.c, leg.to) && Seen(leg.to, |y.c.log| + 1) in Since(y, y')
    ensures var y' := Run(y, leg.es, window);
            && Wipes(y'.classified) == Wipes(y.classified) + 1
            && y'.classified != [] && Built(y'.classified, leg.to, |y'.c.log|)
  {
    var y' := Run(y, leg.es, window);
    CrossingWipesOnce(y, leg.es, v, leg.to, window);
    CrossingKeeps(y, leg.es, v, leg.to, window);
    CrossedWipes(y, leg.es, y', v, leg.to);
  }

  /** Over any number of resets, as many wipes. */
  lemma {:induction false} EveryResetWipesOnce(y: System, v: u8, legs: seq<Leg>, window: nat)
    requires y.classified != [] && Built(y.classified, v, |y.c.log|) && Legs(y, v, legs, window)
    ensures Wipes(RunLegs(y, legs, window).classified) == Wipes(y.classified) + |legs|
    decreases legs
  {
    if legs != [] {
      LegBuilds(y, v, legs[0], window);
      EveryResetWipesOnce(Run(y, legs[0].es, window), legs[0].to, legs[1..], window);
    }
  }

  // ---- ports that sleep through eras -------------------------------------------

  /** No Reset Count was taken for a new era twice. */
  predicate Distinct(log: Eras.Log) {
    forall i, j :: 0 <= i < j < |log| ==> log[i] != log[j]
  }

  /** A datagram of an era this port has yet to reach or is in, or one that it
      quarantines. */
  predicate Timely(p: Eras.PortEra, log: Eras.Log, era: u8, window: nat) {
    var n := Eras.Ordinal(log, era);
    n == 0 || !p.seen || p.eraPos <= n || (p.floorPos <= n && p.stragglers < Eras.Limit(window))
  }

  lemma OrdinalOf(log: Eras.Log, i: nat)
    requires Distinct(log) && i < |log|
    ensures Eras.Ordinal(log, log[i]) == i + 1
  {
  }

  lemma DistinctSnoc(log: Eras.Log, era: u8)
    requires Distinct(log)
    ensures Distinct(log + [era]) <==> Eras.Ordinal(log, era) == 0
  {
    var n := Eras.Ordinal(log, era);
    if n > 0 { assert (log + [era])[n - 1] == (log + [era])[|log|]; }
  }

  /** A datagram makes the channel take an old Reset Count for a new era exactly
      when it is not timely. */
  lemma {:induction false} TimelyExactly(p: Eras.PortEra, log: Eras.Log, era: u8, window: nat)
    requires Eras.PortInv(p, log, window) && Distinct(log)
    ensures Distinct(Eras.OnDatagram(p, log, era, window).log) <==> Timely(p, log, era, window)
  {
    DistinctSnoc(log, era);
    if p.seen {
      OrdinalOf(log, p.eraPos - 1);
    } else {
      UnseenIsTimely(p, log, era, window);
    }
  }

  lemma {:induction false} UnseenIsTimely(p: Eras.PortEra, log: Eras.Log, era: u8, window: nat)
    requires !p.seen && Distinct(log)
    ensures Distinct(Eras.OnDatagram(p, log, era, window).log)
  {
    DistinctSnoc(log, era);
    var s := Eras.Seed(p, log, era);
    assert s.log[s.p.eraPos - 1] == era;
    OrdinalOf(s.log, s.p.eraPos - 1);
  }

  predicate TimelyRun(es: seq<Event>, window: nat) {
    forall i :: 0 <= i < |es| && es[i].Arrives? ==>
      var c := Run(START, es[..i], window).c; Timely(c.At(es[i].d.port), c.log, es[i].d.era, window)
  }

  /** Every frame is named by the order of eras. */
  predicate Named(fs: seq<Seen>, log: Eras.Log) {
    forall f :: f in fs ==> 1 <= f.ordinal <= |log| && log[f.ordinal - 1] == f.era
  }

  predicate OrderInv(y: System, window: nat) {
    Eras.Inv(y.c, window) && Distinct(y.c.log) && Named(y.classified, y.c.log)
  }

  lemma {:induction false} OrderStep(y: System, e: Event, window: nat)
    requires OrderInv(y, window) && Enabled(y, e)
    requires e.Arrives? ==> Timely(y.c.At(e.d.port), y.c.log, e.d.era, window)
    ensures OrderInv(Step(y, e, window), window)
  {
    if e.Arrives? {
      var p := y.c.At(e.d.port);
      assert Eras.PortInv(p, y.c.log, window);
      TimelyExactly(p, y.c.log, e.d.era, window);
      Eras.InvStep(y.c, e.d, window);
    } else {
      assert Eras.PortInv(y.c.At(e.port), y.c.log, window);
    }
  }

  lemma {:induction false} OrderRun(es: seq<Event>, window: nat)
    requires CanRun(START, es, window) && TimelyRun(es, window)
    ensures OrderInv(Run(START, es, window), window)
  {
    if es == [] {
      Eras.InvRun([], window);
    } else {
      var init := es[..|es| - 1];
      assert forall i :: 0 <= i < |init| ==> init[i] == es[i] && init[..i] == es[..i];
      CanRunInit(START, es, window);
      OrderRun(init, window);
      OrderStep(Run(START, init, window), es[|es| - 1], window);
    }
  }

  lemma {:induction false} LeadersAreFrames(fs: seq<Seen>)
    ensures forall f :: f in Leaders(fs) ==> f in fs
    ensures forall i :: 0 <= i < |Leaders(fs)| - 1 ==> Leaders(fs)[i].ordinal < Leaders(fs)[i + 1].ordinal
  {
    if fs != [] {
      LeadersAreFrames(fs[..|fs| - 1]);
    }
  }

  lemma {:induction false} AllChange(l: seq<Seen>)
    requires forall i :: 0 <= i < |l| - 1 ==> l[i].era != l[i + 1].era
    ensures Changes(l) == if l == [] then 0 else |l| - 1
  {
    if |l| >= 2 {
      AllChange(l[..|l| - 1]);
    }
  }

  /** However many eras a port sleeps through or lags behind: while every datagram is
      timely, each era in which a frame leads all frames before it is wiped for
      exactly once, the first one excepted, and none is wiped for otherwise. */
  lemma {:induction false} EveryEraWipesOnce(es: seq<Event>, window: nat)
    requires CanRun(START, es, window) && TimelyRun(es, window)
    ensures var fs := Run(START, es, window).classified;
            Wipes(fs) == if fs == [] then 0 else |Leaders(fs)| - 1
  {
    var y := Run(START, es, window);
    var l := Leaders(y.classified);
    OrderRun(es, window);
    WipesFollowLeaders(y.classified);
    LeadersAreFrames(y.classified);
    forall i | 0 <= i < |l| - 1 ensures l[i].era != l[i + 1].era {
      assert l[i] in y.classified && l[i + 1] in y.classified;
    }
    AllChange(l);
    if y.classified != [] { SomeLead(y.classified); }
  }

  lemma {:induction false} SomeLead(fs: seq<Seen>)
    requires fs != []
    ensures Leaders(fs) != []
  {
    if |fs| > 1 { SomeLead(fs[..|fs| - 1]); }
  }

  // ---- the first reset -------------------------------------------------------

  /** A capture's first datagram, whatever its port, puts the channel at rest for
      any other Reset Count. */
  lemma {:induction false} FirstDatagramRests(port: Port, v: u8, w: u8, window: nat)
    requires v != w
    ensures var y := Step(START, Arrives(Eras.Datagram(port, v)), window);
            AtRest(y.c, v, w) && y.classified == [] && |y.c.log| == 1
  {
    OneEntry(v, w);
    var c := Step(START, Arrives(Eras.Datagram(port, v)), window).c;
    assert c == Eras.SILENT.With(port, Eras.PortEra(v, true, 1, 0, 0), [v]);
  }

  lemma OneEntry(v: u8, w: u8)
    requires v != w
    ensures Eras.Ordinal([], v) == 0 && Eras.Ordinal([], w) == 0
    ensures Eras.Ordinal([v], v) == 1 && Eras.Ordinal([v], w) == 0
    ensures [] + [v] == [v]
  {
    assert [v][..0] == [];
  }

  lemma TwoOrdinals(v: u8, w: u8)
    requires v != w
    ensures Eras.Ordinal([], v) == 0 && Eras.Ordinal([], w) == 0
    ensures Eras.Ordinal([v], v) == 1 && Eras.Ordinal([v], w) == 0
    ensures Eras.Ordinal([v, w], v) == 1 && Eras.Ordinal([v, w], w) == 2
  {
    assert [v, w][..1] == [v] && [v][..0] == [];
  }

  lemma ChangesOfTwo(a: Seen, b: Seen)
    ensures Changes([]) == 0 && Changes([a]) == 0
    ensures Changes([a, b]) == if a.era != b.era then 1 else 0
  {
    assert [a, b][..1] == [a];
  }

  // ---- where the condition fails ---------------------------------------------

  /** A port at rest quarantines the first datagram of a Reset Count exactly when
      that is not new to it. */
  lemma {:induction false} ReturningCountIsLate(p: Eras.PortEra, log: Eras.Log, v: u8, w: u8, window: nat)
    requires v != w && log != [] && log[|log| - 1] == v && p.seen && p.era == v && p.eraPos == |log|
    ensures Eras.OnDatagram(p, log, w, window).decision.Quarantine?
      <==> !NewTo(p, log, w) && p.stragglers < Eras.Limit(window)
  {
  }

  /** And a port still unheard takes such a datagram for one of the era long left. */
  lemma {:induction false} UnheardPortFallsBehind(p: Eras.PortEra, log: Eras.Log, v: u8, w: u8, window: nat)
    requires v != w && log != [] && log[|log| - 1] == v && !p.seen
    ensures var o := Eras.OnDatagram(p, log, w, window);
            if NewTo(p, log, w) then o.p.eraPos == |log| + 1 else o.p.eraPos < |log|
  {
    OneMoreEntry(log, w);
  }

  lemma OneMoreEntry(log: Eras.Log, w: u8)
    ensures Eras.Ordinal(log + [w], w) == |log| + 1
  {
  }

  lemma ThreeChanges(a: Seen, b: Seen, c: Seen)
    requires a.ordinal < b.ordinal < c.ordinal && a.era != b.era && b.era != c.era
    ensures Wipes([a, b, c]) == 2
  {
    var fs := [a, b, c];
    assert fs[..2] == [a, b] && fs[..2][..1] == [a] && [a][..0] == [];
    assert Leaders([a]) == [a];
    assert Leaders(fs[..2]) == [a, b];
    assert Leaders(fs) == fs;
    ChangesOfTwo(a, b);
    WipesFollowLeaders(fs);
  }

  lemma TwoChanges(a: Seen, b: Seen)
    requires a.ordinal < b.ordinal && a.era != b.era
    ensures Wipes([a, b, b]) == 1
  {
    var fs := [a, b, b];
    assert fs[..2] == [a, b] && fs[..2][..1] == [a] && [a][..0] == [];
    assert Leaders([a]) == [a];
    assert Leaders(fs[..2]) == [a, b] && Leaders(fs) == [a, b];
    ChangesOfTwo(a, b);
    WipesFollowLeaders(fs);
  }

  lemma OneMoreEvent(es: seq<Event>, e: Event, window: nat)
    requires CanRun(START, es, window) && Enabled(Run(START, es, window), e)
    ensures CanRun(START, es + [e], window) && Run(START, es + [e], window) == Step(Run(START, es, window), e, window)
  {
    var all := es + [e];
    assert all[..|es|] == es;
    forall i | 0 <= i < |all| ensures Enabled(Run(START, all[..i], window), all[i]) {
      assert i < |es| ==> all[..i] == es[..i] && all[i] == es[i];
    }
  }

  /** Where a run leads, if it can take place. */
  function Reached(es: seq<Event>, window: nat): Option<System> {
    if CanRun(START, es, window) then Some(Run(START, es, window)) else None
  }

  lemma {:induction false} Goes(es: seq<Event>, e: Event, window: nat, y: System, next: System)
    requires Reached(es, window) == Some(y) && Enabled(y, e) && Step(y, e, window) == next
    ensures Reached(es + [e], window) == Some(next)
  {
    OneMoreEvent(es, e, window);
  }

  function Again(e: Event, k: nat): seq<Event> {
    if k == 0 then [] else Again(e, k - 1) + [e]
  }

  /** A capture that opens on a port already in `w`; a second port is still in
      `v`, and then brings `k` datagrams of `w`. */
  function OpeningAhead(v: u8, w: u8, k: nat): seq<Event> {
    Opening(v, w) + Again(Arrives(Eras.Datagram(RefData, w)), k)
  }

  function Opening(v: u8, w: u8): seq<Event> {
    [] + [Arrives(Eras.Datagram(MktData, w))] + [Classifies(MktData)]
    + [Arrives(Eras.Datagram(RefData, v))] + [Classifies(RefData)]
  }

  lemma {:induction false} OpenedAhead(v: u8, w: u8, window: nat)
    requires v != w
    ensures Reached(Opening(v, w), window) == Some(Waiting(v, w, 0))
  {
    var e1, e2 := Arrives(Eras.Datagram(MktData, w)), Classifies(MktData);
    var e3, e4 := Arrives(Eras.Datagram(RefData, v)), Classifies(RefData);
    var y0 := START;
    TwoOrdinals(w, v);
    assert [] + [w] == [w] && [w] + [v] == [w, v];
    var y1 := Step(y0, e1, window);
    var y2 := Step(y1, e2, window);
    var y3 := Step(y2, e3, window);
    Goes([], e1, window, y0, y1);
    Goes([] + [e1], e2, window, y1, y2);
    Goes([] + [e1] + [e2], e3, window, y2, y3);
    Goes([] + [e1] + [e2] + [e3], e4, window, y3, Waiting(v, w, 0));
  }

  /** The second port has quarantined `k` datagrams of `w` as stragglers. */
  function Waiting(v: u8, w: u8, k: nat): System {
    System(Eras.Channel([w, v], Eras.PortEra(w, true, 1, 0, 0), Eras.PortEra(v, true, 2, 1, k), Eras.UNSEEN),
           [Seen(w, 1), Seen(v, 2)])
  }

  /** It gave up waiting and entered `w` as a third era. */
  function Reentered(v: u8, w: u8): System {
    System(Eras.Channel([w, v, w], Eras.PortEra(w, true, 1, 0, 0), Eras.PortEra(w, true, 3, 2, 0), Eras.UNSEEN),
           [Seen(w, 1), Seen(v, 2)])
  }

  function After(v: u8, w: u8, k: nat, window: nat): System {
    if k <= Eras.Limit(window) then Waiting(v, w, k) else Reentered(v, w)
  }

  lemma {:induction false} OneMoreLate(v: u8, w: u8, k: nat, window: nat)
    requires v != w && k <= Eras.Limit(window)
    ensures Step(After(v, w, k, window), Arrives(Eras.Datagram(RefData, w)), window) == After(v, w, k + 1, window)
  {
    TwoOrdinals(w, v);
    assert [w, v] + [w] == [w, v, w];
  }

  /** The same event leads from one of the states `at(0)` to `at(k)` to the next. */
  predicate Chain(e: Event, k: nat, window: nat, at: nat -> System) {
    k == 0 || (Chain(e, k - 1, window, at) && Enabled(at(k - 1), e) && Step(at(k - 1), e, window) == at(k))
  }

  lemma AgainOnce(es: seq<Event>, e: Event, k: nat)
    ensures es + Again(e, 0) == es
    ensures k > 0 ==> es + Again(e, k) == es + Again(e, k - 1) + [e]
  {
  }

  lemma {:induction false} GoesOn(es: seq<Event>, e: Event, k: nat, window: nat, at: nat -> System)
    requires Reached(es, window) == Some(at(0)) && Chain(e, k, window, at)
    ensures Reached(es + Again(e, k), window) == Some(at(k))
  {
    AgainOnce(es, e, k);
    if k > 0 {
      GoesOn(es, e, k - 1, window, at);
      Goes(es + Again(e, k - 1), e, window, at(k - 1), at(k));
    }
  }

  lemma {:induction false} StillWaiting(v: u8, w: u8, k: nat, window: nat)
    requires v != w && k <= Eras.Limit(window) + 1
    ensures Reached(OpeningAhead(v, w, k), window) == Some(After(v, w, k, window))
  {
    var at := (i: nat) => After(v, w, i, window);
    OpenedAhead(v, w, window);
    LateChain(v, w, k, window, at);
    GoesOn(Opening(v, w), Arrives(Eras.Datagram(RefData, w)), k, window, at);
  }

  lemma {:induction false} LateChain(v: u8, w: u8, k: nat, window: nat, at: nat -> System)
    requires v != w && k <= Eras.Limit(window) + 1
    requires forall i: nat :: i <= k ==> at(i) == After(v, w, i, window)
    ensures Chain(Arrives(Eras.Datagram(RefData, w)), k, window, at)
  {
    if k > 0 {
      LateChain(v, w, k - 1, window, at);
      OneMoreLink(v, w, k - 1, window, at(k - 1), at(k));
    }
  }

  lemma {:induction false} OneMoreLink(v: u8, w: u8, k: nat, window: nat, y: System, next: System)
    requires v != w && k <= Eras.Limit(window)
    requires y == After(v, w, k, window) && next == After(v, w, k + 1, window)
    ensures var late := Arrives(Eras.Datagram(RefData, w)); Enabled(y, late) && Step(y, late, window) == next
  {
    OneMoreLate(v, w, k, window);
  }

  lemma {:induction false} ClassifiedTwice(v: u8, w: u8, k: nat, window: nat)
    requires v != w
    ensures Wipes(Step(After(v, w, k, window), Classifies(RefData), window).classified)
      == if k > Eras.Limit(window) then 2 else 1
  {
    if k <= Eras.Limit(window) {
      TwoChanges(Seen(w, 1), Seen(v, 2));
      assert [Seen(w, 1), Seen(v, 2)] + [Seen(v, 2)] == [Seen(w, 1), Seen(v, 2), Seen(v, 2)];
    } else {
      ThreeChanges(Seen(w, 1), Seen(v, 2), Seen(w, 3));
      assert [Seen(w, 1), Seen(v, 2)] + [Seen(w, 3)] == [Seen(w, 1), Seen(v, 2), Seen(w, 3)];
    }
  }

  /** The run must open in the old era. When the first datagram comes from a port
      that already crossed, the old era reads as the later one: a second port
      quarantines the new era as stragglers, and wipes for the same reset again
      exactly when the run of them outlasts the window. */
  lemma {:induction false} OpeningAheadWipesTwice(v: u8, w: u8, k: nat, window: nat)
    requires v != w && k <= Eras.Limit(window) + 1
    ensures var es := OpeningAhead(v, w, k) + [Classifies(RefData)];
            && CanRun(START, es, window)
            && Wipes(Run(START, es, window).classified) == if k > Eras.Limit(window) then 2 else 1
  {
    var y := After(v, w, k, window);
    StillWaiting(v, w, k, window);
    Goes(OpeningAhead(v, w, k), Classifies(RefData), window, y, Step(y, Classifies(RefData), window));
    ClassifiedTwice(v, w, k, window);
  }
}
