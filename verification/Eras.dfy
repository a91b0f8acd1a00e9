/** Reset Count eras (`engine/state.go`, `eraOrder` and `enqueue`). The three
    ports of a channel share the order in which Reset Count values arrived; each
    port decides from it whether a datagram is current, late, or a reset. */
module Eras {
  import opened Core

  /** The values in order of arrival: ordinal n is `log[n-1]`. */
  type Log = seq<u8>

  /** The latest ordinal that started with `era`, 0 when there is none. */
  function Ordinal(log: Log, era: u8): (n: nat)
    ensures n <= |log|
    ensures n > 0 ==> log[n - 1] == era
    ensures forall i :: n <= i < |log| ==> log[i] != era
  {
    if log == [] then 0
    else if log[|log| - 1] == era then |log|
    else Ordinal(log[..|log| - 1], era)
  }

  datatype Entry = Entry(ordinal: nat, log: Log)

  /** Joins the era another port started after `from`, or starts a new one. */
  function Entered(log: Log, era: u8, from: nat): Entry {
    if Ordinal(log, era) > from then Entry(Ordinal(log, era), log) else Entry(|log| + 1, log + [era])
  }

  class EraOrder {
    var pos: map<u8, nat>
    var next: nat
    ghost var log: Log

    ghost predicate Valid()
      reads this
    {
      && next == |log|
      && (forall e: u8 :: e in pos <==> Ordinal(log, e) > 0)
      && (forall e :: e in pos ==> pos[e] == Ordinal(log, e))
    }

    constructor ()
      ensures Valid() && log == []
    {
      pos, next, log := map[], 0, [];
    }

    /** The latest ordinal of `era`, 0 when the channel has not used it. */
    method Last(era: u8) returns (p: nat)
      requires Valid()
      ensures p == Ordinal(log, era)
    {
      return if era in pos then pos[era] else 0;
    }

    method Enter(era: u8, from: nat) returns (ordinal: nat)
      requires Valid()
      modifies this
      ensures Valid()
      ensures Entry(ordinal, log) == Entered(old(log), era, from)
    {
      if era in pos && pos[era] > from {
        return pos[era];
      }
      next := next + 1;
      pos := pos[era := next];
      assert (log + [era])[..|log|] == log;
      log := log + [era];
      return next;
    }
  }

  /** Entering leads past the given ordinal to one that carries the value: to the
      latest such if there is one, and otherwise to a new one at the end. */
  lemma EntersPast(log: Log, era: u8, from: nat)
    requires from <= |log|
    ensures var e := Entered(log, era, from);
            && from < e.ordinal <= |e.log| && e.log[e.ordinal - 1] == era
            && (forall i :: e.ordinal <= i < |e.log| ==> e.log[i] != era)
            && (e.log == log || e.log == log + [era])
            && (e.log == log <==> exists i :: from <= i < |log| && log[i] == era)
  {
    var n := Ordinal(log, era);
    assert n > from ==> log[n - 1] == era;
  }

  // ---- one port -----------------------------------------------------------

  datatype PortEra = PortEra(era: u8, seen: bool, eraPos: nat, floorPos: nat, stragglers: nat)

  const UNSEEN := PortEra(0, false, 0, 0, 0)

  datatype Decision = Accept | Quarantine | Advance(afterStragglers: bool)

  datatype Outcome = Outcome(p: PortEra, log: Log, decision: Decision)

  function Limit(window: nat): nat {
    if window > 1 then window else 1
  }

  function Seed(p: PortEra, log: Log, inEra: u8): Outcome {
    if p.seen then Outcome(p, log, Accept)
    else
      var e := Entered(log, inEra, 0);
      Outcome(PortEra(inEra, true, e.ordinal, e.ordinal - 1, p.stragglers), e.log, Accept)
  }

  predicate Changed(p: PortEra, log: Log, inEra: u8) {
    inEra != p.era || Ordinal(log, inEra) > p.eraPos
  }

  /** An era the channel entered from the port's floor on and left before the
      era the port is in. */
  predicate Late(p: PortEra, log: Log, inEra: u8) {
    inEra != p.era && Ordinal(log, inEra) > 0 && p.floorPos <= Ordinal(log, inEra) < p.eraPos
  }

  function Decide(p: PortEra, log: Log, inEra: u8, window: nat): Outcome
    requires p.seen
  {
    if !Changed(p, log, inEra) then Outcome(p.(stragglers := 0), log, Accept)
    else if Late(p, log, inEra) && p.stragglers < Limit(window) then
      Outcome(p.(stragglers := p.stragglers + 1), log, Quarantine)
    else
      var e := Entered(log, inEra, p.eraPos);
      Outcome(PortEra(inEra, true, e.ordinal, p.eraPos, 0), e.log, Advance(Late(p, log, inEra)))
  }

  function OnDatagram(p: PortEra, log: Log, inEra: u8, window: nat): Outcome {
    var s := Seed(p, log, inEra);
    Decide(s.p, s.log, inEra, window)
  }

  // ---- the three ports of a channel ---------------------------------------

  datatype Channel = Channel(log: Log, mktData: PortEra, refData: PortEra, snapshot: PortEra)
  {
    function At(port: Port): PortEra {
      match port
      case MktData => mktData
      case RefData => refData
      case Snapshot => snapshot
    }

    function With(port: Port, p: PortEra, log': Log): Channel {
      match port
      case MktData => Channel(log', p, refData, snapshot)
      case RefData => Channel(log', mktData, p, snapshot)
      case Snapshot => Channel(log', mktData, refData, p)
    }
  }

  const SILENT := Channel([], UNSEEN, UNSEEN, UNSEEN)

  datatype Datagram = Datagram(port: Port, era: u8)

  function DecisionOn(c: Channel, d: Datagram, window: nat): Decision {
    OnDatagram(c.At(d.port), c.log, d.era, window).decision
  }

  function Step(c: Channel, d: Datagram, window: nat): Channel {
    var o := OnDatagram(c.At(d.port), c.log, d.era, window);
    c.With(d.port, o.p, o.log)
  }

  function Run(c: Channel, ds: seq<Datagram>, window: nat): Channel {
    if ds == [] then c else Step(Run(c, ds[..|ds| - 1], window), ds[|ds| - 1], window)
  }

  function Decisions(c: Channel, ds: seq<Datagram>, window: nat): seq<Decision> {
    if ds == [] then []
    else Decisions(c, ds[..|ds| - 1], window)
         + [DecisionOn(Run(c, ds[..|ds| - 1], window), ds[|ds| - 1], window)]
  }

  // ---- what every step keeps ----------------------------------------------

  predicate PortInv(p: PortEra, log: Log, window: nat) {
    && p.stragglers <= Limit(window)
    && (p.seen ==> 1 <= p.eraPos <= |log| && log[p.eraPos - 1] == p.era && p.floorPos < p.eraPos)
  }

  predicate Inv(c: Channel, window: nat) {
    forall port :: PortInv(c.At(port), c.log, window)
  }

  /** The order only grows, the port stays below its end, its ordinal never
      falls and rises on every advance, and whatever is not quarantined leaves
      the port in the datagram's own era. */
  lemma PortStep(p: PortEra, log: Log, inEra: u8, window: nat)
    requires PortInv(p, log, window)
    ensures var o := OnDatagram(p, log, inEra, window);
            && PortInv(o.p, o.log, window)
            && log <= o.log
            && (p.seen ==> p.eraPos <= o.p.eraPos)
            && (o.decision.Advance? ==> Seed(p, log, inEra).p.eraPos < o.p.eraPos)
            && (o.decision.Quarantine? ==> p.seen && o.p == p.(stragglers := p.stragglers + 1) && o.log == log)
            && (!o.decision.Quarantine? ==> o.p.era == inEra && o.p.stragglers == 0)
  {
    var s := Seed(p, log, inEra);
    assert PortInv(s.p, s.log, window);
  }

  lemma InvStep(c: Channel, d: Datagram, window: nat)
    requires Inv(c, window)
    ensures Inv(Step(c, d, window), window)
    ensures c.log <= Step(c, d, window).log
  {
    assert PortInv(c.At(d.port), c.log, window);
    PortStep(c.At(d.port), c.log, d.era, window);
    var o := OnDatagram(c.At(d.port), c.log, d.era, window);
    OthersKeep(c, d.port, o.p, o.log, window);
  }

  lemma OthersKeep(c: Channel, port: Port, p: PortEra, log: Log, window: nat)
    requires Inv(c, window) && c.log <= log && PortInv(p, log, window)
    ensures Inv(c.With(port, p, log), window)
  {
    forall q ensures PortInv(c.With(port, p, log).At(q), log, window) {
      assert PortInv(c.At(q), c.log, window);
    }
  }

  lemma {:induction false} InvRun(ds: seq<Datagram>, window: nat)
    ensures Inv(Run(SILENT, ds, window), window)
  {
    if ds == [] {
      forall port ensures PortInv(SILENT.At(port), SILENT.log, window) {}
    } else {
      InvRun(ds[..|ds| - 1], window);
      InvStep(Run(SILENT, ds[..|ds| - 1], window), ds[|ds| - 1], window);
    }
  }

  /** Ordinals name eras: two ports at one ordinal are in the same era. */
  lemma OrdinalsNameEras(ds: seq<Datagram>, window: nat, a: Port, b: Port)
    requires var c := Run(SILENT, ds, window); c.At(a).seen && c.At(b).seen && c.At(a).eraPos == c.At(b).eraPos
    ensures var c := Run(SILENT, ds, window); c.At(a).era == c.At(b).era
  {
    InvRun(ds, window);
    SameOrdinalSameEra(Run(SILENT, ds, window), window, a, b);
  }

  lemma SameOrdinalSameEra(c: Channel, window: nat, a: Port, b: Port)
    requires Inv(c, window) && c.At(a).seen && c.At(b).seen && c.At(a).eraPos == c.At(b).eraPos
    ensures c.At(a).era == c.At(b).era
  {
    assert PortInv(c.At(a), c.log, window) && PortInv(c.At(b), c.log, window);
  }

  /** How many of the port's latest datagrams were quarantined in a row. */
  function Streak(c: Channel, ds: seq<Datagram>, window: nat, port: Port): nat {
    if ds == [] then 0
    else
      var init, d := ds[..|ds| - 1], ds[|ds| - 1];
      if d.port != port then Streak(c, init, window, port)
      else if DecisionOn(Run(c, init, window), d, window).Quarantine? then Streak(c, init, window, port) + 1
      else 0
  }

  lemma {:induction false} StreakIsCounted(ds: seq<Datagram>, window: nat, port: Port)
    ensures Streak(SILENT, ds, window, port) == Run(SILENT, ds, window).At(port).stragglers
  {
    if ds != [] {
      var init, d := ds[..|ds| - 1], ds[|ds| - 1];
      StreakIsCounted(init, window, port);
      InvRun(init, window);
      var c := Run(SILENT, init, window);
      assert PortInv(c.At(d.port), c.log, window);
      PortStep(c.At(d.port), c.log, d.era, window);
    }
  }

  /** No port ever drops more than the window's worth in a row, or one datagram when
      the window is less. */
  lemma QuarantineIsBounded(ds: seq<Datagram>, window: nat, port: Port)
    ensures Streak(SILENT, ds, window, port) <= if window > 1 then window else 1
  {
    StreakIsCounted(ds, window, port);
    InvRun(ds, window);
    var c := Run(SILENT, ds, window);
    assert PortInv(c.At(port), c.log, window);
  }

  /** The latest era the channel started with this Reset Count is the n-th. */
  predicate Latest(log: Log, era: u8, n: int) {
    0 < n <= |log| && log[n - 1] == era && forall i :: n <= i < |log| ==> log[i] != era
  }

  lemma {:induction false} LatestIsOrdinal(log: Log, era: u8, n: int)
    ensures Latest(log, era, n) <==> n > 0 && n == Ordinal(log, era)
  {
  }

  /** That era is the one the port came from or a later one, and before the one the
      port is in. */
  predicate BetweenEras(p: PortEra, log: Log, era: u8) {
    era != p.era && exists n :: Latest(log, era, n) && p.floorPos <= n < p.eraPos
  }

  lemma {:induction false} DecidedExactly(p: PortEra, log: Log, era: u8, window: nat)
    requires p.seen
    ensures Decide(p, log, era, window).decision.Quarantine?
      <==> BetweenEras(p, log, era) && p.stragglers < if window > 1 then window else 1
  {
    LatestIsOrdinal(log, era, Ordinal(log, era));
    if n :| Latest(log, era, n) && p.floorPos <= n < p.eraPos { LatestIsOrdinal(log, era, n); }
  }

  /** After any datagrams at the three ports, the next one is quarantined if and only
      if its port was heard, it belongs between the port's last two eras, and fewer
      have been quarantined in a row than the window holds, at least one. */
  lemma {:induction false} QuarantinedExactly(ds: seq<Datagram>, d: Datagram, window: nat)
    ensures var c := Run(SILENT, ds, window);
            DecisionOn(c, d, window).Quarantine?
            <==> c.At(d.port).seen && BetweenEras(c.At(d.port), c.log, d.era)
                 && Streak(SILENT, ds, window, d.port) < if window > 1 then window else 1
  {
    var c := Run(SILENT, ds, window);
    var p := c.At(d.port);
    StreakIsCounted(ds, window, d.port);
    if p.seen { DecidedExactly(p, c.log, d.era, window); } else { SeededIsAccepted(p, c.log, d.era, window); }
  }

  lemma SeededIsAccepted(p: PortEra, log: Log, era: u8, window: nat)
    requires !p.seen
    ensures !OnDatagram(p, log, era, window).decision.Quarantine?
  {
  }

  // ---- arrival decides, value does not ------------------------------------

  ghost predicate Renaming(r: u8 -> u8) {
    forall x: u8, y: u8 :: r(x) == r(y) ==> x == y
  }

  function RenameLog(log: Log, r: u8 -> u8): Log {
    seq(|log|, i requires 0 <= i < |log| => r(log[i]))
  }

  /** A port that has seen nothing holds no value to rename. */
  function RenamePort(p: PortEra, r: u8 -> u8): PortEra {
    if p.seen then p.(era := r(p.era)) else p
  }

  function Rename(c: Channel, r: u8 -> u8): Channel {
    Channel(RenameLog(c.log, r), RenamePort(c.mktData, r), RenamePort(c.refData, r), RenamePort(c.snapshot, r))
  }

  function RenameAll(ds: seq<Datagram>, r: u8 -> u8): seq<Datagram> {
    seq(|ds|, i requires 0 <= i < |ds| => Datagram(ds[i].port, r(ds[i].era)))
  }

  lemma {:induction false} RenameOrdinal(log: Log, era: u8, r: u8 -> u8)
    requires Renaming(r)
    ensures Ordinal(RenameLog(log, r), r(era)) == Ordinal(log, era)
  {
    if log != [] {
      var init := log[..|log| - 1];
      RenameOrdinal(init, era, r);
      assert RenameLog(log, r)[..|log| - 1] == RenameLog(init, r);
    }
  }

  lemma RenameEnter(log: Log, era: u8, from: nat, r: u8 -> u8)
    requires Renaming(r)
    ensures var e := Entered(log, era, from);
            Entered(RenameLog(log, r), r(era), from) == Entry(e.ordinal, RenameLog(e.log, r))
  {
    RenameOrdinal(log, era, r);
    assert RenameLog(log + [era], r) == RenameLog(log, r) + [r(era)];
  }

  lemma RenamePortStep(p: PortEra, log: Log, inEra: u8, window: nat, r: u8 -> u8)
    requires Renaming(r)
    ensures var o := OnDatagram(p, log, inEra, window);
            OnDatagram(RenamePort(p, r), RenameLog(log, r), r(inEra), window)
              == Outcome(RenamePort(o.p, r), RenameLog(o.log, r), o.decision)
  {
    RenameEnter(log, inEra, 0, r);
    var s := Seed(p, log, inEra);
    assert Seed(RenamePort(p, r), RenameLog(log, r), r(inEra))
      == Outcome(RenamePort(s.p, r), RenameLog(s.log, r), s.decision);
    RenameDecide(s.p, s.log, inEra, window, r);
  }

  lemma RenameDecide(p: PortEra, log: Log, inEra: u8, window: nat, r: u8 -> u8)
    requires Renaming(r) && p.seen
    ensures var o := Decide(p, log, inEra, window);
            Decide(RenamePort(p, r), RenameLog(log, r), r(inEra), window)
              == Outcome(RenamePort(o.p, r), RenameLog(o.log, r), o.decision)
  {
    RenameOrdinal(log, inEra, r);
    RenameEnter(log, inEra, p.eraPos, r);
  }

  lemma {:induction false} RenameStep(c: Channel, d: Datagram, window: nat, r: u8 -> u8)
    requires Renaming(r)
    ensures var d' := Datagram(d.port, r(d.era));
            && Step(Rename(c, r), d', window) == Rename(Step(c, d, window), r)
            && DecisionOn(Rename(c, r), d', window) == DecisionOn(c, d, window)
  {
    RenamePortStep(c.At(d.port), c.log, d.era, window, r);
    var o := OnDatagram(c.At(d.port), c.log, d.era, window);
    RenameWith(c, d.port, o.p, o.log, r);
  }

  lemma RenameWith(c: Channel, port: Port, p: PortEra, log: Log, r: u8 -> u8)
    ensures Rename(c, r).At(port) == RenamePort(c.At(port), r)
    ensures Rename(c, r).With(port, RenamePort(p, r), RenameLog(log, r)) == Rename(c.With(port, p, log), r)
  {
  }

  /** Whatever permutation is applied to the Reset Count values of a run over
      all three ports, every quarantine, drain and advance decision and every
      ordinal stay the same. */
  lemma {:induction false} ErasAreOrderedByArrival(ds: seq<Datagram>, window: nat, r: u8 -> u8)
    requires Renaming(r)
    ensures Decisions(SILENT, RenameAll(ds, r), window) == Decisions(SILENT, ds, window)
    ensures Run(SILENT, RenameAll(ds, r), window) == Rename(Run(SILENT, ds, window), r)
  {
    if ds == [] {
      assert RenameLog([], r) == [];
    } else {
      var init, d := ds[..|ds| - 1], ds[|ds| - 1];
      ErasAreOrderedByArrival(init, window, r);
      RenameStep(Run(SILENT, init, window), d, window, r);
      assert RenameAll(ds, r)[..|ds| - 1] == RenameAll(init, r);
    }
  }
}
