/** Where a truthful market-by-order publisher is charged: exactly which of its
    cancels and executes are dangling, and runs in which its own snapshot is a
    violation. */
module OracleAccused {
  import opened Core
  import opened Oracle
  import opened OracleRuns
  import opened OracleTruth
  import IB = InstrBook
  import IR = InstrBookRuns
  import Gate
  import GT = GateTrust
  import MG = MboGroups

  // ---- operations on orders that rested when the lifecycle opened -----------

  lemma {:induction false} NeverAddedExactly(ms: seq<IB.Msg>, id: u64)
    ensures IR.LifeOf(ms, id).Never? <==> !Announced(ms, id)
  {
    if ms != [] {
      NeverAddedExactly(ms[..|ms| - 1], id);
      AnnouncedStep(ms, id);
    }
  }

  function Dangling(m: IB.Msg): IB.Rule {
    if m.OrderCancel? then IB.CancelDangling else IB.ExecDangling
  }

  lemma {:induction false} DanglingFollowsAdds(ms: seq<IB.Msg>, m: IB.Msg)
    requires (m.OrderCancel? || m.OrderExecute?) && !IR.AddedHidden(ms, m.id)
    ensures IR.Reports(IR.IdealFindings(IR.IdealRun(ms), m, true), Dangling(m)) <==> !Announced(ms, m.id)
  {
    NeverAddedExactly(ms, m.id);
    if m.OrderCancel? { IR.CancelVerdictFollowsLife(ms, m); } else { IR.ExecuteVerdictFollowsLife(ms, m); }
  }

  lemma SentInOrder(ds: seq<GT.Delta>, c: Career)
    requires ds != [] && AllSent(ds, c) && forall i :: 0 <= i < |ds| ==> ds[i].perSeq == i + 1
    ensures c.from == 0 && |ds| <= |c.ops| && GT.Msgs(ds) == c.ops[..|ds|]
  {
    assert ds[0].perSeq == 1 && ds[|ds| - 1].perSeq == |ds|;
  }

  /** The deltas received are the publisher's, and the gate lets the next one be
      judged on a book no replay has touched. */
  ghost predicate Judgeable(
    es: seq<GT.Event>, l: GT.Limits, c: Career, perSeq: u32, known: bool, gapless: bool)
  {
    var s, ds := GT.Run(es, l).track.seqs, GT.LifeOf(es).deltas;
    && Gate.GateConsumer(s, known, gapless, perSeq) && !s.dup
    && |ds| < U32_MAX && AllSent(ds, c)
  }

  lemma {:induction false} JudgedBookIs(
    es: seq<GT.Event>, l: GT.Limits, c: Career, perSeq: u32, known: bool, gapless: bool)
    requires Judgeable(es, l, c, perSeq, known, gapless)
    ensures var k := |GT.LifeOf(es).deltas|;
            && c.from == 0 && c.Has(k) && perSeq == k + 1
            && GT.Msgs(GT.LifeOf(es).deltas) == c.ops[..k]
            && GT.Run(es, l).book == IR.Run(GT.Empty(l), c.ops[..k])
  {
    GT.TrustedBookIsAsOfLast(es, l);
    GT.TrustIsEarnedExactly(es, l);
    SentInOrder(GT.LifeOf(es).deltas, c);
  }

  predicate StandsAt(c: Career, k: nat, id: u64) {
    c.Has(k) && id in c.BookAt(k) && !IB.IsHidden(c.BookAt(k)[id].flags)
  }

  /** A cancel or execute of a visible order that stands in the publisher's book,
      judged under the gate: it is dangling, unless the checker says it cannot
      decide for overflow, exactly when the order rested before the lifecycle
      opened and was not added since. */
  lemma {:induction false} StandingOrderDanglesExactly(
    es: seq<GT.Event>, l: GT.Limits, c: Career, d: GT.Delta, known: bool, gapless: bool)
    requires Judgeable(es, l, c, d.perSeq, known, gapless) && (d.msg.OrderCancel? || d.msg.OrderExecute?)
    requires StandsAt(c, |GT.LifeOf(es).deltas|, d.msg.id)
    requires !IR.AddedHidden(GT.Msgs(GT.LifeOf(es).deltas), d.msg.id)
    ensures var b, fs := GT.Run(es, l).book, IB.Findings(GT.Run(es, l).book, d.msg, true);
            || (IR.OnlyOverflow(fs) && IR.MayBeForgotten(b, d.msg))
            || (IR.Reports(fs, Dangling(d.msg)) <==> Unannounced(c, |GT.LifeOf(es).deltas|, d.msg.id))
  {
    JudgedBookIs(es, l, c, d.perSeq, known, gapless);
    var ms := c.ops[..|GT.LifeOf(es).deltas|];
    IR.BoundedNeverMisjudges(ms, d.msg, l.removed, l.hidden, l.trades);
    DanglingFollowsAdds(ms, d.msg);
  }

  /** Every other such order the checker holds just as the publisher does. */
  lemma {:induction false} AnnouncedOrdersAreKnown(
    es: seq<GT.Event>, l: GT.Limits, c: Career, perSeq: u32, known: bool, gapless: bool, id: u64)
    requires Judgeable(es, l, c, perSeq, known, gapless) && StandsAt(c, |GT.LifeOf(es).deltas|, id)
    ensures Unannounced(c, |GT.LifeOf(es).deltas|, id)
      <==> id !in GT.Run(es, l).book.live
    ensures id in GT.Run(es, l).book.live ==>
              GT.Run(es, l).book.live[id] == c.BookAt(|GT.LifeOf(es).deltas|)[id]
  {
    JudgedBookIs(es, l, c, perSeq, known, gapless);
    var ms := c.ops[..|GT.LifeOf(es).deltas|];
    LiveOrdersRest(GT.Empty(l), ms);
    FromEmpty(c.initial, ms, id);
  }

  // ---- an order rests when the lifecycle opens -------------------------------

  const NINETY_NINE := IB.LiveOrder(0, 0, 50, 3, 0, 0)

  const SEVEN := IB.OrderAdd(7, 0, 0, 100, 10, 0, 0)

  /** Order 99 rests; then order 7 is added and order 99 cancelled. */
  const LONG_LIVED := Career(map[99 := NINETY_NINE], 0, [SEVEN, IB.OrderCancel(99, 0)])

  function Says(c: Career, k: u32): GT.Event
    requires c.from < k <= c.from + |c.ops|
  {
    GT.Applied(GT.Delta(k, k, c.ops[k - c.from - 1]), GT.CLEAR)
  }

  function Lists(c: Career, k: u32, life: nat): Turn
    requires c.Has(k)
  {
    Judged(Listing(c, k), true, true, life)
  }

  lemma OneTurnOn(ts: seq<Turn>, t: Turn, l: GT.Limits, confirmCycles: int)
    ensures HeardIn(ts + [t]) == HeardIn(ts) + (if t.Heard? then [t.e] else [])
    ensures LivesIn(ts + [t]) == LivesIn(ts) + if EndsLife(t) then 1 else 0
    ensures CyclesIn(ts + [t], l) == CyclesIn(ts, l) + CyclesOf(ts, t, l)
    ensures ReportsIn(ts + [t], l, confirmCycles) == ReportsIn(ts, l, confirmCycles) + ReportOn(ts, t, l, confirmCycles)
  {
    assert (ts + [t])[..|ts|] == ts;
  }

  lemma OneTurnInTime(ts: seq<Turn>, t: Turn)
    requires DeltasInTime(ts)
    requires t.Heard? && t.e.Applied? ==> t.life == LivesIn(ts)
    ensures DeltasInTime(ts + [t])
  {
    var all := ts + [t];
    assert all[..|ts|] == ts && forall i :: 0 <= i < |ts| ==> all[i] == ts[i] && all[..i] == ts[..i];
  }

  lemma {:induction false} TwiceInTime(ts: seq<Turn>, t: Turn)
    requires DeltasInTime(ts) && t.Judged?
    ensures DeltasInTime(ts + [t] + [t])
  {
    OneTurnInTime(ts, t);
    OneTurnInTime(ts + [t], t);
  }

  lemma TwiceTold(ts: seq<Turn>, t: Turn, pub: nat -> Career)
    requires Told(ts, pub) && TrueTurn(t, pub)
    ensures Told(ts + [t] + [t], pub)
  {
  }

  ghost predicate Clean(ts: seq<Turn>, l: GT.Limits) {
    ReportsIn(ts, l, 2) == [] && Run(CyclesIn(ts, l)).None?
  }

  lemma OneCycleOn(cs: seq<Cycle>, c: Cycle)
    ensures Run(cs + [c]) == Recall(Run(cs), c)
  {
    assert (cs + [c])[..|cs|] == cs;
  }

  lemma {:induction false} HeardStaysClean(ts: seq<Turn>, t: Turn, l: GT.Limits)
    requires Clean(ts, l) && t.Heard?
    ensures Clean(ts + [t], l)
  {
    OneTurnOn(ts, t, l, 2);
    if EndsLife(t) {
      OneCycleOn(CyclesIn(ts, l), Forgotten);
    } else {
      assert CyclesIn(ts + [t], l) == CyclesIn(ts, l);
    }
  }

  const SUSPECTED := Finding(Suspected, NoReason)
  const VIOLATION := Finding(Violation, NoReason)

  lemma OneGroupOn(ts: seq<Turn>, t: Turn, l: GT.Limits, c: Cycle)
    requires t.Judged? && c == CycleAt(HeardIn(ts), l, t.g, t.known, t.gapless)
    ensures HeardIn(ts + [t]) == HeardIn(ts)
    ensures Run(CyclesIn(ts + [t], l)) == Recall(Run(CyclesIn(ts, l)), c)
    ensures ReportsIn(ts + [t], l, 2) == ReportsIn(ts, l, 2) + Report(Run(CyclesIn(ts, l)), c, 2)
  {
    OneTurnOn(ts, t, l, 2);
    OneCycleOn(CyclesIn(ts, l), c);
    assert HeardIn(ts) + [] == HeardIn(ts);
  }

  lemma TwiceReported(sig: set<Diff>)
    requires sig != {}
    ensures Report(None, Compared(sig), 2) == [SUSPECTED]
    ensures Report(Recall(None, Compared(sig)), Compared(sig), 2) == [VIOLATION]
  {
  }

  /** A group that is compared and differs, judged twice in a row, is a violation
      at the default of two. */
  lemma {:induction false} TwiceIsAViolation(ts: seq<Turn>, t: Turn, l: GT.Limits, c: Cycle)
    requires t.Judged? && Clean(ts, l)
    requires c == CycleAt(HeardIn(ts), l, t.g, t.known, t.gapless) && c.Compared? && c.sig != {}
    ensures ReportsIn(ts + [t] + [t], l, 2) == [SUSPECTED] + [VIOLATION]
  {
    OneGroupOn(ts, t, l, c);
    OneGroupOn(ts + [t], t, l, c);
    TwiceReported(c.sig);
    assert [] + [SUSPECTED] == [SUSPECTED];
  }

  lemma NothingHeard(l: GT.Limits)
    ensures Clean([], l) && HeardIn([]) == [] && DeltasInTime([])
  {
  }

  lemma NinetyNineStands()
    ensures Unannounced(LONG_LIVED, 1, 99)
  {
    assert LONG_LIVED.ops[..1] == [SEVEN] && [SEVEN][..0] == [];
    assert Rests(LONG_LIVED.initial, []) == LONG_LIVED.initial;
    assert LONG_LIVED.BookAt(1) == RestsAfter(LONG_LIVED.initial, SEVEN);
  }

  lemma {:induction false} NinetyNineDiffers()
    ensures var c, es := LONG_LIVED, [Says(LONG_LIVED, 1)];
            var cycle := CycleAt(es, GT.ROOM, Listing(c, 1), true, true);
            TrueOf(Listing(c, 1), c) && cycle.Compared? && cycle.sig != {}
  {
    var c, e := LONG_LIVED, Says(LONG_LIVED, 1);
    FirstDeltaIsTrusted(e.delta, GT.ROOM, GT.CLEAR);
    ListingIsTrue(c, 1);
    NinetyNineStands();
    ComparesAtItsNumber([e], GT.ROOM, Listing(c, 1));
    TruthMatchesExactly([e], GT.ROOM, c, Listing(c, 1), true, true);
  }

  lemma {:induction false} OneDeltaHeard(e: GT.Event, l: GT.Limits)
    requires e.Applied?
    ensures var ts := [] + [Heard(e, 0)];
            Clean(ts, l) && DeltasInTime(ts) && HeardIn(ts) == [e]
  {
    NothingHeard(l);
    OneTurnOn([], Heard(e, 0), l, 2);
    HeardStaysClean([], Heard(e, 0), l);
    OneTurnInTime([], Heard(e, 0));
    assert [] + [e] == [e] && [e][..0] == [];
  }

  lemma OneGroupInTime(ts: seq<Turn>, t: Turn, pub: nat -> Career)
    requires GroupsInTime(ts, pub) && (t.Judged? ==> t.life == LivesIn(ts))
    ensures GroupsInTime(ts + [t], pub)
  {
    var all := ts + [t];
    assert all[..|ts|] == ts && forall i :: 0 <= i < |ts| ==> all[i] == ts[i] && all[..i] == ts[..i];
  }

  lemma {:induction false} TwiceGroupInTime(ts: seq<Turn>, t: Turn, pub: nat -> Career)
    requires GroupsInTime(ts, pub) && t.Judged? && t.life == LivesIn(ts)
    ensures GroupsInTime(ts + [t] + [t], pub)
  {
    OneTurnOn(ts, t, GT.ROOM, 2);
    OneGroupInTime(ts, t, pub);
    OneGroupInTime(ts + [t], t, pub);
  }

  function Always(life: nat): Career { LONG_LIVED }

  /** The delta 1, then twice the group at 1. */
  const LISTED: seq<Turn> :=
    [] + [Heard(Says(LONG_LIVED, 1), 0)] + [Lists(LONG_LIVED, 1, 0)] + [Lists(LONG_LIVED, 1, 0)]

  lemma {:induction false} SameLifeInTime(e: GT.Event, t: Turn, pub: nat -> Career)
    requires e.Applied? && t.Judged? && t.life == 0
    ensures GroupsInTime([] + [Heard(e, 0)] + [t] + [t], pub)
  {
    OneTurnOn([], Heard(e, 0), GT.ROOM, 2);
    OneGroupInTime([], Heard(e, 0), pub);
    TwiceGroupInTime([] + [Heard(e, 0)], t, pub);
  }

  lemma {:induction false} ListedInTime()
    ensures DeltasInTime(LISTED)
  {
    OneDeltaHeard(Says(LONG_LIVED, 1), GT.ROOM);
    TwiceInTime([] + [Heard(Says(LONG_LIVED, 1), 0)], Lists(LONG_LIVED, 1, 0));
  }

  lemma {:induction false} ListedIsCharged()
    ensures ReportsIn(LISTED, GT.ROOM, 2) == [SUSPECTED] + [VIOLATION]
  {
    var t, ts := Lists(LONG_LIVED, 1, 0), [] + [Heard(Says(LONG_LIVED, 1), 0)];
    OneDeltaHeard(Says(LONG_LIVED, 1), GT.ROOM);
    NinetyNineDiffers();
    TwiceIsAViolation(ts, t, GT.ROOM, CycleAt(HeardIn(ts), GT.ROOM, t.g, true, true));
  }

  /** Nothing lost, every delta and group truthful and in time: the group at 1,
      seen twice, is a violation. */
  lemma RestingOrderAccuses()
    ensures Told(LISTED, Always) && DeltasInTime(LISTED) && GroupsInTime(LISTED, Always)
    ensures ReportsIn(LISTED, GT.ROOM, 2) == [SUSPECTED] + [VIOLATION]
  {
    ListingIsTrue(LONG_LIVED, 1);
    TwiceTold([] + [Heard(Says(LONG_LIVED, 1), 0)], Lists(LONG_LIVED, 1, 0), Always);
    ListedInTime();
    SameLifeInTime(Says(LONG_LIVED, 1), Lists(LONG_LIVED, 1, 0), Always);
    ListedIsCharged();
  }

  /** And so is the cancel of order 99 that follows. */
  lemma {:induction false} RestingCancelAccuses()
    ensures var s := GT.Run([Says(LONG_LIVED, 1)], GT.ROOM);
            && Gate.GateConsumer(s.track.seqs, true, true, 2)
            && IB.Findings(s.book, LONG_LIVED.ops[1], true)
               == [IB.Finding(IB.CancelDangling, Violation, NoReason)]
  {
    FirstDeltaIsTrusted(Says(LONG_LIVED, 1).delta, GT.ROOM, GT.CLEAR);
    assert GT.Run([Says(LONG_LIVED, 1)], GT.ROOM).book == IB.Step(GT.Empty(GT.ROOM), SEVEN);
  }

  // ---- a group outlives its lifecycle ---------------------------------------

  const EIGHT := IB.OrderAdd(8, 0, 0, 100, 10, 0, 0)

  /** The lifecycle that is left adds order 7, the next one order 8. */
  function Restarted(life: nat): Career {
    Career(map[], 0, [if life == 0 then SEVEN else EIGHT])
  }

  lemma {:induction false} WipeStartsOver(es: seq<GT.Event>, d: GT.Delta, l: GT.Limits)
    ensures GT.Run(es + [GT.Wiped] + [GT.Applied(d, GT.CLEAR)], l) == GT.Run([GT.Applied(d, GT.CLEAR)], l)
    ensures GT.LifeOf(es + [GT.Wiped] + [GT.Applied(d, GT.CLEAR)]) == GT.LifeOf([GT.Applied(d, GT.CLEAR)])
  {
    var wiped := es + [GT.Wiped];
    assert wiped[..|es|] == es && (wiped + [GT.Applied(d, GT.CLEAR)])[..|wiped|] == wiped;
    assert [GT.Applied(d, GT.CLEAR)][..0] == [];
  }

  lemma LeftBookHasSeven()
    ensures 7 in Restarted(0).BookAt(1) && !IB.IsHidden(Restarted(0).BookAt(1)[7].flags)
  {
    assert Restarted(0).ops[..1] == [SEVEN] && [SEVEN][..0] == [];
  }

  lemma NextBookHasNot()
    ensures 7 !in Rests(map[], Restarted(1).ops[..1])
  {
    assert Restarted(1).ops[..1] == [EIGHT] && [EIGHT][..0] == [];
  }

  lemma {:induction false} LeftGroupDiffers(es: seq<GT.Event>)
    requires es == [Says(Restarted(1), 1)]
    ensures var cycle := CycleAt(es, GT.ROOM, Listing(Restarted(0), 1), true, true);
            cycle.Compared? && cycle.sig != {}
  {
    var left, now := Restarted(0), Restarted(1);
    FirstDeltaIsTrusted(es[0].delta, GT.ROOM, GT.CLEAR);
    ListingIsTrue(left, 1);
    ComparesAtItsNumber(es, GT.ROOM, Listing(left, 1));
    LeftGroupMatchesExactly(es, GT.ROOM, now, left, Listing(left, 1), true, true);
    LeftBookHasSeven();
    NextBookHasNot();
    assert !Alike(left.BookAt(1), Rests(map[], now.ops[..1]), Listing(left, 1).orders, 7);
  }

  /** A delta, a wipe, and a delta of the next lifecycle. */
  function Across(e: GT.Event, e': GT.Event): seq<Turn> {
    [] + [Heard(e, 0)] + [Heard(GT.Wiped, 0)] + [Heard(e', 1)]
  }

  lemma {:induction false} AcrossIs(e: GT.Event, e': GT.Event, l: GT.Limits)
    requires e.Applied? && e'.Applied?
    ensures Clean(Across(e, e'), l) && HeardIn(Across(e, e')) == [e] + [GT.Wiped] + [e']
  {
    var one := [] + [Heard(e, 0)];
    var two := one + [Heard(GT.Wiped, 0)];
    OneDeltaHeard(e, l);
    OneTurnOn(one, Heard(GT.Wiped, 0), l, 2);
    HeardStaysClean(one, Heard(GT.Wiped, 0), l);
    OneTurnOn(two, Heard(e', 1), l, 2);
    HeardStaysClean(two, Heard(e', 1), l);
  }

  lemma {:induction false} NextLifeInTime(ts: seq<Turn>, e: GT.Event)
    requires DeltasInTime(ts) && LivesIn(ts) == 0 && e.Applied?
    ensures DeltasInTime(ts + [Heard(GT.Wiped, 0)] + [Heard(e, 1)])
  {
    OneTurnInTime(ts, Heard(GT.Wiped, 0));
    OneTurnOn(ts, Heard(GT.Wiped, 0), GT.ROOM, 2);
    OneTurnInTime(ts + [Heard(GT.Wiped, 0)], Heard(e, 1));
  }

  lemma {:induction false} AcrossInTime(e: GT.Event, e': GT.Event)
    requires e.Applied? && e'.Applied?
    ensures DeltasInTime(Across(e, e'))
  {
    OneDeltaHeard(e, GT.ROOM);
    OneTurnOn([], Heard(e, 0), GT.ROOM, 2);
    NextLifeInTime([] + [Heard(e, 0)], e');
  }

  /** Both ports up to the point where the next lifecycle has reached 1 as well. */
  const ACROSS := Across(Says(Restarted(0), 1), Says(Restarted(1), 1))

  const LATE := Lists(Restarted(0), 1, 0)

  lemma AcrossAsFresh(l: GT.Limits)
    ensures GT.Run(HeardIn(ACROSS), l) == GT.Run([Says(Restarted(1), 1)], l)
  {
    AcrossIs(Says(Restarted(0), 1), Says(Restarted(1), 1), l);
    WipeStartsOver([Says(Restarted(0), 1)], Says(Restarted(1), 1).delta, l);
  }

  lemma {:induction false} AcrossIsTold()
    ensures Told(ACROSS, Restarted)
  {
  }

  lemma {:induction false} LateIsCharged()
    ensures ReportsIn(ACROSS + [LATE] + [LATE], GT.ROOM, 2) == [SUSPECTED] + [VIOLATION]
  {
    AcrossIs(Says(Restarted(0), 1), Says(Restarted(1), 1), GT.ROOM);
    AcrossAsFresh(GT.ROOM);
    LeftGroupDiffers([Says(Restarted(1), 1)]);
    TwiceIsAViolation(ACROSS, LATE, GT.ROOM, CycleAt(HeardIn(ACROSS), GT.ROOM, LATE.g, true, true));
  }

  lemma {:induction false} LateIsTold()
    ensures Told(ACROSS + [LATE] + [LATE], Restarted)
  {
    AcrossIsTold();
    ListingIsTrue(Restarted(0), 1);
    TwiceTold(ACROSS, LATE, Restarted);
  }

  lemma {:induction false} LateIsInTime()
    ensures DeltasInTime(ACROSS + [LATE] + [LATE])
  {
    AcrossInTime(Says(Restarted(0), 1), Says(Restarted(1), 1));
    AcrossAsFresh(GT.ROOM);
    TwiceInTime(ACROSS, LATE);
  }

  /** Every lifecycle opens with an empty book; but the group at 1 of the one just
      left is judged after the next has reached 1. */
  lemma LeftGroupAccuses()
    ensures AllClear(Restarted)
    ensures Told(ACROSS + [LATE] + [LATE], Restarted)
    ensures DeltasInTime(ACROSS + [LATE] + [LATE])
    ensures ReportsIn(ACROSS + [LATE] + [LATE], GT.ROOM, 2) == [SUSPECTED] + [VIOLATION]
  {
    LateIsTold();
    LateIsInTime();
    LateIsCharged();
  }

  // ---- a delta outlives its lifecycle ---------------------------------------

  const NINE := IB.OrderAdd(9, 0, 0, 100, 10, 0, 0)

  /** The lifecycle that is left adds order 7, the next one orders 8 and 9. */
  function Renewed(life: nat): Career {
    Career(map[], 0, if life == 0 then [SEVEN] else [EIGHT, NINE])
  }

  /** After the wipe comes the delta 1 of the left lifecycle, then the delta 2 of
      the next one, whose first datagram is lost. */
  const MIXED: seq<Turn> :=
    [] + [Heard(GT.Wiped, 0)] + [Heard(Says(Renewed(0), 1), 0)] + [Heard(Says(Renewed(1), 2), 1)]

  const SECOND := Lists(Renewed(1), 2, 1)

  lemma {:induction false} ThreeHeard(a: Turn, b: Turn, c: Turn, l: GT.Limits)
    requires a.Heard? && b.Heard? && c.Heard?
    ensures Clean([] + [a] + [b] + [c], l) && HeardIn([] + [a] + [b] + [c]) == [] + [a.e] + [b.e] + [c.e]
  {
    NothingHeard(l);
    OneTurnOn([], a, l, 2);
    HeardStaysClean([], a, l);
    OneTurnOn([] + [a], b, l, 2);
    HeardStaysClean([] + [a], b, l);
    OneTurnOn([] + [a] + [b], c, l, 2);
    HeardStaysClean([] + [a] + [b], c, l);
  }

  lemma OneEventOn(es: seq<GT.Event>, e: GT.Event, l: GT.Limits)
    ensures GT.Run(es + [e], l) == GT.Step(GT.Run(es, l), e, l)
    ensures GT.LifeOf(es + [e]) == GT.LifeAfter(GT.LifeOf(es), e)
  {
    assert (es + [e])[..|es|] == es;
  }

  lemma {:induction false} TwoAfterAWipe(d1: GT.Delta, d2: GT.Delta, l: GT.Limits)
    requires d1.perSeq == 1 && d2.perSeq == 2
    ensures var es := [] + [GT.Wiped] + [GT.Applied(d1, GT.CLEAR)] + [GT.Applied(d2, GT.CLEAR)];
            && GT.Run(es, l).track.seqs == Gate.Seqs(Some(2), true, false)
            && GT.LifeOf(es).deltas == [d1, d2]
  {
    OneEventOn([], GT.Wiped, l);
    OneEventOn([] + [GT.Wiped], GT.Applied(d1, GT.CLEAR), l);
    OneEventOn([] + [GT.Wiped] + [GT.Applied(d1, GT.CLEAR)], GT.Applied(d2, GT.CLEAR), l);
    assert [] + [d1] + [d2] == [d1, d2];
  }

  lemma EightIsListed()
    ensures 8 in Renewed(1).BookAt(2) && !IB.IsHidden(Renewed(1).BookAt(2)[8].flags)
  {
    var ops := Renewed(1).ops;
    assert ops[..2] == ops && ops[..1] == [EIGHT] && [EIGHT][..0] == [];
  }

  lemma EightWasNotTakenIn()
    ensures 8 !in Rests(map[], Renewed(0).ops[..1] + Renewed(1).ops[1..2])
  {
    assert Renewed(0).ops[..1] + Renewed(1).ops[1..2] == [SEVEN, NINE];
    assert [SEVEN, NINE][..1] == [SEVEN] && [SEVEN][..0] == [];
  }

  lemma {:induction false} MixedDiffers(es: seq<GT.Event>)
    requires es == [] + [GT.Wiped] + [Says(Renewed(0), 1)] + [Says(Renewed(1), 2)]
    ensures var cycle := CycleAt(es, GT.ROOM, SECOND.g, true, true); cycle.Compared? && cycle.sig != {}
  {
    var left, now := Renewed(0), Renewed(1);
    TwoAfterAWipe(Says(left, 1).delta, Says(now, 2).delta, GT.ROOM);
    ListingIsTrue(now, 2);
    ComparesAtItsNumber(es, GT.ROOM, SECOND.g);
    LeftDeltasMatchExactly(es, GT.ROOM, left, now, 1, SECOND.g, true, true);
    EightIsListed();
    EightWasNotTakenIn();
    assert !Alike(now.BookAt(2), Rests(map[], left.ops[..1] + now.ops[1..2]), SECOND.g.orders, 8);
  }

  lemma {:induction false} MixedIsCharged()
    ensures ReportsIn(MIXED + [SECOND] + [SECOND], GT.ROOM, 2) == [SUSPECTED] + [VIOLATION]
  {
    ThreeHeard(Heard(GT.Wiped, 0), Heard(Says(Renewed(0), 1), 0), Heard(Says(Renewed(1), 2), 1), GT.ROOM);
    MixedDiffers(HeardIn(MIXED));
    TwiceIsAViolation(MIXED, SECOND, GT.ROOM, CycleAt(HeardIn(MIXED), GT.ROOM, SECOND.g, true, true));
  }

  lemma {:induction false} MixedIsTold()
    ensures Told(MIXED + [SECOND] + [SECOND], Renewed)
  {
    assert Told(MIXED, Renewed);
    ListingIsTrue(Renewed(1), 2);
    TwiceTold(MIXED, SECOND, Renewed);
  }

  lemma NoGroupsInTime(ts: seq<Turn>, pub: nat -> Career)
    requires forall i :: 0 <= i < |ts| ==> ts[i].Heard?
    ensures GroupsInTime(ts, pub)
  {
  }

  lemma {:induction false} OneLifeLeft(e: GT.Event, e': GT.Event)
    requires e.Applied? && e'.Applied?
    ensures LivesIn([] + [Heard(GT.Wiped, 0)] + [Heard(e, 0)] + [Heard(e', 1)]) == 1
  {
    var a, b, c := Heard(GT.Wiped, 0), Heard(e, 0), Heard(e', 1);
    OneTurnOn([], a, GT.ROOM, 2);
    OneTurnOn([] + [a], b, GT.ROOM, 2);
    OneTurnOn([] + [a] + [b], c, GT.ROOM, 2);
  }

  /** Every lifecycle opens with an empty book and every group is judged in its own;
      but the wiped tracker takes in a delta 1 of the left lifecycle and goes on
      with the delta 2 of the next. */
  lemma LeftDeltaAccuses()
    ensures AllClear(Renewed)
    ensures Told(MIXED + [SECOND] + [SECOND], Renewed)
    ensures GroupsInTime(MIXED + [SECOND] + [SECOND], Renewed)
    ensures ReportsIn(MIXED + [SECOND] + [SECOND], GT.ROOM, 2) == [SUSPECTED] + [VIOLATION]
  {
    MixedIsTold();
    OneLifeLeft(Says(Renewed(0), 1), Says(Renewed(1), 2));
    NoGroupsInTime(MIXED, Renewed);
    TwiceGroupInTime(MIXED, SECOND, Renewed);
    MixedIsCharged();
  }
}
