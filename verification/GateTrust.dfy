/** What trust in one instrument's order history means over any run: which
    histories earn it, what the book then is, and where the guard that turns
    referential anomalies into violations is weaker than the trust it names. */
module GateTrust {
  import opened Core
  import opened Gate
  import Series
  import IB = InstrBook
  import IR = InstrBookRuns

  datatype Delta = Delta(perSeq: u32, digest: u64, msg: IB.Msg)

  /** Everything that reaches one instrument's tracker. Wiped stands for a Reset
      Count change or the instrument leaving the manifest. */
  datatype Event =
    | Applied(delta: Delta, at: Sight)
    | SnapBegin(anchor: u64, k: u32)
    | SnapEnd(anchor: u64, dirty: bool, at: Sight)
    | InstrReset(anchor: u64)
    | Wiped

  /** The sizes of the three ID windows. */
  datatype Limits = Limits(removed: int, hidden: int, trades: int)

  datatype Inst = Inst(track: Track, book: IB.Book)

  function Empty(l: Limits): IB.Book {
    IR.Empty(l.removed, l.hidden, l.trades)
  }

  function Step(s: Inst, e: Event, l: Limits): Inst {
    match e
    case Applied(d, _) => Inst(OnDelta(s.track, Paid(d.perSeq, d.digest)), IB.Step(s.book, d.msg))
    case SnapBegin(a, k) => Inst(OnSnapBegin(s.track, a, k), s.book)
    case SnapEnd(_, _, _) => Inst(OnSnapEnd(s.track), s.book)
    case InstrReset(a) => Inst(AfterReset(a), Empty(l))
    case Wiped => Inst(COLD, Empty(l))
  }

  function Run(es: seq<Event>, l: Limits): Inst {
    if es == [] then Inst(COLD, Empty(l)) else Step(Run(es[..|es| - 1], l), es[|es| - 1], l)
  }

  // ---- the history of the current lifecycle --------------------------------

  /** What was received since the last reset or wipe: the reset's anchor, whether
      its recovery snapshot began before any delta, and the deltas. */
  datatype Life = Life(anchor: Option<u64>, recovered: bool, deltas: seq<Delta>)

  function LifeAfter(h: Life, e: Event): Life {
    match e
    case Applied(d, _) => Life(h.anchor, h.recovered, h.deltas + [d])
    case SnapBegin(a, _) => Life(h.anchor, h.recovered || (h.deltas == [] && h.anchor == Some(a)), h.deltas)
    case SnapEnd(_, _, _) => h
    case InstrReset(a) => Life(Some(a), false, [])
    case Wiped => Life(None, false, [])
  }

  function LifeOf(es: seq<Event>): Life {
    if es == [] then Life(None, false, []) else LifeAfter(LifeOf(es[..|es| - 1]), es[|es| - 1])
  }

  function Msgs(ds: seq<Delta>): (ms: seq<IB.Msg>)
    ensures |ms| == |ds|
  {
    seq(|ds|, i requires 0 <= i < |ds| => ds[i].msg)
  }

  /** The i-th number of an unbroken sequence: 1, 2, 3 and so on to the last u32,
      after which the source keeps expecting 0. */
  function Nth(i: nat): u32 {
    if i < U32_MAX then i + 1 else 0
  }

  predicate Whole(h: Life) {
    !h.recovered && h.deltas != [] && forall i :: 0 <= i < |h.deltas| ==> h.deltas[i].perSeq == Nth(i)
  }

  predicate Trusted(s: Seqs) { s.trusted && !s.dup }

  predicate Waiting(t: Track, h: Life) {
    && (t.seqs.last.None? <==> h.deltas == [])
    && (h.deltas == [] ==>
          && t.seqs == COLD.seqs
          && (t.rec.k.Some? <==> h.recovered)
          && (!h.recovered ==> t.rec.pendingAnchor == h.anchor))
  }

  predicate Earned(s: Seqs, h: Life) {
    && (Trusted(s) <==> Whole(h))
    && (Whole(h) ==> s.last == Some(if |h.deltas| < U32_MAX then |h.deltas| else U32_MAX))
  }

  predicate Inv(s: Inst, h: Life, l: Limits) {
    Waiting(s.track, h) && Earned(s.track.seqs, h) && s.book == IR.Run(Empty(l), Msgs(h.deltas))
  }

  lemma WholeStep(h: Life, d: Delta)
    ensures Whole(LifeAfter(h, Applied(d, Sight(true, true, true))))
      <==> !h.recovered && (h.deltas == [] || Whole(h)) && d.perSeq == Nth(|h.deltas|)
  {
    var ds := h.deltas + [d];
    assert ds[|h.deltas|] == d;
    assert forall i :: 0 <= i < |h.deltas| ==> ds[i] == h.deltas[i];
  }

  lemma EarnedStep(t: Track, h: Life, d: Delta, at: Sight)
    requires Waiting(t, h) && Earned(t.seqs, h)
    ensures Earned(Advance(t.seqs, t.rec.k, d.perSeq), LifeAfter(h, Applied(d, at)))
  {
    WholeStep(h, d);
  }

  lemma BookStep(b: IB.Book, ds: seq<Delta>, d: Delta)
    ensures IR.Run(b, Msgs(ds + [d])) == IB.Step(IR.Run(b, Msgs(ds)), d.msg)
  {
    var ms := Msgs(ds + [d]);
    assert ms[..|ms| - 1] == Msgs(ds) && ms[|ms| - 1] == d.msg;
  }

  lemma InvStep(s: Inst, h: Life, e: Event, l: Limits)
    requires Inv(s, h, l)
    ensures Inv(Step(s, e, l), LifeAfter(h, e), l)
  {
    if e.Applied? {
      EarnedStep(s.track, h, e.delta, e.at);
      BookStep(Empty(l), h.deltas, e.delta);
    }
  }

  lemma {:induction false} InvRun(es: seq<Event>, l: Limits)
    ensures Inv(Run(es, l), LifeOf(es), l)
  {
    if es != [] {
      InvRun(es[..|es| - 1], l);
      InvStep(Run(es[..|es| - 1], l), LifeOf(es[..|es| - 1]), es[|es| - 1], l);
    }
  }

  // ---- the theorems --------------------------------------------------------

  /** As-of-K, exactly: in every reachable state the two trust flags say that the
      deltas received since the lifecycle began are numbered 1, 2, 3 and so on
      without a hole or a repeat, and not resumed from a recovery snapshot. */
  lemma TrustIsEarnedExactly(es: seq<Event>, l: Limits)
    ensures Trusted(Run(es, l).track.seqs) <==> Whole(LifeOf(es))
  {
    InvRun(es, l);
  }

  /** Until the number wraps, a trusted book is the fold of exactly the deltas 1
      to `lastInstrSeq`, each applied once and in order. */
  lemma TrustedBookIsAsOfLast(es: seq<Event>, l: Limits)
    requires Trusted(Run(es, l).track.seqs)
    requires |LifeOf(es).deltas| <= U32_MAX
    ensures var s, ds := Run(es, l), LifeOf(es).deltas;
            && s.track.seqs.last == Some(|ds|)
            && (forall i :: 0 <= i < |ds| ==> ds[i].perSeq == i + 1)
            && s.book == IR.Run(Empty(l), Msgs(ds))
  {
    InvRun(es, l);
  }

  /** Past the wrap the number stands still while trust is kept and the book
      moves on, so there the book is no longer the one as of `lastInstrSeq`. */
  lemma WrapOutrunsTheNumber(es: seq<Event>, l: Limits, d: Delta, at: Sight)
    requires Trusted(Run(es, l).track.seqs) && Run(es, l).track.seqs.last == Some(U32_MAX)
    requires d.perSeq == 0
    ensures var s, s' := Run(es, l), Run(es + [Applied(d, at)], l);
            && s'.track.seqs == s.track.seqs
            && s'.book == IB.Step(s.book, d.msg)
    ensures DeltaFindings(Run(es, l).track, at, Paid(0, d.digest))
      == PrematureFindings(Run(es, l).track.rec, at) + [Finding(WrapBeforeReset, StatusFor(at.gapless), NoReason)]
  {
    var es' := es + [Applied(d, at)];
    assert es'[..|es'| - 1] == es;
  }

  /** A referential verdict passed under the gate on a book no replay has touched
      is the verdict of a checker that saw every delta since the lifecycle began
      and forgets nothing, unless it says it cannot decide for overflow. */
  lemma GatedVerdictIsTheFullKnowledgeVerdict(es: seq<Event>, l: Limits, d: Delta, known: bool, gapless: bool)
    requires var t := Run(es, l).track; GateConsumer(t.seqs, known, gapless, d.perSeq) && !t.seqs.dup
    requires |LifeOf(es).deltas| < U32_MAX
    ensures var ds := LifeOf(es).deltas + [d]; forall i :: 0 <= i < |ds| ==> ds[i].perSeq == i + 1
    ensures var fs := IB.Findings(Run(es, l).book, d.msg, true);
            || fs == IR.IdealFindings(IR.IdealRun(Msgs(LifeOf(es).deltas)), d.msg, true)
            || (IR.OnlyOverflow(fs) && IR.MayBeForgotten(Run(es, l).book, d.msg))
  {
    TrustedBookIsAsOfLast(es, l);
    IR.BoundedNeverMisjudges(Msgs(LifeOf(es).deltas), d.msg, l.removed, l.hidden, l.trades);
  }

  // ---- replays ---------------------------------------------------------------

  function PaidOf(ds: seq<Delta>): (ps: seq<Paid>)
    ensures |ps| == |ds|
  {
    seq(|ds|, i requires 0 <= i < |ds| => Paid(ds[i].perSeq, ds[i].digest))
  }

  /** The tracker remembers exactly the last sixteen deltas of the lifecycle. */
  lemma {:induction false} RemembersTheLastSixteen(es: seq<Event>, l: Limits)
    ensures Run(es, l).track.paid == Series.TakeLast(PaidOf(LifeOf(es).deltas), PAYLOAD_RING_CAP)
  {
    if es != [] {
      var init, e := es[..|es| - 1], es[|es| - 1];
      RemembersTheLastSixteen(init, l);
      if e.Applied? {
        var ps, p := PaidOf(LifeOf(init).deltas), Paid(e.delta.perSeq, e.delta.digest);
        assert PaidOf(LifeOf(es).deltas) == ps + [p];
        Series.LastOfLast(ps, p, PAYLOAD_RING_CAP);
      }
    }
  }

  lemma {:induction false} LatestIs(ps: seq<Paid>, n: u32)
    ensures Latest(ps, n).Some? ==> exists i :: 0 <= i < |ps| && ps[i] == Paid(n, Latest(ps, n).value)
  {
    if ps != [] && ps[|ps| - 1].perSeq != n {
      LatestIs(ps[..|ps| - 1], n);
    }
  }

  /** Every number carries one body wherever it occurs. */
  predicate OneBodyEach(ds: seq<Delta>) {
    forall i, j :: 0 <= i < |ds| && 0 <= j < |ds| && ds[i].perSeq == ds[j].perSeq ==> ds[i].digest == ds[j].digest
  }

  /** Deltas that are merely repeated, however often and however late, are never
      reported as divergent. */
  lemma RepeatsAreNotDivergent(es: seq<Event>, l: Limits, d: Delta, at: Sight)
    requires OneBodyEach(LifeOf(es).deltas + [d])
    ensures forall f :: f in DeltaFindings(Run(es, l).track, at, Paid(d.perSeq, d.digest)) ==> f.rule != DupDivergent
  {
    var ds, t := LifeOf(es).deltas, Run(es, l).track;
    RemembersTheLastSixteen(es, l);
    LatestIs(t.paid, d.perSeq);
    var found := Latest(t.paid, d.perSeq);
    if found.Some? {
      var i :| 0 <= i < |t.paid| && t.paid[i] == Paid(d.perSeq, found.value);
      var j := |ds| - |t.paid| + i;
      assert PaidOf(ds)[j] == t.paid[i];
      assert (ds + [d])[j] == ds[j] && (ds + [d])[|ds|] == d;
    }
    OnlyRepeatsDiverge(t, at, Paid(d.perSeq, d.digest));
  }

  lemma OnlyRepeatsDiverge(t: Track, at: Sight, p: Paid)
    requires Latest(t.paid, p.perSeq).Some? ==> Latest(t.paid, p.perSeq).value == p.digest
    ensures forall f :: f in DeltaFindings(t, at, p) ==> f.rule != DupDivergent
  {
    assert DivergentFindings(t.paid, at, p) == [];
  }

  // ---- a publisher that starts over ------------------------------------------

  function Greatest(ds: seq<Delta>): nat {
    if ds == [] then 0
    else
      var g := Greatest(ds[..|ds| - 1]);
      if ds[|ds| - 1].perSeq > g then ds[|ds| - 1].perSeq else g
  }

  predicate Past(ds: seq<Delta>, n: nat) {
    exists i :: 0 <= i < |ds| && ds[i].perSeq > n
  }

  lemma {:induction false} GreatestIsPast(ds: seq<Delta>, n: nat)
    ensures Greatest(ds) > n <==> Past(ds, n)
  {
    if ds != [] {
      var init := ds[..|ds| - 1];
      GreatestIsPast(init, n);
      assert forall i :: 0 <= i < |init| ==> init[i] == ds[i];
      if Past(ds, n) && ds[|ds| - 1].perSeq <= n {
        var i :| 0 <= i < |ds| && ds[i].perSeq > n;
        assert init[i].perSeq > n;
      }
      if Past(init, n) {
        var i :| 0 <= i < |init| && init[i].perSeq > n;
        assert ds[i].perSeq > n;
      }
    }
  }

  /** What is remembered of the numbers and of the last reset. */
  predicate Numbered(t: Track, h: Life) {
    && t.seqs.last == (if h.deltas == [] then None else Some(Greatest(h.deltas)))
    && (t.seqs.last.Some? ==> !t.rec.seenReset)
    && (h.anchor.None? ==> t.rec.pendingAnchor.None? && !t.rec.seenReset)
  }

  lemma GreatestStep(ds: seq<Delta>, d: Delta)
    ensures Greatest(ds + [d]) == if d.perSeq > Greatest(ds) then d.perSeq else Greatest(ds)
  {
    assert (ds + [d])[..|ds|] == ds;
  }

  lemma NumberedDelta(t: Track, h: Life, d: Delta)
    requires Numbered(t, h)
    ensures Numbered(OnDelta(t, Paid(d.perSeq, d.digest)), Life(h.anchor, h.recovered, h.deltas + [d]))
  {
    GreatestStep(h.deltas, d);
  }

  lemma NumberedStep(s: Inst, h: Life, e: Event, l: Limits)
    requires Numbered(s.track, h)
    ensures Numbered(Step(s, e, l).track, LifeAfter(h, e))
  {
    match e
    case Applied(d, _) => NumberedDelta(s.track, h, d);
    case SnapBegin(_, _) =>
    case SnapEnd(_, _, _) =>
    case InstrReset(_) =>
    case Wiped =>
  }

  lemma {:induction false} NumberedRun(es: seq<Event>, l: Limits)
    ensures Numbered(Run(es, l).track, LifeOf(es))
  {
    if es != [] {
      NumberedRun(es[..|es| - 1], l);
      NumberedStep(Run(es[..|es| - 1], l), LifeOf(es[..|es| - 1]), es[|es| - 1], l);
    }
  }

  /** A delta numbered 1 is charged as a restart exactly when a delta past 1, but
      none at the wrap, was taken in since the last wipe or reset, whichever era it
      came from, and no reset still waits for its recovery snapshot. */
  lemma {:induction false} RestartChargedExactly(es: seq<Event>, l: Limits, digest: u64, at: Sight)
    ensures var t, ds := Run(es, l).track, LifeOf(es).deltas;
            (exists f :: f in DeltaFindings(t, at, Paid(1, digest)) && f.rule == NoSnapshotReset)
            <==> t.rec.pendingAnchor.None? && Past(ds, 1) && !Past(ds, U32_MAX - 1)
    ensures LifeOf(es).anchor.None? ==> Run(es, l).track.rec.pendingAnchor.None?
  {
    NumberedRun(es, l);
    GreatestIsPast(LifeOf(es).deltas, 1);
    GreatestIsPast(LifeOf(es).deltas, U32_MAX - 1);
    RestartIsCharged(Run(es, l).track, digest, at);
  }

  lemma {:induction false} RestartIsCharged(t: Track, digest: u64, at: Sight)
    requires t.seqs.last.Some? ==> !t.rec.seenReset
    ensures (exists f :: f in DeltaFindings(t, at, Paid(1, digest)) && f.rule == NoSnapshotReset)
      <==> t.rec.pendingAnchor.None? && t.seqs.last.Some? && 1 < t.seqs.last.value < U32_MAX
  {
    var f := Finding(NoSnapshotReset, StatusFor(at.gapless), NoReason);
    if t.rec.pendingAnchor.None? && t.seqs.last.Some? && 1 < t.seqs.last.value < U32_MAX {
      assert SequenceFindings(t, at, Paid(1, digest))[0] == f;
    }
  }

  // ---- where the gate is weaker than the trust it names --------------------

  const CLEAR := Sight(true, true, true)

  function Fill5(perSeq: u32): Event {
    Applied(Delta(perSeq, perSeq, IB.OrderExecute(7, 0, 0, 0, 0, 5)), CLEAR)
  }

  /** An add of ten, a fill of five, and that fill once more. */
  const REPLAYED: seq<Event> :=
    [Applied(Delta(1, 1, IB.OrderAdd(7, 0, 0, 100, 10, 0, 0)), CLEAR), Fill5(2), Fill5(2)]

  const ROOM := Limits(8, 8, 8)

  /** The gate does not consult the replay flag. After a replayed fill, which
      removes the order early, the publisher's correct last fill is reported as
      an operation after removal, although every number was sent and seen. */
  lemma ReplayedFillAccuses()
    ensures var s := Run(REPLAYED, ROOM);
            && s.track.seqs.dup
            && GateConsumer(s.track.seqs, true, true, 3)
            && IB.Findings(s.book, Fill5(3).delta.msg, true) == [IB.Finding(IB.AfterRemoval, Violation, NoReason)]
    ensures IB.Findings(Run(REPLAYED[..2], ROOM).book, Fill5(3).delta.msg, true) == []
  {
    assert REPLAYED[..2][..1] == REPLAYED[..1] && REPLAYED[..1][..0] == [];
    var s1 := Run(REPLAYED[..1], ROOM);
    assert s1 == Step(Run([], ROOM), REPLAYED[0], ROOM);
    assert s1.book.live == map[7 := IB.LiveOrder(0, 0, 100, 10, 0, 0)];
    var s2 := Run(REPLAYED[..2], ROOM);
    assert s2 == Step(s1, REPLAYED[1], ROOM);
    assert s2.book.live == map[7 := IB.LiveOrder(0, 0, 100, 5, 0, 0)];
    var s3 := Run(REPLAYED, ROOM);
    assert s3 == Step(s2, REPLAYED[2], ROOM);
    assert s3.book.live == map[] && 7 in s3.book.removed.order;
    assert s3.book.hidden.order == [];
  }

  // ---- every reset is answered once ----------------------------------------

  function FindingsOf(t: Track, e: Event): seq<Finding> {
    match e
    case Applied(d, at) => DeltaFindings(t, at, Paid(d.perSeq, d.digest))
    case SnapEnd(a, dirty, at) => SnapEndFindings(t, at, a, dirty)
    case _ => []
  }

  predicate IsAnswer(f: Finding) { f.rule == SnapshotFollows }

  /** SnapshotFollows verdicts over the run. */
  function Answered(es: seq<Event>, l: Limits): nat {
    if es == [] then 0
    else
      var init := es[..|es| - 1];
      Answered(init, l) + Count(FindingsOf(Run(init, l).track, es[|es| - 1]), IsAnswer)
  }

  function Resets(es: seq<Event>): nat {
    if es == [] then 0 else Resets(es[..|es| - 1]) + (if es[|es| - 1].InstrReset? then 1 else 0)
  }

  /** Resets replaced by another reset or a wipe before anything answered them. */
  function Replaced(es: seq<Event>, l: Limits): nat {
    if es == [] then 0
    else
      var init, e := es[..|es| - 1], es[|es| - 1];
      Replaced(init, l)
      + (if (e.InstrReset? || e.Wiped?) && Run(init, l).track.rec.awaiting.Some? then 1 else 0)
  }

  lemma NoAnswerInSequence(t: Track, at: Sight, p: Paid)
    ensures Count(SequenceFindings(t, at, p), IsAnswer) == 0
  {
    match t.seqs.last
    case None => NoneCounted(FirstFindings(t.rec.k, t.rec.seenReset, at, p.perSeq), IsAnswer);
    case Some(last) =>
      NoneCounted(LaterFindings(t.rec.seenReset || t.rec.pendingAnchor.Some?, t.paid, last, at, p), IsAnswer);
  }

  lemma AnswersPerDelta(t: Track, at: Sight, p: Paid)
    ensures Count(DeltaFindings(t, at, p), IsAnswer) == if t.rec.awaiting.Some? then 1 else 0
  {
    var early := PrematureFindings(t.rec, at);
    NoAnswerInSequence(t, at, p);
    CountAdds(early, SequenceFindings(t, at, p), IsAnswer);
    if early != [] { OneCounted(early[0], IsAnswer); }
  }

  lemma AnswersPerGroup(t: Track, at: Sight, anchor: u64, dirty: bool)
    ensures Count(SnapEndFindings(t, at, anchor, dirty), IsAnswer) == if t.rec.awaiting.Some? then 1 else 0
  {
    var fs := SnapEndFindings(t, at, anchor, dirty);
    if fs != [] {
      OneCounted(fs[0], IsAnswer);
      NoneCounted([fs[1]], IsAnswer);
      CountAdds([fs[0]], [fs[1]], IsAnswer);
      assert fs == [fs[0]] + [fs[1]];
    }
  }

  lemma AnswersPerEvent(t: Track, e: Event)
    ensures Count(FindingsOf(t, e), IsAnswer)
      == if (e.Applied? || e.SnapEnd?) && t.rec.awaiting.Some? then 1 else 0
  {
    match e
    case Applied(d, at) => AnswersPerDelta(t, at, Paid(d.perSeq, d.digest));
    case SnapEnd(anchor, dirty, at) => AnswersPerGroup(t, at, anchor, dirty);
    case _ =>
  }

  /** Conservation: each InstrumentReset gets exactly one SNAPSHOT_FOLLOWS
      verdict, from the first delta, the first completed group or the end of the
      run, unless a later reset or wipe replaced it first. */
  lemma {:induction false} EveryResetIsAnsweredOnce(es: seq<Event>, l: Limits)
    ensures var open := if Run(es, l).track.rec.awaiting.Some? then 1 else 0;
            Answered(es, l) + open + Replaced(es, l) == Resets(es)
  {
    if es != [] {
      var init := es[..|es| - 1];
      EveryResetIsAnsweredOnce(init, l);
      AnswersPerEvent(Run(init, l).track, es[|es| - 1]);
    }
  }
}
