/** What the findings on one instrument's deltas and snapshot groups mean in terms of
    what was received: recovery after a reset, the first number, replays, and what
    the gate of the referential checks lets through. */
module GateLaws {
  import opened Core
  import opened Gate
  import opened GateTrust
  import IB = InstrBook

  predicate Draws(fs: seq<Finding>, rule: Rule, status: Status) {
    exists i :: 0 <= i < |fs| && fs[i].rule == rule && fs[i].status == status
  }

  lemma DrawsOfParts(a: seq<Finding>, b: seq<Finding>, rule: Rule, status: Status)
    ensures Draws(a + b, rule, status) <==> Draws(a, rule, status) || Draws(b, rule, status)
  {
    assert forall i :: 0 <= i < |a| ==> (a + b)[i] == a[i];
    assert forall i :: 0 <= i < |b| ==> (a + b)[|a| + i] == b[i];
  }

  /** The findings on a delta that arrives next. */
  function On(es: seq<Event>, l: Limits, n: u32, digest: u64, at: Sight): seq<Finding> {
    DeltaFindings(Run(es, l).track, at, Paid(n, digest))
  }

  // ---- recovery ---------------------------------------------------------------

  /** The number of the first snapshot since the last reset to begin at the reset's
      own anchor. */
  function RecoveredAt(es: seq<Event>): Option<u32> {
    if es == [] then None
    else
      var init, e := es[..|es| - 1], es[|es| - 1];
      match e
      case InstrReset(_) => None
      case Wiped => None
      case SnapBegin(a, k) =>
        if RecoveredAt(init).None? && LifeOf(init).anchor == Some(a) then Some(k) else RecoveredAt(init)
      case Applied(_, _) => RecoveredAt(init)
      case SnapEnd(_, _, _) => RecoveredAt(init)
  }

  /** The anchor of a reset since which no delta came and no group completed. */
  function Owed(es: seq<Event>): Option<u64> {
    if es == [] then None
    else
      match es[|es| - 1]
      case InstrReset(a) => Some(a)
      case Wiped => None
      case SnapBegin(_, _) => Owed(es[..|es| - 1])
      case Applied(_, _) => None
      case SnapEnd(_, _, _) => None
  }

  predicate Recalls(t: Track, h: Life, k: Option<u32>, owed: Option<u64>) {
    && t.rec.k == k && t.rec.awaiting == owed
    && t.rec.pendingAnchor == (if k.None? then h.anchor else None)
    && (t.seqs.last.None? <==> h.deltas == [])
    && (h.deltas == [] ==> (t.rec.seenReset <==> h.anchor.Some?))
  }

  lemma RecallsDelta(t: Track, h: Life, k: Option<u32>, owed: Option<u64>, d: Delta)
    requires Recalls(t, h, k, owed)
    ensures Recalls(OnDelta(t, Paid(d.perSeq, d.digest)), Life(h.anchor, h.recovered, h.deltas + [d]), k, None)
  {
  }

  lemma {:induction false} RecallsRun(es: seq<Event>, l: Limits)
    ensures Recalls(Run(es, l).track, LifeOf(es), RecoveredAt(es), Owed(es))
  {
    if es != [] {
      var init, e := es[..|es| - 1], es[|es| - 1];
      RecallsRun(init, l);
      if e.Applied? { RecallsDelta(Run(init, l).track, LifeOf(init), RecoveredAt(init), Owed(init), e.delta); }
    }
  }

  lemma FirstIs(t: Track, at: Sight, n: u32, digest: u64)
    requires t.seqs.last.None?
    ensures var fs := DeltaFindings(t, at, Paid(n, digest));
            && (forall st :: Draws(fs, NoDangling, st)
                  <==> Draws(FirstFindings(t.rec.k, t.rec.seenReset, at, n), NoDangling, st))
            && (forall st :: Draws(fs, FirstValue, st)
                  <==> Draws(FirstFindings(t.rec.k, t.rec.seenReset, at, n), FirstValue, st))
  {
    var a, b := PrematureFindings(t.rec, at), FirstFindings(t.rec.k, t.rec.seenReset, at, n);
    assert DeltaFindings(t, at, Paid(n, digest)) == a + b;
    assert forall i :: 0 <= i < |b| ==> (a + b)[|a| + i] == b[i];
  }

  /** After a recovery snapshot that began at the reset's anchor with number k, and
      before any delta, the first delta passes if and only if its number is k + 1, or
      0 after the last u32, and is charged if and only if it is another number and
      the port shows no loss. */
  lemma {:induction false} RecoveryChargedExactly(
    es: seq<Event>, l: Limits, k: u32, n: u32, digest: u64, at: Sight)
    requires LifeOf(es).deltas == [] && RecoveredAt(es) == Some(k)
    ensures var fs, due := On(es, l, n, digest, at), if k == 0xFFFF_FFFF then 0 else k + 1;
            && (Draws(fs, NoDangling, Pass) <==> n == due)
            && (Draws(fs, NoDangling, Violation) <==> n != due && at.gapless)
            && (Draws(fs, NoDangling, Unverifiable) <==> n != due && !at.gapless)
            && (forall st :: !Draws(fs, FirstValue, st))
  {
    RecallsRun(es, l);
    FirstIs(Run(es, l).track, at, n, digest);
    var fs := FirstFindings(Some(k), Run(es, l).track.rec.seenReset, at, n);
    assert |fs| == 1 && fs[0] == fs[0];
  }

  /** Without one, the first delta of a lifecycle draws a finding if and only if its
      number is not 1: a violation after a reset on a port that shows no loss, and
      unverifiable otherwise. */
  lemma {:induction false} FirstValueChargedExactly(es: seq<Event>, l: Limits, n: u32, digest: u64, at: Sight)
    requires LifeOf(es).deltas == [] && RecoveredAt(es).None?
    ensures var fs := On(es, l, n, digest, at);
            && (Draws(fs, FirstValue, Violation) <==> n != 1 && LifeOf(es).anchor.Some? && at.gapless)
            && (Draws(fs, FirstValue, Unverifiable) <==> n != 1 && !(LifeOf(es).anchor.Some? && at.gapless))
            && (forall st :: !Draws(fs, NoDangling, st))
  {
    RecallsRun(es, l);
    FirstIs(Run(es, l).track, at, n, digest);
    var fs := FirstFindings(None, Run(es, l).track.rec.seenReset, at, n);
    assert n != 1 ==> |fs| == 1 && fs[0] == fs[0];
  }

  /** A delta before the recovery a reset announced is reported if and only if no
      delta and no completed group came since: as not applicable while the snapshot
      port was never seen, and charged if and only if neither port shows a loss. */
  lemma {:induction false} PrematureChargedExactly(es: seq<Event>, l: Limits, n: u32, digest: u64, at: Sight)
    ensures var fs := On(es, l, n, digest, at);
            && (Draws(fs, SnapshotFollows, NA) <==> Owed(es).Some? && !at.snapBound)
            && (Draws(fs, SnapshotFollows, Violation)
                <==> Owed(es).Some? && at.snapBound && at.gapless && at.gaplessSnap)
            && (Draws(fs, SnapshotFollows, Unverifiable)
                <==> Owed(es).Some? && at.snapBound && !(at.gapless && at.gaplessSnap))
  {
    RecallsRun(es, l);
    var t := Run(es, l).track;
    PrematureAlone(t, n, digest, at, NA);
    PrematureAlone(t, n, digest, at, Violation);
    PrematureAlone(t, n, digest, at, Unverifiable);
  }

  lemma PrematureAlone(t: Track, n: u32, digest: u64, at: Sight, st: Status)
    ensures Draws(DeltaFindings(t, at, Paid(n, digest)), SnapshotFollows, st)
      <==> t.rec.awaiting.Some?
           && st == if !at.snapBound then NA else if at.gapless && at.gaplessSnap then Violation else Unverifiable
  {
    var a, b := PrematureFindings(t.rec, at), SequenceFindings(t, at, Paid(n, digest));
    DrawsOfParts(a, b, SnapshotFollows, st);
    assert forall i :: 0 <= i < |b| ==> b[i].rule != SnapshotFollows;
    assert |a| > 0 ==> |a| == 1 && a[0].rule == SnapshotFollows;
  }

  /** The first group to complete after a reset answers it, and its anchor is charged
      if and only if it is not the reset's own, the group is clean and the
      market-data port shows no loss. */
  lemma {:induction false} AnchorGradedExactly(es: seq<Event>, l: Limits, anchor: u64, dirty: bool, at: Sight)
    ensures var fs, owed := SnapEndFindings(Run(es, l).track, at, anchor, dirty), Owed(es);
            && (Draws(fs, SnapshotFollows, Pass) <==> owed.Some?)
            && (Draws(fs, RecoveryAnchor, Pass) <==> owed == Some(anchor))
            && (Draws(fs, RecoveryAnchor, Violation)
                <==> owed.Some? && owed != Some(anchor) && !dirty && at.gapless)
            && (Draws(fs, RecoveryAnchor, Unverifiable)
                <==> owed.Some? && owed != Some(anchor) && !(!dirty && at.gapless))
  {
    RecallsRun(es, l);
    var fs := SnapEndFindings(Run(es, l).track, at, anchor, dirty);
    assert fs != [] ==> |fs| == 2 && fs[0].rule == SnapshotFollows && fs[1].rule == RecoveryAnchor;
  }

  // ---- the numbers after the first ---------------------------------------------

  lemma LaterIs(t: Track, at: Sight, n: u32, digest: u64, rule: Rule, st: Status)
    requires t.seqs.last.Some? && !t.rec.seenReset && rule != SnapshotFollows
    ensures Draws(DeltaFindings(t, at, Paid(n, digest)), rule, st)
      <==> Draws(LaterFindings(t.rec.pendingAnchor.Some?, t.paid, t.seqs.last.value, at, Paid(n, digest)), rule, st)
  {
    var a := PrematureFindings(t.rec, at);
    var b := LaterFindings(t.rec.pendingAnchor.Some?, t.paid, t.seqs.last.value, at, Paid(n, digest));
    DrawsOfParts(a, b, rule, st);
    assert forall i :: 0 <= i < |a| ==> a[i].rule == SnapshotFollows;
  }

  /** After a lifecycle's first delta and before the wrap, a delta draws a density
      finding if and only if it skips a number past the greatest so far, and it is a
      violation if and only if the port shows no loss. */
  lemma {:induction false} SkipChargedExactly(es: seq<Event>, l: Limits, n: u32, digest: u64, at: Sight)
    requires LifeOf(es).deltas != [] && Greatest(LifeOf(es).deltas) < 0xFFFF_FFFF
    ensures var fs, skips := On(es, l, n, digest, at), n > Greatest(LifeOf(es).deltas) + 1;
            && (Draws(fs, Density, Violation) <==> skips && at.gapless)
            && (Draws(fs, Density, Unverifiable) <==> skips && !at.gapless)
  {
    NumberedRun(es, l);
    var t := Run(es, l).track;
    LaterIs(t, at, n, digest, Density, Violation);
    LaterIs(t, at, n, digest, Density, Unverifiable);
    SkipIs(t, at, n, digest, Violation);
    SkipIs(t, at, n, digest, Unverifiable);
  }

  lemma SkipIs(t: Track, at: Sight, n: u32, digest: u64, st: Status)
    requires t.seqs.last.Some? && t.seqs.last.value < 0xFFFF_FFFF
    ensures var fs := LaterFindings(t.rec.pendingAnchor.Some?, t.paid, t.seqs.last.value, at, Paid(n, digest));
            Draws(fs, Density, st)
            <==> n > t.seqs.last.value + 1 && st == if at.gapless then Violation else Unverifiable
  {
    var fs := LaterFindings(t.rec.pendingAnchor.Some?, t.paid, t.seqs.last.value, at, Paid(n, digest));
    if n > t.seqs.last.value + 1 {
      assert |fs| == 1 && fs[0].rule == Density;
    } else {
      assert forall i :: 0 <= i < |fs| ==> fs[i].rule != Density;
    }
  }

  /** The delta 0 after the last u32 is charged as a wrap, and nothing else is. */
  lemma {:induction false} WrapChargedExactly(es: seq<Event>, l: Limits, n: u32, digest: u64, at: Sight)
    requires LifeOf(es).deltas != []
    ensures Draws(On(es, l, n, digest, at), WrapBeforeReset, Violation)
      <==> Greatest(LifeOf(es).deltas) == 0xFFFF_FFFF && n == 0 && at.gapless
  {
    NumberedRun(es, l);
    var t := Run(es, l).track;
    LaterIs(t, at, n, digest, WrapBeforeReset, Violation);
    var fs := LaterFindings(t.rec.pendingAnchor.Some?, t.paid, t.seqs.last.value, at, Paid(n, digest));
    assert n == 0 && t.seqs.last.value == 0xFFFF_FFFF ==> |fs| == 1 && fs[0].rule == WrapBeforeReset;
  }

  // ---- replays with another body ------------------------------------------------

  /** Delta i is the latest under the number, and among the last sixteen. */
  predicate LatestUnder(ds: seq<Delta>, n: u32, i: int) {
    && 0 <= i < |ds| && |ds| - 16 <= i && ds[i].perSeq == n
    && forall j :: i < j < |ds| ==> ds[j].perSeq != n
  }

  lemma {:induction false} LatestExactly(ps: seq<Paid>, n: u32)
    ensures Latest(ps, n).Some? ==>
              exists i :: 0 <= i < |ps| && ps[i] == Paid(n, Latest(ps, n).value)
                          && forall j :: i < j < |ps| ==> ps[j].perSeq != n
    ensures Latest(ps, n).None? ==> forall i :: 0 <= i < |ps| ==> ps[i].perSeq != n
  {
    if ps != [] && ps[|ps| - 1].perSeq != n {
      var init := ps[..|ps| - 1];
      LatestExactly(init, n);
      if Latest(init, n).Some? {
        var i :| 0 <= i < |init| && init[i] == Paid(n, Latest(init, n).value)
                 && forall j :: i < j < |init| ==> init[j].perSeq != n;
        assert ps[i] == init[i] && forall j :: i < j < |init| ==> ps[j] == init[j];
      }
    }
  }

  lemma {:induction false} RememberedIs(es: seq<Event>, l: Limits, n: u32, i: int)
    requires LatestUnder(LifeOf(es).deltas, n, i)
    ensures Latest(Run(es, l).track.paid, n) == Some(LifeOf(es).deltas[i].digest)
  {
    var ds, ps := LifeOf(es).deltas, Run(es, l).track.paid;
    RemembersTheLastSixteen(es, l);
    LatestExactly(ps, n);
    var d := |ds| - |ps|;
    assert forall j :: 0 <= j < |ps| ==> ps[j] == Paid(ds[d + j].perSeq, ds[d + j].digest);
    assert ps[i - d].perSeq == n;
  }

  lemma {:induction false} ForgottenIs(es: seq<Event>, l: Limits, n: u32)
    requires forall i :: !LatestUnder(LifeOf(es).deltas, n, i)
    ensures Latest(Run(es, l).track.paid, n).None?
  {
    var ds, ps := LifeOf(es).deltas, Run(es, l).track.paid;
    RemembersTheLastSixteen(es, l);
    LatestExactly(ps, n);
    var d := |ds| - |ps|;
    assert forall j :: 0 <= j < |ps| ==> ps[j] == Paid(ds[d + j].perSeq, ds[d + j].digest);
    if Latest(ps, n).Some? {
      var i :| 0 <= i < |ps| && ps[i] == Paid(n, Latest(ps, n).value)
               && forall j :: i < j < |ps| ==> ps[j].perSeq != n;
      forall j | d + i < j < |ds| ensures ds[j].perSeq != n { assert ps[j - d].perSeq != n; }
      assert LatestUnder(ds, n, d + i);
    }
  }

  /** A repeated number is charged as divergent if and only if the latest delta under
      it is among the last sixteen and had another body, and the port shows no loss. */
  lemma {:induction false} DivergentChargedExactly(es: seq<Event>, l: Limits, n: u32, digest: u64, at: Sight)
    requires LifeOf(es).deltas != [] && Greatest(LifeOf(es).deltas) < 0xFFFF_FFFF
    ensures var ds := LifeOf(es).deltas;
            Draws(On(es, l, n, digest, at), DupDivergent, Violation)
            <==> at.gapless && n <= Greatest(ds) && exists i :: LatestUnder(ds, n, i) && ds[i].digest != digest
  {
    var t, ds := Run(es, l).track, LifeOf(es).deltas;
    NumberedRun(es, l);
    LaterIs(t, at, n, digest, DupDivergent, Violation);
    DivergentIs(t, at, n, digest);
    if i :| LatestUnder(ds, n, i) {
      RememberedIs(es, l, n, i);
      assert forall j :: LatestUnder(ds, n, j) ==> j == i;
    } else {
      ForgottenIs(es, l, n);
    }
  }

  lemma DivergentIs(t: Track, at: Sight, n: u32, digest: u64)
    requires t.seqs.last.Some? && t.seqs.last.value < 0xFFFF_FFFF
    ensures var fs := LaterFindings(t.rec.pendingAnchor.Some?, t.paid, t.seqs.last.value, at, Paid(n, digest));
            Draws(fs, DupDivergent, Violation)
            <==> at.gapless && n <= t.seqs.last.value
                 && Latest(t.paid, n).Some? && Latest(t.paid, n).value != digest
  {
    var last := t.seqs.last.value;
    if n <= last {
      var a := If(n == 1 && last > 1 && !t.rec.pendingAnchor.Some?,
                  Finding(NoSnapshotReset, StatusFor(at.gapless), NoReason));
      var b := DivergentFindings(t.paid, at, Paid(n, digest));
      DrawsOfParts(a, b, DupDivergent, Violation);
      assert |b| > 0 ==> b == [Finding(DupDivergent, StatusFor(at.gapless), NoReason)];
      assert b != [] ==> b[0] == b[0];
    }
  }

  // ---- the gates ------------------------------------------------------------------

  /** No finding on a delta is a violation while the market-data port shows a loss. */
  lemma GapNeverChargesADelta(t: Track, at: Sight, p: Paid)
    requires !at.gapless
    ensures forall rule :: !Draws(DeltaFindings(t, at, p), rule, Violation)
  {
    var a, b := PrematureFindings(t.rec, at), SequenceFindings(t, at, p);
    assert forall i :: 0 <= i < |a| ==> a[i].status != Violation;
    assert forall i :: 0 <= i < |b| ==> b[i].status != Violation;
    forall rule ensures !Draws(a + b, rule, Violation) { DrawsOfParts(a, b, rule, Violation); }
  }

  function NextDue(g: nat): nat {
    if g == 0xFFFF_FFFF then 0 else g + 1
  }

  /** The deltas began with number 1 before any recovery point, and none skipped a
      number past the greatest so far. */
  predicate Unskipped(h: Life) {
    && !h.recovered && h.deltas != [] && h.deltas[0].perSeq == 1
    && forall i :: 0 < i < |h.deltas| ==> h.deltas[i].perSeq <= NextDue(Greatest(h.deltas[..i]))
  }

  lemma UnskippedStep(h: Life, d: Delta)
    ensures Unskipped(Life(h.anchor, h.recovered, h.deltas + [d]))
      <==> if h.deltas == [] then !h.recovered && d.perSeq == 1
           else Unskipped(h) && d.perSeq <= NextDue(Greatest(h.deltas))
  {
    var ds := h.deltas + [d];
    assert ds[..|h.deltas|] == h.deltas;
    assert forall i :: 0 <= i < |h.deltas| ==> ds[i] == h.deltas[i] && ds[..i] == h.deltas[..i];
    assert h.deltas != [] ==> ds[|h.deltas|] == d;
  }

  predicate TrustSays(t: Track, h: Life) {
    Waiting(t, h) && Numbered(t, h) && (t.seqs.trusted <==> Unskipped(h))
  }

  lemma TrustSaysDelta(t: Track, h: Life, d: Delta)
    requires TrustSays(t, h)
    ensures OnDelta(t, Paid(d.perSeq, d.digest)).seqs.trusted
      <==> Unskipped(Life(h.anchor, h.recovered, h.deltas + [d]))
  {
    UnskippedStep(h, d);
  }

  lemma {:induction false} TrustSaysRun(es: seq<Event>, l: Limits)
    ensures TrustSays(Run(es, l).track, LifeOf(es))
  {
    InvRun(es, l);
    NumberedRun(es, l);
    if es != [] {
      var init, e := es[..|es| - 1], es[|es| - 1];
      TrustSaysRun(init, l);
      if e.Applied? { TrustSaysDelta(Run(init, l).track, LifeOf(init), e.delta); }
    }
  }

  /** A referential anomaly may be charged exactly when the instrument is known, the
      market-data port shows no loss, the lifecycle's deltas began with number 1 and
      skipped none, and this one is the next. */
  lemma {:induction false} GateOpensExactly(es: seq<Event>, l: Limits, known: bool, gapless: bool, n: u32)
    ensures GateConsumer(Run(es, l).track.seqs, known, gapless, n)
      <==> known && gapless && Unskipped(LifeOf(es)) && n == NextDue(Greatest(LifeOf(es).deltas))
  {
    TrustSaysRun(es, l);
  }
}
