/** What enters a state after it was wiped: frames of ports that are still behind
    the reset (`mbpObserveEra` and `classify` in `engine/mbp.go`, `engine.go`).
    Exactly when they make the new era's first delta look like a restart. */
module AfterWipe {
  import opened Core
  import Eras
  import EW = EraWipe
  import MB = MbpBook
  import MI = MbpInstr
  import MS = MbpSoundness
  import Gate
  import GT = GateTrust

  // ---- market-by-price ------------------------------------------------------------

  /** A classified frame and what it says of one instrument. */
  datatype Frame = Frame(at: EW.Seen, says: seq<MI.Event>)

  function Ats(fs: seq<Frame>): seq<EW.Seen> {
    seq(|fs|, i requires 0 <= i < |fs| => fs[i].at)
  }

  predicate WipesNow(before: seq<Frame>, f: Frame) {
    EW.Observe(EW.Replayed(Ats(before)), f.at.era, f.at.ordinal).wiped
  }

  /** The instrument's state: fresh after every wipe. */
  function StateAfter(fs: seq<Frame>): MI.Instr {
    if fs == [] then MI.Fresh(0)
    else
      var init, f := fs[..|fs| - 1], fs[|fs| - 1];
      MI.Run(if WipesNow(init, f) then MI.Fresh(0) else StateAfter(init), f.says)
  }

  /** The frames since the last wipe, the wiping one included. */
  function Kept(fs: seq<Frame>): seq<Frame> {
    if fs == [] then []
    else
      var init, f := fs[..|fs| - 1], fs[|fs| - 1];
      (if WipesNow(init, f) then [] else Kept(init)) + [f]
  }

  function Said(fs: seq<Frame>): seq<MI.Event> {
    if fs == [] then [] else Said(fs[..|fs| - 1]) + fs[|fs| - 1].says
  }

  lemma {:induction false} RunAdds(s: MI.Instr, a: seq<MI.Event>, b: seq<MI.Event>)
    ensures MI.Run(s, a + b) == MI.Run(MI.Run(s, a), b)
  {
    if b == [] {
      assert a + b == a;
    } else {
      RunAdds(s, a, b[..|b| - 1]);
      assert (a + b)[..|a + b| - 1] == a + b[..|b| - 1];
    }
  }

  lemma SaidOneMore(fs: seq<Frame>, f: Frame)
    ensures Said(fs + [f]) == Said(fs) + f.says
  {
    assert (fs + [f])[..|fs|] == fs;
  }

  lemma {:induction false} StateIsWhatWasKept(fs: seq<Frame>)
    ensures StateAfter(fs) == MI.Run(MI.Fresh(0), Said(Kept(fs)))
  {
    if fs != [] {
      var init, f := fs[..|fs| - 1], fs[|fs| - 1];
      var k := if WipesNow(init, f) then [] else Kept(init);
      StateIsWhatWasKept(init);
      SaidOneMore(k, f);
      RunAdds(MI.Fresh(0), Said(k), f.says);
    }
  }

  predicate SaysPast(f: Frame, n: nat) {
    MS.Reached(f.says) > n
  }

  lemma {:induction false} ReachedAdds(a: seq<MI.Event>, b: seq<MI.Event>)
    ensures var ra, rb := MS.Reached(a), MS.Reached(b); MS.Reached(a + b) == if ra > rb then ra else rb
  {
    if b == [] {
      assert a + b == a;
    } else {
      ReachedAdds(a, b[..|b| - 1]);
      assert (a + b)[..|a + b| - 1] == a + b[..|b| - 1];
    }
  }

  lemma {:induction false} SomeFrameIsPast(fs: seq<Frame>, n: nat)
    ensures MS.Reached(Said(fs)) > n <==> exists i :: 0 <= i < |fs| && SaysPast(fs[i], n)
  {
    if fs != [] {
      var init, f := fs[..|fs| - 1], fs[|fs| - 1];
      SomeFrameIsPast(init, n);
      ReachedAdds(Said(init), f.says);
      assert forall i :: 0 <= i < |init| ==> init[i] == fs[i];
      assert fs[|fs| - 1] == f;
    }
  }

  predicate AllInNumbers(es: seq<MI.Event>) {
    forall i :: 0 <= i < |es| ==> MS.InNumbers(es[i])
  }

  predicate Restarts(s: MI.Instr, op: MB.Op, epoch: nat) {
    exists f :: f in MI.DeltaFindings(s, 1, op, epoch) && f.rule == MI.NoSnapshotReset
  }

  /** While the era `w` has said nothing past its first delta, that delta is
      charged as a restart exactly when it follows a group and a frame of a left
      era that came after the wipe said something past 1. */
  lemma {:induction false} LeftEraChargedExactly(fs: seq<Frame>, w: u8, op: MB.Op, epoch: nat)
    requires AllInNumbers(Said(Kept(fs)))
    requires forall i :: 0 <= i < |Kept(fs)| && Kept(fs)[i].at.era == w ==> !SaysPast(Kept(fs)[i], 1)
    ensures var k, said := Kept(fs), Said(Kept(fs));
            Restarts(StateAfter(fs), op, epoch)
            <==> said != [] && said[|said| - 1].GroupEvent?
                 && exists i :: 0 <= i < |k| && k[i].at.era != w && SaysPast(k[i], 1)
  {
    StateIsWhatWasKept(fs);
    MS.RestartChargedExactly(Said(Kept(fs)), op, epoch);
    SomeFrameIsPast(Kept(fs), 1);
  }

  /** Such a frame arises with nothing lost: the snapshot port crosses and wipes,
      and the market-data port has one more frame of the old era to classify. */
  lemma {:induction false} PortStillBehind(v: u8, w: u8, window: nat)
    requires v != w
    ensures var es := [] + [EW.Arrives(Eras.Datagram(MktData, v))] + [EW.Classifies(MktData)]
              + [EW.Arrives(Eras.Datagram(Snapshot, w))] + [EW.Classifies(Snapshot)] + [EW.Classifies(MktData)];
            EW.Reached(es, window) == Some(Behind(v, w, [EW.Seen(v, 1), EW.Seen(w, 2), EW.Seen(v, 1)]))
  {
    var e1, e2 := EW.Arrives(Eras.Datagram(MktData, v)), EW.Classifies(MktData);
    var e3, e4 := EW.Arrives(Eras.Datagram(Snapshot, w)), EW.Classifies(Snapshot);
    EW.TwoOrdinals(v, w);
    assert [] + [v] == [v] && [v] + [w] == [v, w];
    var y1 := EW.Step(EW.START, e1, window);
    var y2 := EW.Step(y1, e2, window);
    var y3, y4 := Behind(v, w, [EW.Seen(v, 1)]), Behind(v, w, [EW.Seen(v, 1), EW.Seen(w, 2)]);
    EW.Goes([], e1, window, EW.START, y1);
    EW.Goes([] + [e1], e2, window, y1, y2);
    EW.Goes([] + [e1] + [e2], e3, window, y2, y3);
    EW.Goes([] + [e1] + [e2] + [e3], e4, window, y3, y4);
    EW.Goes([] + [e1] + [e2] + [e3] + [e4], e2, window, y4,
            Behind(v, w, [EW.Seen(v, 1), EW.Seen(w, 2), EW.Seen(v, 1)]));
  }

  function Behind(v: u8, w: u8, classified: seq<EW.Seen>): EW.System {
    EW.System(Eras.Channel([v, w], Eras.PortEra(v, true, 1, 0, 0), Eras.UNSEEN, Eras.PortEra(w, true, 2, 1, 0)),
              classified)
  }

  // ---- a baseline of the left era ---------------------------------------------------

  /** The left era up to `k`, and the new one's deltas after it. */
  function Spliced(left: MS.Publisher, now: MS.Publisher, k: nat): (p: MS.Publisher)
    requires left.WellFormed() && now.WellFormed() && k <= |left.ops|
    ensures p.WellFormed() && k <= |p.ops| && |now.ops| <= |p.ops|
    ensures p.LadderAt(k) == left.LadderAt(k)
    ensures forall i :: k <= i < |now.ops| ==> p.ops[i] == now.ops[i]
  {
    var p := MS.Publisher(left.initial, left.ops[..k] + if k <= |now.ops| then now.ops[k..] else []);
    assert p.ops[..k] == left.ops[..k];
    p
  }

  /** Over a baseline of the left era at `k`, the consumer holds what the spliced
      publisher would have sent. */
  predicate HoldsSpliced(s: MI.Instr, left: MS.Publisher, now: MS.Publisher, k: nat)
    requires left.WellFormed() && now.WellFormed() && k <= |left.ops|
  {
    && MS.Inv(s, Spliced(left, now, k)) && s.win.baseSet && s.win.baseK == k
    && (s.trk.lastSeqSet ==> k <= s.trk.lastSeq)
  }

  lemma {:induction false} LateDeltaKeeps(s: MI.Instr, p: MS.Publisher, n: u32, op: MB.Op, epoch: nat)
    requires MS.Inv(s, p) && s.trk.lastSeqSet && n <= s.trk.lastSeq < U32_MAX && !op.Malformed()
    ensures var s' := MI.OnDelta(s, n, op, epoch);
            MS.Inv(s', p) && s'.win == s.win && s'.trk.lastSeqSet && s'.trk.lastSeq == s.trk.lastSeq
  {
  }

  /** What the tracker took in since the wipe past `k` are the new era's deltas,
      and none of them was missed. */
  predicate HoldsNow(s: MI.Instr, now: MS.Publisher, k: nat) {
    && MI.Ordered(s.trk, s.win)
    && (forall e :: e in s.win.journal ==> 1 <= e.perSeq <= |now.ops| && e.op == now.ops[e.perSeq - 1])
    && (s.trk.lastSeqSet ==>
          s.trk.lastSeq <= |now.ops| && forall m :: k < m <= s.trk.lastSeq ==> MS.Held(s.win, m))
  }

  lemma {:induction false} AdoptedIsSpliced(s: MI.Instr, left: MS.Publisher, now: MS.Publisher, k: nat)
    requires left.WellFormed() && now.WellFormed() && k <= |left.ops| && HoldsNow(s, now, k)
    ensures var s' := MI.Adopt(s, left.Truth(k));
            HoldsSpliced(s', left, now, k) && (s'.trk.lastSeqSet <==> s.trk.lastSeqSet || s.trk.lastSeq < k)
  {
    var g, p := left.Truth(k), Spliced(left, now, k);
    MI.OrderedAfterRebase(s.trk, s.win, g);
    forall e | e in MI.After(s.win.journal, k)
      ensures k < e.perSeq <= |p.ops| && e.op == p.ops[e.perSeq - 1]
    {
      MI.AfterHas(s.win.journal, k, e);
    }
    forall m | k < m <= s.trk.lastSeq && s.trk.lastSeqSet ensures MS.Held(MI.Rebase(s.win, g), m) {
      MS.RebaseHolds(s.win, g, m);
    }
  }

  lemma {:induction false} DeltaKeepsSpliced(
    s: MI.Instr, left: MS.Publisher, now: MS.Publisher, k: nat, e: MI.Event)
    requires left.WellFormed() && now.WellFormed() && k <= |left.ops|
    requires HoldsSpliced(s, left, now, k) && e.DeltaEvent? && now.Sends(e)
    requires s.trk.lastSeqSet || e.perSeq == k + 1
    ensures HoldsSpliced(MI.Step(s, e), left, now, k) && MI.Step(s, e).trk.lastSeqSet
  {
    var p := Spliced(left, now, k);
    if s.trk.lastSeqSet && e.perSeq <= s.trk.lastSeq {
      LateDeltaKeeps(s, p, e.perSeq, e.op, e.epoch);
    } else {
      assert p.ops[e.perSeq - 1] == now.ops[e.perSeq - 1];
      MS.InvDelta(s, p, e.perSeq, e.op, e.epoch);
    }
  }

  predicate Deltas(es: seq<MI.Event>, now: MS.Publisher)
    requires now.WellFormed()
  {
    forall i :: 0 <= i < |es| ==> es[i].DeltaEvent? && now.Sends(es[i])
  }

  lemma {:induction false} DeltasKeepSpliced(
    s: MI.Instr, left: MS.Publisher, now: MS.Publisher, k: nat, es: seq<MI.Event>)
    requires left.WellFormed() && now.WellFormed() && k <= |left.ops|
    requires HoldsSpliced(s, left, now, k) && Deltas(es, now)
    requires s.trk.lastSeqSet || es == [] || es[0].perSeq == k + 1
    ensures HoldsSpliced(MI.Run(s, es), left, now, k)
    ensures es == [] || MI.Run(s, es).trk.lastSeqSet
  {
    if es != [] {
      var init := es[..|es| - 1];
      assert forall i :: 0 <= i < |init| ==> init[i] == es[i];
      DeltasKeepSpliced(s, left, now, k, init);
      DeltaKeepsSpliced(MI.Run(s, init), left, now, k, es[|es| - 1]);
    }
  }

  lemma {:induction false} SplicedChargedExactly(
    s: MI.Instr, left: MS.Publisher, now: MS.Publisher, k: nat, n: nat)
    requires left.WellFormed() && now.WellFormed() && k <= |left.ops| && n <= |now.ops|
    requires HoldsSpliced(s, left, now, k)
    ensures MI.Verdict(s, now.Truth(n)).status == Violation
      <==> MS.Comparing(s) && k <= n <= s.trk.lastSeq && Spliced(left, now, k).LadderAt(n) != now.LadderAt(n)
  {
    if MS.Comparing(s) && k <= n <= s.trk.lastSeq {
      var p := Spliced(left, now, k);
      forall m | k < m <= n ensures MS.InJournal(s.win, m) { assert MS.Held(s.win, m); }
      MS.ReplayIsTruth(s.win, p, n);
    }
  }

  /** A group of the left era is adopted at `k` after the wipe: whatever deltas of the
      new era are lost, late or repeated after it, a truthful group of the new era is
      a violation if and only if the tracker compares it and the left era's ladder at
      `k`, carried on by the new deltas past `k`, is not the new era's. */
  lemma {:induction false} LeftBaselineChargedExactly(
    s: MI.Instr, left: MS.Publisher, now: MS.Publisher, k: nat, es: seq<MI.Event>, n: nat)
    requires left.WellFormed() && now.WellFormed() && k <= |left.ops| && n <= |now.ops|
    requires HoldsNow(s, now, k) && Deltas(es, now)
    requires s.trk.lastSeqSet || s.trk.lastSeq < k || es == [] || es[0].perSeq == k + 1
    ensures var s' := MI.Run(MI.Adopt(s, left.Truth(k)), es);
            MI.Verdict(s', now.Truth(n)).status == Violation
            <==> MS.Comparing(s') && k <= n <= s'.trk.lastSeq
                 && Spliced(left, now, k).LadderAt(n) != now.LadderAt(n)
  {
    AdoptedIsSpliced(s, left, now, k);
    DeltasKeepSpliced(MI.Adopt(s, left.Truth(k)), left, now, k, es);
    SplicedChargedExactly(MI.Run(MI.Adopt(s, left.Truth(k)), es), left, now, k, n);
  }

  const LEFT := MS.Publisher(map[], [MS.Rung(1)])

  const NOW := MS.Publisher(map[], [MS.Rung(2), MS.Rung(3)])

  /** Nothing is lost: the left era's group at 1 is adopted after the wipe, the new
      delta 1 is late, the new delta 2 is dense, and the group at 2 is charged. */
  lemma {:induction false} LeftBaselineAccuses()
    ensures LEFT.WellFormed() && NOW.WellFormed()
    ensures var es := [MI.DeltaEvent(1, MS.Rung(2), 0), MI.DeltaEvent(2, MS.Rung(3), 0)];
            && Deltas(es, NOW)
            && MI.Verdict(MI.Run(MI.Adopt(MI.Fresh(0), LEFT.Truth(1)), es), NOW.Truth(2)).status == Violation
  {
    var es := [MI.DeltaEvent(1, MS.Rung(2), 0), MI.DeltaEvent(2, MS.Rung(3), 0)];
    var s := MI.Adopt(MI.Fresh(0), LEFT.Truth(1));
    assert es[..1] == [es[0]] && es[..1][..0] == [] && MI.Run(s, []) == s;
    var s1 := MI.Run(s, es[..1]);
    assert s1 == MI.Step(s, es[0]) == MI.OnDelta(s, 1, MS.Rung(2), 0);
    assert MI.Run(s, es) == MI.OnDelta(s1, 2, MS.Rung(3), 0);
    LeftBaselineChargedExactly(MI.Fresh(0), LEFT, NOW, 1, es, 2);
    LaddersDiffer();
  }

  lemma {:induction false} LaddersDiffer()
    ensures LEFT.WellFormed() && NOW.WellFormed()
    ensures Spliced(LEFT, NOW, 1).LadderAt(2) != NOW.LadderAt(2)
  {
    var p := Spliced(LEFT, NOW, 1);
    MS.LadderNext(p, 1);
    MS.LadderNext(LEFT, 0);
    MS.LadderNext(NOW, 1);
    MS.LadderNext(NOW, 0);
    assert MB.LevelKey(0, 1) in p.LadderAt(2) && MB.LevelKey(0, 1) !in NOW.LadderAt(2);
  }

  // ---- market-by-order ------------------------------------------------------------

  /** One delta of the left era after the wipe is enough, and decides. */
  lemma {:induction false} LeftDeltaChargedExactly(
    es: seq<GT.Event>, left: GT.Delta, l: GT.Limits, digest: u64, at: Gate.Sight)
    ensures var t := GT.Run(es + [GT.Wiped] + [GT.Applied(left, at)], l).track;
            (exists f :: f in Gate.DeltaFindings(t, at, Gate.Paid(1, digest)) && f.rule == Gate.NoSnapshotReset)
            <==> 1 < left.perSeq < U32_MAX
  {
    var wiped := es + [GT.Wiped];
    var all := wiped + [GT.Applied(left, at)];
    assert wiped[..|es|] == es && all[..|wiped|] == wiped;
    assert GT.LifeOf(all).deltas == [left] && [left][0] == left;
    GT.RestartChargedExactly(all, l, digest, at);
  }
}
