/** Soundness of the reconstruction oracle against a truthful publisher
    (`engine/mbp.go`): no matter which deltas are lost, duplicated or late and
    how the two ports interleave, a truthful snapshot is never reported as a
    Violation, provided the consumer adopts no baseline below a hole. The
    proviso is necessary, and the five ways to break it are exhibited. */
module MbpSoundness {
  import opened Core
  import opened MbpBook
  import opened MbpInstr

  /** Delta number i+1 of the era is `ops[i]`; `initial` is the ladder before it. */
  datatype Publisher = Publisher(initial: Ladder, ops: seq<Op>)
  {
    predicate WellFormed() {
      |ops| < U32_MAX && forall i :: 0 <= i < |ops| ==> !ops[i].Malformed()
    }

    function LadderAt(k: nat): Ladder
      requires k <= |ops|
    {
      Replay(initial, ops[..k])
    }

    function Truth(k: nat): Group
      requires k <= |ops| && WellFormed()
    {
      Group(k, LadderAt(k))
    }

    /** Something this publisher can put on the wire. */
    predicate Sends(e: Event)
      requires WellFormed()
    {
      match e
      case DeltaEvent(n, op, _) => 1 <= n <= |ops| && op == ops[n - 1]
      case GroupEvent(g) => g.lastK <= |ops| && g == Truth(g.lastK)
      case ResetEvent => false
    }
  }

  predicate InJournal(w: Window, m: int) {
    exists e :: e in w.journal && e.perSeq == m
  }

  /** No delta between the baseline and the tracker is missing from the journal. */
  predicate NoHole(s: Instr) {
    forall m :: s.win.baseK < m <= s.trk.lastSeq ==> InJournal(s.win, m)
  }

  /** Everything the consumer holds came from this publisher. */
  predicate Recorded(w: Window, pub: Publisher) {
    && (forall e :: e in w.journal ==> 1 <= e.perSeq <= |pub.ops| && e.op == pub.ops[e.perSeq - 1])
    && (w.baseSet ==> w.baseK <= |pub.ops| && w.base == pub.LadderAt(w.baseK))
  }

  predicate AboveBase(w: Window) {
    w.baseSet ==> forall e :: e in w.journal ==> e.perSeq > w.baseK
  }

  // ---- replaying a window without holes -----------------------------------

  lemma {:induction false} FirstAboveIs(js: seq<Entry>, k: int, n: nat)
    requires Increasing(js) && n <= |js|
    requires n > 0 ==> js[n - 1].perSeq <= k
    requires n < |js| ==> js[n].perSeq > k
    ensures FirstAbove(js, k) == n
  {
    if n > 0 {
      IncreasingTail(js);
      FirstAboveIs(js[1..], k, n - 1);
    }
  }

  lemma NextInJournal(w: Window, k: int)
    requires Increasing(w.journal)
    ensures var n := FirstAbove(w.journal, k);
            if InJournal(w, k + 1) then
              n < |w.journal| && w.journal[n].perSeq == k + 1 && FirstAbove(w.journal, k + 1) == n + 1
            else
              FirstAbove(w.journal, k + 1) == n
  {
    var js := w.journal;
    var n := FirstAbove(js, k);
    if InJournal(w, k + 1) {
      var e :| e in js && e.perSeq == k + 1;
      var i :| 0 <= i < |js| && js[i] == e;
      NextIsAt(js, k, i);
    } else {
      assert n < |js| ==> js[n] in js;
      FirstAboveIs(js, k + 1, n);
    }
  }

  lemma {:induction false} NextIsAt(js: seq<Entry>, k: int, i: nat)
    requires Increasing(js) && i < |js| && js[i].perSeq == k + 1
    ensures FirstAbove(js, k) == i && FirstAbove(js, k + 1) == i + 1
  {
    assert i > 0 ==> js[i - 1].perSeq < js[i].perSeq;
    assert i + 1 < |js| ==> js[i].perSeq < js[i + 1].perSeq;
    FirstAboveIs(js, k, i);
    FirstAboveIs(js, k + 1, i + 1);
  }

  lemma ReplayNext(w: Window, k: int)
    requires Increasing(w.journal)
    ensures if InJournal(w, k + 1) then
              exists e :: e in w.journal && e.perSeq == k + 1 && StateAsOf(w, k + 1) == Apply(StateAsOf(w, k), e.op)
            else
              StateAsOf(w, k + 1) == StateAsOf(w, k)
  {
    NextInJournal(w, k);
    if InJournal(w, k + 1) {
      var js := w.journal;
      var n := FirstAbove(js, k);
      assert js[..n + 1] == js[..n] + [js[n]];
      AppendOps(js[..n], js[n]);
      ReplayOne(w.base, Ops(js[..n]), js[n].op);
      assert js[n] in js;
    }
  }

  lemma LadderNext(pub: Publisher, k: nat)
    requires k < |pub.ops|
    ensures pub.LadderAt(k + 1) == Apply(pub.LadderAt(k), pub.ops[k])
  {
    assert pub.ops[..k + 1] == pub.ops[..k] + [pub.ops[k]];
    ReplayOne(pub.initial, pub.ops[..k], pub.ops[k]);
  }

  lemma ReplayAtBase(w: Window)
    requires Increasing(w.journal) && AboveBase(w) && w.baseSet
    ensures StateAsOf(w, w.baseK) == w.base
  {
    assert |w.journal| > 0 ==> w.journal[0] in w.journal;
    FirstAboveIs(w.journal, w.baseK, 0);
    assert Ops(w.journal[..0]) == [];
  }

  /** Over a stretch with no hole, the replay is the publisher's own ladder. */
  lemma {:induction false} ReplayIsTruth(w: Window, pub: Publisher, k: nat)
    requires Increasing(w.journal) && Recorded(w, pub) && AboveBase(w)
    requires w.baseSet && w.baseK <= k <= |pub.ops|
    requires forall m :: w.baseK < m <= k ==> InJournal(w, m)
    ensures StateAsOf(w, k) == pub.LadderAt(k)
  {
    if k == w.baseK {
      ReplayAtBase(w);
    } else {
      ReplayIsTruth(w, pub, k - 1);
      ReplayNext(w, k - 1);
      LadderNext(pub, k - 1);
    }
  }

  // ---- exactly when a state can accuse a truthful publisher ----------------

  /** For every publisher the consumer's record is consistent with, a truthful
      group at any sequence number is not reported as a Violation. */
  ghost predicate NeverAccuses(s: Instr) {
    forall pub: Publisher, k: nat :: pub.WellFormed() && Recorded(s.win, pub) && k <= |pub.ops| ==>
      Verdict(s, pub.Truth(k)).status != Violation
  }

  predicate Comparing(s: Instr) {
    !s.trk.gapped && !s.win.overflow && s.win.baseSet && s.trk.lastSeqSet
  }

  lemma {:induction false} SmallestHole(w: Window, m: int) returns (h: int)
    requires w.baseK < m && !InJournal(w, m)
    ensures w.baseK < h <= m && !InJournal(w, h)
    ensures forall j :: w.baseK < j < h ==> InJournal(w, j)
    decreases m
  {
    if forall j :: w.baseK < j < m ==> InJournal(w, j) {
      h := m;
    } else {
      var j :| w.baseK < j < m && !InJournal(w, j);
      h := SmallestHole(w, j);
    }
  }

  /** A publisher that differs from `pub` only in delta `m`. */
  function Rewrite(pub: Publisher, m: nat, op: Op): Publisher
    requires 1 <= m <= |pub.ops|
  {
    pub.(ops := pub.ops[m - 1 := op])
  }

  lemma RewriteUnseen(w: Window, pub: Publisher, m: nat, op: Op)
    requires pub.WellFormed() && Recorded(w, pub) && !op.Malformed()
    requires w.baseSet && w.baseK < m <= |pub.ops| && !InJournal(w, m)
    ensures Rewrite(pub, m, op).WellFormed() && Recorded(w, Rewrite(pub, m, op))
    ensures Rewrite(pub, m, op).LadderAt(m) == Apply(pub.LadderAt(m - 1), op)
  {
    var other := Rewrite(pub, m, op);
    assert other.ops[..w.baseK] == pub.ops[..w.baseK];
    assert other.ops[..m - 1] == pub.ops[..m - 1];
    LadderNext(other, m - 1);
  }

  /** The consumer cannot tell what a delta it never recorded did, so some
      publisher it cannot rule out is accused by a truthful snapshot there. */
  lemma HoleAccuses(s: Instr, pub: Publisher, m: nat) returns (other: Publisher)
    requires Comparing(s) && Increasing(s.win.journal) && AboveBase(s.win)
    requires pub.WellFormed() && Recorded(s.win, pub) && s.trk.lastSeq <= |pub.ops|
    requires s.win.baseK < m <= s.trk.lastSeq && !InJournal(s.win, m)
    requires forall j :: s.win.baseK < j < m ==> InJournal(s.win, j)
    ensures other.WellFormed() && Recorded(s.win, other) && m <= |other.ops|
    ensures Verdict(s, other.Truth(m)) == Finding(Reconstruction, Violation, NoReason)
  {
    var key := LevelKey(0, 0);
    var before := pub.LadderAt(m - 1);
    var op := LevelUpdate(key, if QtyAt(before, key) == 1 then 2 else 1);
    other := Rewrite(pub, m, op);
    RewriteUnseen(s.win, pub, m, op);
    ReplayIsTruth(s.win, pub, m - 1);
    ReplayNext(s.win, m - 1);
    assert StateAsOf(s.win, m) == before;
    assert QtyAt(before, key) != QtyAt(Apply(before, op), key);
  }

  /** The exact condition: a state that compares at all never accuses a
      truthful publisher if and only if its window has no hole. */
  lemma AccusesExactlyOverAHole(s: Instr, pub: Publisher)
    requires Increasing(s.win.journal) && AboveBase(s.win)
    requires pub.WellFormed() && Recorded(s.win, pub) && s.trk.lastSeq <= |pub.ops|
    ensures NeverAccuses(s) <==> (Comparing(s) ==> NoHole(s))
  {
    if Comparing(s) && !NoHole(s) {
      var m0 :| s.win.baseK < m0 <= s.trk.lastSeq && !InJournal(s.win, m0);
      var m := SmallestHole(s.win, m0);
      var other := HoleAccuses(s, pub, m);
      assert Verdict(s, other.Truth(m)).status == Violation;
    } else if Comparing(s) {
      forall p: Publisher, k: nat | p.WellFormed() && Recorded(s.win, p) && k <= |p.ops|
        ensures Verdict(s, p.Truth(k)).status != Violation
      {
        if s.win.baseK <= k <= s.trk.lastSeq {
          ReplayIsTruth(s.win, p, k);
        }
      }
    }
  }

  /** What the code could test before it adopts a group. */
  predicate AdoptionIsSafe(s: Instr, g: Group) {
    || s.win.droppedMax > g.lastK
    || forall m :: g.lastK < m <= s.trk.lastSeq ==> InJournal(s.win, m)
  }

  /** Adopting `g` leaves a state that can accuse a truthful publisher exactly
      when a delta past `g` was missed. Neither `gapped` nor the old baseline
      takes part in the condition, although adoption clears the one and
      replaces the other. */
  lemma {:induction false} AdoptionGuard(s: Instr, g: Group, pub: Publisher)
    requires Ordered(s.trk, s.win)
    requires pub.WellFormed() && Recorded(s.win, pub) && s.trk.lastSeq <= |pub.ops|
    requires pub.Sends(GroupEvent(g))
    requires s.trk.lastSeqSet || g.lastK > s.trk.lastSeq
    ensures NeverAccuses(Adopt(s, g)) <==> AdoptionIsSafe(s, g)
  {
    var s1 := Adopt(s, g);
    OrderedAfterRebase(s.trk, s.win, g);
    forall e ensures e in s1.win.journal <==> e in s.win.journal && e.perSeq > g.lastK {
      AfterHas(s.win.journal, g.lastK, e);
    }
    forall m | m > g.lastK ensures InJournal(s1.win, m) <==> InJournal(s.win, m) {
      if InJournal(s.win, m) {
        var e :| e in s.win.journal && e.perSeq == m;
        assert e in s1.win.journal;
      }
    }
    AccusesExactlyOverAHole(s1, pub);
  }

  lemma ApplyTwice(l: Ladder, op: Op)
    ensures Apply(Apply(l, op), op) == Apply(l, op)
  {
  }

  /** A window that holds one delta at or below its baseline. */
  lemma {:induction false} OldDeltaIsHarmless(s: Instr, pub: Publisher, e: Entry, k: nat)
    requires s.win.baseSet && s.win.journal == [e] && e.perSeq <= s.win.baseK && s.trk.lastSeq == e.perSeq
    requires pub.WellFormed() && Recorded(s.win, pub) && k <= |pub.ops|
    ensures Verdict(s, pub.Truth(k)).status != Violation
  {
    if s.win.baseK <= k <= s.trk.lastSeq {
      FirstAboveIs([e], k, 1);
      assert [e][..1] == [e] && Ops([e]) == [] + [e.op];
      ReplayOne(s.win.base, [], e.op);
      assert e in s.win.journal;
      LadderNext(pub, k - 1);
      ApplyTwice(pub.LadderAt(k - 1), e.op);
    }
  }

  /** A window that holds one delta past its baseline. */
  lemma {:induction false} OneDeltaAhead(s: Instr, pub: Publisher, e: Entry)
    requires s.win.journal == [e] && e.perSeq > s.win.baseK && s.trk.lastSeq == e.perSeq && Comparing(s)
    requires pub.WellFormed() && Recorded(s.win, pub) && e.perSeq <= |pub.ops|
    ensures NeverAccuses(s) <==> e.perSeq == s.win.baseK + 1
  {
    assert e in s.win.journal;
    assert InJournal(s.win, e.perSeq);
    assert e.perSeq > s.win.baseK + 1 ==> !InJournal(s.win, s.win.baseK + 1);
    AccusesExactlyOverAHole(s, pub);
  }

  /** The case `AdoptionGuard` leaves out: the tracker holds no number, and the
      group does not give it one, because it lies at or below the number kept
      across a reset, or at 0. Adoption is then harmless in itself, and the next
      delta leaves a state that can accuse a truthful publisher exactly when it
      is neither the next one after the group nor an earlier one. */
  lemma {:induction false} UnnumberedAdoption(s: Instr, g: Group, pub: Publisher, n: u32, op: Op, epoch: nat)
    requires Ordered(s.trk, s.win) && !s.trk.lastSeqSet && g.lastK <= s.trk.lastSeq
    requires pub.WellFormed() && pub.Sends(GroupEvent(g)) && pub.Sends(DeltaEvent(n, op, epoch))
    ensures NeverAccuses(Adopt(s, g))
    ensures NeverAccuses(OnDelta(Adopt(s, g), n, op, epoch)) <==> n <= g.lastK + 1
  {
    var s1 := Adopt(s, g);
    var s2 := OnDelta(s1, n, op, epoch);
    var e := Entry(n, op);
    assert s1.win == Window(g.levels, g.lastK, true, [], false, 0);
    assert s2.win == Window(g.levels, g.lastK, true, [e], false, 0);
    assert Comparing(s2) && s2.trk.lastSeq == n;
    if n > g.lastK {
      OneDeltaAhead(s2, pub, e);
    } else {
      forall p: Publisher, k: nat | p.WellFormed() && Recorded(s2.win, p) && k <= |p.ops|
        ensures Verdict(s2, p.Truth(k)).status != Violation
      {
        OldDeltaIsHarmless(s2, p, e, k);
      }
    }
  }

  // ---- whole runs ---------------------------------------------------------

  /** A delta is in the journal or at or below what the bound discarded. */
  predicate Held(w: Window, m: int) {
    InJournal(w, m) || m <= w.droppedMax
  }

  /** What an event must meet, read off the state it arrives in. A group must
      not step behind the baseline, and when it is the first or follows a gap it
      must reach past the last delta the consumer missed. A delta that arrives
      over a baseline while the tracker holds no number must be the next one. */
  predicate Covered(s: Instr, e: Event) {
    match e
    case DeltaEvent(n, _, _) => !s.trk.lastSeqSet && s.win.baseSet ==> n == s.win.baseK + 1
    case GroupEvent(g) =>
      && (s.win.baseSet ==> s.win.baseK <= g.lastK)
      && ((s.trk.gapped || !s.win.baseSet) && s.trk.lastSeqSet ==>
            forall m :: g.lastK < m <= s.trk.lastSeq ==> Held(s.win, m))
    case ResetEvent => true
  }

  predicate WindowInv(t: Track, w: Window, pub: Publisher) {
    && Ordered(t, w)
    && Recorded(w, pub)
    && (t.lastSeqSet ==> t.lastSeq <= |pub.ops|)
    && AboveBase(w)
    && (w.baseSet && t.lastSeqSet ==> w.baseK <= t.lastSeq)
    && (w.baseSet && t.lastSeqSet && !t.gapped ==> forall m :: w.baseK < m <= t.lastSeq ==> Held(w, m))
  }

  predicate Inv(s: Instr, pub: Publisher) {
    WindowInv(s.trk, s.win, pub)
  }

  lemma RecordKeeps(w: Window, e: Entry, pub: Publisher)
    requires Recorded(w, pub) && AboveBase(w) && (w.baseSet ==> w.baseK < e.perSeq)
    requires 1 <= e.perSeq <= |pub.ops| && e.op == pub.ops[e.perSeq - 1]
    ensures Recorded(Record(w, e), pub) && AboveBase(Record(w, e))
    ensures forall m :: Held(w, m) || m == e.perSeq ==> Held(Record(w, e), m)
  {
    var w1 := Record(w, e);
    assert |w.journal| < MAX_JOURNAL ==> e in w1.journal;
    forall m | InJournal(w, m) ensures InJournal(w1, m) {
      var x :| x in w.journal && x.perSeq == m;
      assert x in w1.journal;
    }
  }

  lemma InvDelta(s: Instr, pub: Publisher, n: u32, op: Op, epoch: nat)
    requires pub.WellFormed() && Inv(s, pub)
    requires pub.Sends(DeltaEvent(n, op, epoch)) && Covered(s, DeltaEvent(n, op, epoch))
    ensures Inv(OnDelta(s, n, op, epoch), pub)
  {
    var c := CheckSeq(s.trk, n, epoch);
    var e := Entry(n, op);
    OrderedAfterCheck(s.trk, s.win, n, epoch);
    if c.accepted {
      RecordKeeps(s.win, e, pub);
      OrderedAfterRecord(c.trk, s.win, e);
      assert WindowInv(c.trk, Record(s.win, e), pub);
    } else {
      assert WindowInv(c.trk, s.win, pub);
    }
  }

  lemma InvGroup(s: Instr, pub: Publisher, g: Group)
    requires pub.WellFormed() && Inv(s, pub)
    requires pub.Sends(GroupEvent(g)) && Covered(s, GroupEvent(g))
    ensures Inv(Adopt(s, g), pub)
  {
    var s1 := Adopt(s, g);
    OrderedAfterRebase(s.trk, s.win, g);
    forall e ensures e in s1.win.journal <==> e in s.win.journal && e.perSeq > g.lastK {
      AfterHas(s.win.journal, g.lastK, e);
    }
    forall m | g.lastK < m <= s1.trk.lastSeq && s1.trk.lastSeqSet ensures Held(s1.win, m) {
      assert s.trk.lastSeqSet && m <= s.trk.lastSeq;
      assert Held(s.win, m);
      if InJournal(s.win, m) {
        var x :| x in s.win.journal && x.perSeq == m;
        assert x in s1.win.journal;
      }
    }
  }

  /** A completed InstrumentReset leaves a state that fits any publisher, so
      the run theorem starts afresh behind it. */
  lemma ResetRestoresInv(s: Instr, pub: Publisher)
    ensures Inv(OnInstrumentReset(s), pub)
    ensures Inv(Fresh(s.trk.captureEpoch), pub)
  {
  }

  lemma TruthIsNeverAViolation(s: Instr, pub: Publisher, k: nat)
    requires pub.WellFormed() && Inv(s, pub) && k <= |pub.ops|
    ensures Verdict(s, pub.Truth(k)).status != Violation
    ensures Comparing(s) && s.win.baseK <= k <= s.trk.lastSeq ==> Verdict(s, pub.Truth(k)).status == Pass
  {
    if Comparing(s) && s.win.baseK <= k <= s.trk.lastSeq {
      forall m | s.win.baseK < m <= k ensures InJournal(s.win, m) {
        assert Held(s.win, m);
      }
      ReplayIsTruth(s.win, pub, k);
    }
  }

  predicate CoveredRun(s: Instr, es: seq<Event>) {
    forall n :: 0 <= n < |es| ==> Covered(Run(s, es[..n]), es[n])
  }

  lemma {:induction false} InvRun(s: Instr, pub: Publisher, es: seq<Event>)
    requires pub.WellFormed() && Inv(s, pub)
    requires forall i :: 0 <= i < |es| ==> pub.Sends(es[i])
    requires CoveredRun(s, es)
    ensures Inv(Run(s, es), pub)
  {
    if es != [] {
      var n := |es| - 1;
      var init := es[..n];
      assert forall i :: 0 <= i < n ==> init[i] == es[i];
      CoveredRunInit(s, es);
      InvRun(s, pub, init);
      assert pub.Sends(es[n]);
      InvEvent(Run(s, init), pub, es[n]);
    }
  }

  lemma {:induction false} CoveredRunInit(s: Instr, es: seq<Event>)
    requires es != [] && CoveredRun(s, es)
    ensures CoveredRun(s, es[..|es| - 1]) && Covered(Run(s, es[..|es| - 1]), es[|es| - 1])
  {
    var init := es[..|es| - 1];
    forall i | 0 <= i < |init| ensures Covered(Run(s, init[..i]), init[i]) {
      assert init[..i] == es[..i] && init[i] == es[i];
    }
  }

  lemma {:induction false} InvEvent(s: Instr, pub: Publisher, e: Event)
    requires pub.WellFormed() && Inv(s, pub) && pub.Sends(e) && Covered(s, e)
    ensures Inv(Step(s, e), pub)
  {
    match e
    case DeltaEvent(k, op, epoch) => InvDelta(s, pub, k, op, epoch);
    case GroupEvent(g) => InvGroup(s, pub, g);
  }

  /** Soundness over whole runs: with any deltas lost, duplicated or late and
      any interleaving of the two ports, every group a truthful publisher sends
      is graded Pass or Unverifiable, never Violation. */
  lemma {:induction false} OracleSoundOverRuns(s: Instr, pub: Publisher, es: seq<Event>, n: nat)
    requires pub.WellFormed() && Inv(s, pub)
    requires forall i :: 0 <= i < |es| ==> pub.Sends(es[i])
    requires CoveredRun(s, es)
    requires n < |es| && es[n].GroupEvent?
    ensures Verdict(Run(s, es[..n]), es[n].g).status != Violation
  {
    assert forall i :: 0 <= i < n ==> es[..n][..i] == es[..i];
    InvRun(s, pub, es[..n]);
    assert pub.Sends(es[n]);
    TruthIsNeverAViolation(Run(s, es[..n]), pub, es[n].g.lastK);
  }

  // ---- the premise in terms of the stream alone ----------------------------

  /** The highest number delivered or adopted so far. */
  function Reached(es: seq<Event>): (r: u32) {
    if es == [] then 0
    else
      var r := Reached(es[..|es| - 1]);
      match es[|es| - 1]
      case DeltaEvent(n, _, _) => if n > r then n else r
      case GroupEvent(g) => if g.lastK > r then g.lastK else r
      case ResetEvent => r
  }

  /** The deltas that arrived ahead of everything before them. */
  function Taken(es: seq<Event>): set<u32> {
    if es == [] then {}
    else
      var init, e := es[..|es| - 1], es[|es| - 1];
      Taken(init) + (if e.DeltaEvent? && e.perSeq > Reached(init) then {e.perSeq} else {})
  }

  /** The last group's number, if there was a group. */
  function Adopted(es: seq<Event>): Option<u32> {
    if es == [] then None
    else if es[|es| - 1].GroupEvent? then Some(es[|es| - 1].g.lastK)
    else Adopted(es[..|es| - 1])
  }

  /** Groups never step back and reach past every delta missed so far; over a
      group at 0 that came before any delta, the first delta must be 1. */
  predicate StreamAllows(past: seq<Event>, e: Event) {
    match e
    case DeltaEvent(n, _, _) => Reached(past) == 0 && Adopted(past).Some? ==> n == 1
    case GroupEvent(g) =>
      && (Adopted(past).Some? ==> Adopted(past).value <= g.lastK)
      && (forall m :: g.lastK < m <= Reached(past) ==> m in Taken(past))
    case ResetEvent => false
  }

  predicate StreamCovered(es: seq<Event>) {
    forall i :: 0 <= i < |es| ==> StreamAllows(es[..i], es[i])
  }

  predicate Follows(s: Instr, es: seq<Event>) {
    && s.trk.lastSeq == Reached(es)
    && (s.trk.lastSeqSet <==> Reached(es) > 0)
    && (s.win.baseSet <==> Adopted(es).Some?)
    && (s.win.baseSet ==> s.win.baseK == Adopted(es).value && s.win.baseK <= s.trk.lastSeq)
    && (forall m :: m in Taken(es) ==> (s.win.baseSet && m <= s.win.baseK) || Held(s.win, m))
  }

  lemma {:induction false} FollowsStep(s: Instr, past: seq<Event>, e: Event, pub: Publisher)
    requires pub.WellFormed() && pub.Sends(e) && Inv(s, pub) && Covered(s, e)
    requires Follows(s, past)
    ensures Follows(Step(s, e), past + [e])
  {
    assert (past + [e])[..|past + [e]| - 1] == past;
    match e
    case DeltaEvent(n, op, epoch) =>
      FollowsDelta(s, past, n, op, epoch, pub);
    case GroupEvent(g) =>
      forall m | m in Taken(past) && m > g.lastK && Held(s.win, m) ensures Held(Rebase(s.win, g), m) {
        RebaseHolds(s.win, g, m);
      }
  }

  lemma {:induction false} FollowsDelta(
    s: Instr, past: seq<Event>, n: u32, op: Op, epoch: nat, pub: Publisher)
    requires pub.WellFormed() && pub.Sends(DeltaEvent(n, op, epoch)) && Inv(s, pub)
    requires Covered(s, DeltaEvent(n, op, epoch)) && Follows(s, past)
    ensures Follows(OnDelta(s, n, op, epoch), past + [DeltaEvent(n, op, epoch)])
  {
    assert (past + [DeltaEvent(n, op, epoch)])[..|past|] == past;
    if CheckSeq(s.trk, n, epoch).accepted {
      RecordKeeps(s.win, Entry(n, op), pub);
    }
  }

  lemma {:induction false} RebaseHolds(w: Window, g: Group, m: int)
    requires Held(w, m) && m > g.lastK
    ensures Held(Rebase(w, g), m)
  {
    if InJournal(w, m) {
      var x :| x in w.journal && x.perSeq == m;
      AfterHas(w.journal, g.lastK, x);
    }
  }

  lemma StreamAllowsSuffices(s: Instr, past: seq<Event>, e: Event)
    requires Follows(s, past) && StreamAllows(past, e)
    ensures Covered(s, e)
  {
  }

  lemma {:induction false} CoveredRunSnoc(s: Instr, past: seq<Event>, e: Event)
    requires CoveredRun(s, past) && Covered(Run(s, past), e)
    ensures CoveredRun(s, past + [e])
  {
    forall i | 0 <= i < |past + [e]| ensures Covered(Run(s, (past + [e])[..i]), (past + [e])[i]) {
      assert (past + [e])[..i] == past[..i];
      assert past[..|past|] == past;
    }
  }

  lemma StreamCoveredInit(es: seq<Event>)
    requires StreamCovered(es) && es != []
    ensures StreamCovered(es[..|es| - 1]) && StreamAllows(es[..|es| - 1], es[|es| - 1])
  {
    var past := es[..|es| - 1];
    forall i | 0 <= i < |past| ensures StreamAllows(past[..i], past[i]) {
      assert past[..i] == es[..i];
    }
  }

  lemma {:induction false} StreamCoveredSuffices(pub: Publisher, es: seq<Event>)
    requires pub.WellFormed() && forall i :: 0 <= i < |es| ==> pub.Sends(es[i])
    requires StreamCovered(es)
    ensures CoveredRun(Fresh(0), es) && Follows(Run(Fresh(0), es), es)
  {
    if es != [] {
      var n := |es| - 1;
      var past, e := es[..n], es[n];
      StreamCoveredInit(es);
      StreamCoveredSuffices(pub, past);
      InvRun(Fresh(0), pub, past);
      StreamAllowsSuffices(Run(Fresh(0), past), past, e);
      FollowsStep(Run(Fresh(0), past), past, e, pub);
      CoveredRunSnoc(Fresh(0), past, e);
      assert past + [e] == es;
    }
  }

  /** Soundness stated on what the publisher sent and what arrived, with no
      reference to the consumer's state. */
  lemma OracleSoundOverStreams(pub: Publisher, es: seq<Event>, n: nat)
    requires pub.WellFormed() && forall i :: 0 <= i < |es| ==> pub.Sends(es[i])
    requires StreamCovered(es)
    requires n < |es| && es[n].GroupEvent?
    ensures Verdict(Run(Fresh(0), es[..n]), es[n].g).status != Violation
  {
    StreamCoveredSuffices(pub, es);
    OracleSoundOverRuns(Fresh(0), pub, es, n);
  }

  lemma SawSnapshotStep(s: Instr, e: Event)
    ensures Step(s, e).trk.sawSnapshot <==> e.GroupEvent?
  {
  }

  lemma {:induction false} SawSnapshotIs(s: Instr, es: seq<Event>)
    ensures Run(s, es).trk.sawSnapshot <==> if es == [] then s.trk.sawSnapshot else es[|es| - 1].GroupEvent?
  {
    if es != [] {
      SawSnapshotStep(Run(s, es[..|es| - 1]), es[|es| - 1]);
    }
  }

  /** Deltas and groups, of whichever publisher or era, none of them at the wrap. */
  predicate InNumbers(e: Event) {
    match e
    case DeltaEvent(n, _, _) => 1 <= n < U32_MAX
    case GroupEvent(g) => g.lastK < U32_MAX
    case ResetEvent => false
  }

  /** The tracker stands at the highest number delivered or adopted. */
  lemma {:induction false} NumberStands(es: seq<Event>)
    requires forall i :: 0 <= i < |es| ==> InNumbers(es[i])
    ensures var t := Run(Fresh(0), es).trk;
            t.lastSeq == Reached(es) < U32_MAX && (t.lastSeqSet <==> Reached(es) > 0)
  {
    if es != [] {
      NumberStands(es[..|es| - 1]);
      assert InNumbers(es[|es| - 1]);
    }
  }

  /** From a wiped state, a delta numbered 1 is charged as a restart exactly when
      it is the first delta after a group and something past 1 has been taken in:
      whether the publisher restarted, the delta is merely late, or frames of the
      era before the wipe came after it. */
  lemma {:induction false} RestartChargedExactly(es: seq<Event>, op: Op, epoch: nat)
    requires forall i :: 0 <= i < |es| ==> InNumbers(es[i])
    ensures (exists f :: f in DeltaFindings(Run(Fresh(0), es), 1, op, epoch) && f.rule == NoSnapshotReset)
      <==> es != [] && es[|es| - 1].GroupEvent? && Reached(es) > 1
  {
    NumberStands(es);
    SawSnapshotIs(Fresh(0), es);
    var s := Run(Fresh(0), es);
    assert s.trk.lastSeqSet && s.trk.sawSnapshot && s.trk.lastSeq > 1 ==>
        Finding(NoSnapshotReset, Violation, NoReason) in DeltaFindings(s, 1, op, epoch);
  }

  /** Over any such stream a delta is reported as a skip exactly when it leaves out a
      number past the greatest so far, and is no restart. */
  lemma {:induction false} SkipReportedExactly(es: seq<Event>, n: u32, op: Op, epoch: nat)
    requires (forall i :: 0 <= i < |es| ==> InNumbers(es[i])) && 1 <= n
    ensures (exists f :: f in DeltaFindings(Run(Fresh(0), es), n, op, epoch) && f.rule == Density)
      <==> Reached(es) > 0 && n > Reached(es) + 1
  {
    NumberStands(es);
    var s := Run(Fresh(0), es);
    var fs := CheckSeq(s.trk, n, epoch).findings;
    assert fs != [] ==> fs[0] in DeltaFindings(s, n, op, epoch);
  }

  /** A delta is charged for what it says if and only if it clears both sides from one
      price, and it then spoils the comparison until the next group. */
  lemma MalformedChargedExactly(s: Instr, n: u32, op: Op, epoch: nat)
    ensures Finding(AbsoluteApply, Violation, NoReason) in DeltaFindings(s, n, op, epoch)
      <==> op.BookClear? && op.side == 2 && op.scope == 1
    ensures op.BookClear? && op.side == 2 && op.scope == 1 ==>
              OnDelta(s, n, op, epoch).trk.gapped && OnDelta(s, n, op, epoch).levels == s.levels
  {
    if op.Malformed() { assert DeltaFindings(s, n, op, epoch)[0] == Finding(AbsoluteApply, Violation, NoReason); }
  }

  /** The reason a group is not compared, first things first: a missed delta, a journal
      that overflowed, no baseline, a group behind it, a group the deltas have not
      reached. */
  lemma ReasonsExactly(s: Instr, g: Group)
    ensures var v := Verdict(s, g);
            && (v == Finding(Reconstruction, Unverifiable, Loss) <==> s.trk.gapped)
            && (v == Finding(Reconstruction, Unverifiable, Overflow) <==> !s.trk.gapped && s.win.overflow)
            && (v == Finding(Reconstruction, Unverifiable, ColdStart)
                <==> !s.trk.gapped && !s.win.overflow && !s.win.baseSet)
            && (v == Finding(Reconstruction, Unverifiable, Reordered)
                <==> !s.trk.gapped && !s.win.overflow && s.win.baseSet && g.lastK < s.win.baseK)
            && (v == Finding(Reconstruction, Unverifiable, Pending)
                <==> !s.trk.gapped && !s.win.overflow && s.win.baseSet && g.lastK >= s.win.baseK
                     && (!s.trk.lastSeqSet || g.lastK > s.trk.lastSeq))
  {
  }

  /** The journal takes 16384 deltas and discards the next, marking the overflow. */
  lemma JournalHolds(w: Window, e: Entry)
    ensures |w.journal| < 16384 ==> Record(w, e) == w.(journal := w.journal + [e])
    ensures |w.journal| == 16384 ==>
              Record(w, e).journal == w.journal && Record(w, e).overflow && Record(w, e).droppedMax >= e.perSeq
  {
  }

  // ---- the premise is needed ----------------------------------------------

  /** Delta i puts quantity 1 at price i, so every missed delta shows. */
  function Stairs(): (pub: Publisher)
    ensures pub.WellFormed() && |pub.ops| == 4
    ensures forall i :: 1 <= i <= 4 ==> pub.ops[i - 1] == Rung(i)
  {
    Publisher(map[], [Rung(1), Rung(2), Rung(3), Rung(4)])
  }

  function Rung(i: i64): Op { LevelUpdate(LevelKey(0, i), 1) }

  function E(i: int): Entry
    requires 1 <= i <= 4
  {
    Entry(i, Rung(i))
  }

  function D(i: int): (e: Event)
    requires 1 <= i <= 4
    ensures Stairs().Sends(e)
  {
    DeltaEvent(i, Rung(i), 0)
  }

  function G(k: nat): (e: Event)
    requires k <= 4
    ensures Stairs().Sends(e)
  {
    GroupEvent(Stairs().Truth(k))
  }

  /** After this run, a truthful group at `k` is reported as a Violation. */
  predicate Accused(es: seq<Event>, k: nat)
    requires k <= 4
  {
    Verdict(Run(Fresh(0), es), Stairs().Truth(k)) == Finding(Reconstruction, Violation, NoReason)
  }

  lemma {:induction false} StairsHas(i: nat, k: nat)
    requires i <= 4 && k <= 4
    ensures LevelKey(0, i) in Stairs().LadderAt(k) <==> 1 <= i <= k
  {
    if k > 0 {
      LadderNext(Stairs(), k - 1);
      StairsHas(i, k - 1);
    }
  }

  /** A window whose first missing delta is the one just above the baseline. */
  lemma MissedRungAccuses(s: Instr, b: nat)
    requires b < s.trk.lastSeq && b < 4 && Comparing(s)
    requires s.win.base == Stairs().LadderAt(b) && s.win.baseK == b
    requires Increasing(s.win.journal) && forall e :: e in s.win.journal ==> e.perSeq > b + 1
    ensures Verdict(s, Stairs().Truth(b + 1)) == Finding(Reconstruction, Violation, NoReason)
  {
    ReplayAtBase(s.win);
    ReplayNext(s.win, b);
    StairsHas(b + 1, b);
    StairsHas(b + 1, b + 1);
  }

  predicate At(es: seq<Event>, t: Track, w: Window) {
    Run(Fresh(0), es).trk == t && Run(Fresh(0), es).win == w
  }

  lemma Then(es: seq<Event>, t: Track, w: Window, e: Event)
    requires At(es, t, w)
    ensures match e
            case DeltaEvent(n, op, epoch) =>
              !op.Malformed() ==>
                At(es + [e], CheckSeq(t, n, epoch).trk,
                   if CheckSeq(t, n, epoch).accepted then Record(w, Entry(n, op)) else w)
            case GroupEvent(g) => At(es + [e], Resume(t, g.lastK), Rebase(w, g))
            case ResetEvent =>
              At(es + [e], Track(t.lastSeq, false, false, false, t.captureEpoch),
                 Window(map[], w.baseK, false, [], false, 0))
  {
    assert (es + [e])[..|es + [e]| - 1] == es;
  }

  lemma AfterOne(e: Entry, k: int)
    ensures After([e], k) == if e.perSeq > k then [e] else []
  {
    assert [e][1..] == [];
  }

  lemma AfterTwo(a: Entry, b: Entry, k: int)
    ensures After([a, b], k) == (if a.perSeq > k then [a] else []) + (if b.perSeq > k then [b] else [])
  {
    assert [a, b][1..] == [b];
    AfterOne(b, k);
  }

  /** A group that follows a gap but lies below the missed delta: 2 is lost. */
  lemma AdoptingBelowAGap()
    ensures Accused([] + [D(1)] + [D(3)] + [G(1)], 2)
  {
    var w2 := Window(map[], 0, false, [E(1), E(3)], false, 0);
    Then([], Fresh(0).trk, EMPTY_WINDOW, D(1));
    Then([] + [D(1)], Track(1, true, false, false, 0), Window(map[], 0, false, [E(1)], false, 0), D(3));
    Then([] + [D(1)] + [D(3)], Track(3, true, true, false, 0), w2, G(1));
    AfterTwo(E(1), E(3), 1);
    MissedRungAccuses(Run(Fresh(0), [] + [D(1)] + [D(3)] + [G(1)]), 1);
  }

  /** A capture that joins at delta 3, and adopts a first group at 1. */
  lemma JoiningAboveTheGroup()
    ensures Accused([] + [D(3)] + [G(1)], 2)
  {
    var w1 := Window(map[], 0, false, [E(3)], false, 0);
    Then([], Fresh(0).trk, EMPTY_WINDOW, D(3));
    Then([] + [D(3)], Track(3, true, false, false, 0), w1, G(1));
    AfterOne(E(3), 1);
    MissedRungAccuses(Run(Fresh(0), [] + [D(3)] + [G(1)]), 1);
  }

  /** A group behind the baseline: the journal up to 2 is already gone. */
  lemma SteppingBehindTheBaseline()
    ensures Accused([] + [D(2)] + [G(2)] + [G(1)], 2)
  {
    var t2 := Track(2, true, false, true, 0);
    var w2 := Window(Stairs().LadderAt(2), 2, true, [], false, 0);
    Then([], Fresh(0).trk, EMPTY_WINDOW, D(2));
    Then([] + [D(2)], Track(2, true, false, false, 0), Window(map[], 0, false, [E(2)], false, 0), G(2));
    AfterOne(E(2), 2);
    Then([] + [D(2)] + [G(2)], t2, w2, G(1));
    MissedRungAccuses(Run(Fresh(0), [] + [D(2)] + [G(2)] + [G(1)]), 1);
  }

  /** A group at sequence number 0 sets a baseline and leaves the tracker
      without a number, so the loss of delta 1 goes unseen. */
  lemma ColdGroupAtZero()
    ensures Accused([] + [G(0)] + [D(2)], 1)
  {
    var w1 := Window(Stairs().LadderAt(0), 0, true, [], false, 0);
    Then([], Fresh(0).trk, EMPTY_WINDOW, G(0));
    Then([] + [G(0)], Track(0, false, false, true, 0), w1, D(2));
    MissedRungAccuses(Run(Fresh(0), [] + [G(0)] + [D(2)]), 0);
  }

  /** The snapshot port runs ahead at the start of an era: a group at 2 is
      classified before delta 1 leaves the market-data buffer, and that delta is
      charged as a restart of the series. */
  lemma {:induction false} LateFirstDeltaAccuses()
    ensures DeltaFindings(Run(Fresh(0), [] + [G(2)]), 1, Rung(1), 0) == [Finding(NoSnapshotReset, Violation, NoReason)]
    ensures StreamCovered([] + [G(2)])
  {
    assert ([] + [G(2)])[..0] == [];
    Then([], Fresh(0).trk, EMPTY_WINDOW, G(2));
  }

  /** An InstrumentReset keeps the old number but forgets that it is set. A
      recovery group at or below it leaves the tracker without a number, so the
      loss of delta 3 goes unseen. */
  lemma StaleNumberAfterReset()
    ensures Accused([] + [D(2)] + [ResetEvent] + [G(2)] + [D(4)], 3)
  {
    var w3 := Window(Stairs().LadderAt(2), 2, true, [], false, 0);
    Then([], Fresh(0).trk, EMPTY_WINDOW, D(2));
    Then([] + [D(2)], Track(2, true, false, false, 0), Window(map[], 0, false, [E(2)], false, 0), ResetEvent);
    Then([] + [D(2)] + [ResetEvent], Track(2, false, false, false, 0), EMPTY_WINDOW, G(2));
    Then([] + [D(2)] + [ResetEvent] + [G(2)], Track(2, false, false, true, 0), w3, D(4));
    MissedRungAccuses(Run(Fresh(0), [] + [D(2)] + [ResetEvent] + [G(2)] + [D(4)]), 2);
  }
}
