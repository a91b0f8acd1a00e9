/** Loss is never charged as a skip: `DELTA.PERINSTR_DENSITY` across the sequence
    series, the corruption taint and the per-instrument tracker (`classify` and
    `markCorrupt` in `engine/engine.go`, `applyDeltaSeq` in `engine/gate.go`). */
module Density {
  import opened Core
  import opened Series
  import G = Gate
  import R = Reorder

  // ---- one instrument's stream, frame by frame ------------------------------

  /** A delta, or an InstrumentReset after which the publisher counts on from
      another number. */
  datatype Msg = Delta(n: u32, digest: u64) | Reset(anchor: u64, next: u32)

  /** Numbered one after the other from `next` on. */
  predicate Dense(next: nat, ms: seq<Msg>)
    decreases |ms|
  {
    ms == [] ||
    (match ms[0]
     case Delta(n, _) => n == next && Dense(next + 1, ms[1..])
     case Reset(_, k) => Dense(k, ms[1..]))
  }

  function NextAfter(next: nat, ms: seq<Msg>): nat
    decreases |ms|
  {
    if ms == [] then next
    else match ms[0]
      case Delta(_, _) => NextAfter(next + 1, ms[1..])
      case Reset(_, k) => NextAfter(k, ms[1..])
  }

  /** The number due at the start of frame j. */
  function NextBefore(next: nat, frames: seq<seq<Msg>>, j: nat): nat
    requires j <= |frames|
  {
    if j == 0 then next else NextAfter(NextBefore(next, frames, j - 1), frames[j - 1])
  }

  /** What the publisher sends: the frames, the first one's sequence number, and
      the number of the first delta. No number passes the last u32. */
  datatype Sent = Sent(frames: seq<seq<Msg>>, first: nat, next: nat)
  {
    predicate Numbered() {
      && first + |frames| <= U64_MOD
      && forall j :: 0 <= j < |frames| ==> Dense(Due(j), frames[j])
    }

    function Due(j: nat): nat
      requires j <= |frames|
    {
      NextBefore(next, frames, j)
    }

    predicate Has(seqNo: u64) { first <= seqNo < first + |frames| }
  }

  // ---- what is classified ---------------------------------------------------

  /** One datagram as it comes out of the reorder buffer: whole or cut short to
      its first `kept` messages. `scraps` counts the datagrams that reached the
      port since the previous one without a whole header: they are not buffered,
      and each taints the port. */
  datatype Copy = Copy(seqNo: u64, hash: u64, kept: Option<nat>, scraps: nat)

  datatype Sys = Sys(series: State, track: G.Track)

  const JOIN := Sys(START, G.COLD)

  function Soiled(s: State): State {
    State(s.recent, s.lastSeq, true, s.taints + 1)
  }

  /** The messages a copy still carries. */
  function Read(sent: Sent, c: Copy): seq<Msg>
    requires sent.Has(c.seqNo)
  {
    var ms := sent.frames[c.seqNo - sent.first];
    if c.kept.Some? && c.kept.value < |ms| then ms[..c.kept.value] else ms
  }

  function OnMsg(t: G.Track, m: Msg): G.Track {
    match m
    case Delta(n, digest) => G.OnDelta(t, G.Paid(n, digest))
    case Reset(a, _) => G.AfterReset(a)
  }

  function OnMsgs(t: G.Track, ms: seq<Msg>): G.Track
    decreases |ms|
  {
    if ms == [] then t else OnMsgs(OnMsg(t, ms[0]), ms[1..])
  }

  /** The findings on the messages of one frame, on a window that shows a gap or
      corruption or does not. */
  function Judged(t: G.Track, ms: seq<Msg>, clean: bool): seq<G.Finding>
    decreases |ms|
  {
    if ms == [] then []
    else
      (match ms[0]
       case Delta(n, digest) => G.DeltaFindings(t, G.Sight(clean, true, true), G.Paid(n, digest))
       case Reset(_, _) => [])
      + Judged(OnMsg(t, ms[0]), ms[1..], clean)
  }

  function RecOf(era: u8, c: Copy): Rec { Rec(Key(era, c.seqNo), c.hash) }

  /** The window as it stands when the copy's messages are judged: the gap and
      the corruption of this very datagram have been charged to it already. */
  function Window(s: State, era: u8, c: Copy, cap: nat): State {
    var s1 := Classify(s, RecOf(era, c), cap);
    if c.kept.Some? then Soiled(s1) else s1
  }

  function Scrapped(s: Sys, scraps: nat): Sys {
    Sys(State(s.series.recent, s.series.lastSeq, s.series.dirty || scraps > 0, s.series.taints + scraps), s.track)
  }

  function Taken(s: Sys, sent: Sent, era: u8, c: Copy, cap: nat): Sys
    requires sent.Has(c.seqNo)
  {
    if !Judge(s.series, RecOf(era, c)).Fresh? then s
    else Sys(Window(s.series, era, c, cap), OnMsgs(s.track, Read(sent, c)))
  }

  function TakenFindings(s: Sys, sent: Sent, era: u8, c: Copy, cap: nat): seq<G.Finding>
    requires sent.Has(c.seqNo)
  {
    if !Judge(s.series, RecOf(era, c)).Fresh? then []
    else Judged(s.track, Read(sent, c), !Window(s.series, era, c, cap).dirty)
  }

  function Step(s: Sys, sent: Sent, era: u8, c: Copy, cap: nat): Sys
    requires sent.Has(c.seqNo)
  {
    Taken(Scrapped(s, c.scraps), sent, era, c, cap)
  }

  function StepFindings(s: Sys, sent: Sent, era: u8, c: Copy, cap: nat): seq<G.Finding>
    requires sent.Has(c.seqNo)
  {
    TakenFindings(Scrapped(s, c.scraps), sent, era, c, cap)
  }

  predicate AllSent(sent: Sent, cs: seq<Copy>) {
    forall i :: 0 <= i < |cs| ==> sent.Has(cs[i].seqNo)
  }

  function Run(sent: Sent, era: u8, cs: seq<Copy>, cap: nat): Sys
    requires AllSent(sent, cs)
  {
    if cs == [] then JOIN else Step(Run(sent, era, cs[..|cs| - 1], cap), sent, era, cs[|cs| - 1], cap)
  }

  function Findings(sent: Sent, era: u8, cs: seq<Copy>, cap: nat): seq<G.Finding>
    requires AllSent(sent, cs)
  {
    if cs == [] then []
    else
      Findings(sent, era, cs[..|cs| - 1], cap)
      + StepFindings(Run(sent, era, cs[..|cs| - 1], cap), sent, era, cs[|cs| - 1], cap)
  }

  predicate Charged(fs: seq<G.Finding>) {
    G.Finding(G.Density, Violation, NoReason) in fs
  }

  // ---- loss is never a skip -------------------------------------------------

  predicate InStep(t: G.Track, next: nat) {
    t.seqs.last.None? || t.seqs.last.value + 1 == next
  }

  lemma {:induction false} DenseIsNotCharged(t: G.Track, next: nat, ms: seq<Msg>, clean: bool)
    requires InStep(t, next) && Dense(next, ms)
    ensures !Charged(Judged(t, ms, clean)) && InStep(OnMsgs(t, ms), NextAfter(next, ms))
    decreases |ms|
  {
    if ms != [] {
      match ms[0]
      case Delta(n, digest) => DenseIsNotCharged(OnMsg(t, ms[0]), next + 1, ms[1..], clean);
      case Reset(_, k) => DenseIsNotCharged(OnMsg(t, ms[0]), k, ms[1..], clean);
    }
  }

  lemma {:induction false} SoiledIsNotCharged(t: G.Track, ms: seq<Msg>)
    ensures !Charged(Judged(t, ms, false))
    decreases |ms|
  {
    if ms != [] {
      if ms[0].Delta? { ExcusedDelta(t, G.Paid(ms[0].n, ms[0].digest)); }
      SoiledIsNotCharged(OnMsg(t, ms[0]), ms[1..]);
    }
  }

  lemma ExcusedDelta(t: G.Track, p: G.Paid)
    ensures !Charged(G.DeltaFindings(t, G.Sight(false, true, true), p))
  {
  }

  /** On a clean window the tracker has seen everything up to the last frame. */
  predicate Inv(s: Sys, sent: Sent, era: u8) {
    && (s.series.lastSeq.Some? ==>
          sent.Has(s.series.lastSeq.value) && Known(s.series.recent, Key(era, s.series.lastSeq.value)))
    && (!s.series.dirty ==>
          && (s.series.lastSeq.None? ==> s.track == G.COLD)
          && (s.series.lastSeq.Some? ==> InStepAt(s.track, sent, s.series.lastSeq.value - sent.first + 1)))
  }

  predicate InStepAt(t: G.Track, sent: Sent, j: nat) {
    j <= |sent.frames| && InStep(t, sent.Due(j))
  }

  lemma NewestIsKnown(s: State, era: u8, c: Copy, cap: nat)
    requires 0 < cap && Judge(s, RecOf(era, c)).Fresh?
    ensures Known(Window(s, era, c, cap).recent, Key(era, c.seqNo))
  {
    var r := Classify(s, RecOf(era, c), cap).recent;
    assert r[|r| - 1] == RecOf(era, c);
  }

  /** A clean window means that the copy is whole and that it is the first one,
      or that of the very next frame. */
  lemma CleanWindow(s: State, era: u8, c: Copy, cap: nat)
    requires Judge(s, RecOf(era, c)).Fresh?
    requires s.lastSeq.Some? ==> Known(s.recent, Key(era, s.lastSeq.value)) && s.lastSeq.value <= c.seqNo
    ensures Window(s, era, c, cap).lastSeq == Some(c.seqNo)
    ensures !Window(s, era, c, cap).dirty ==>
              !s.dirty && c.kept.None? && (s.lastSeq.Some? ==> s.lastSeq.value + 1 == c.seqNo)
  {
  }

  lemma InvStep(s: Sys, sent: Sent, era: u8, c: Copy, cap: nat)
    requires 0 < cap && sent.Numbered() && sent.Has(c.seqNo) && Inv(s, sent, era)
    requires s.series.lastSeq.Some? ==> s.series.lastSeq.value <= c.seqNo
    ensures Inv(Taken(s, sent, era, c, cap), sent, era)
    ensures var last := Taken(s, sent, era, c, cap).series.lastSeq; last.Some? ==> last.value <= c.seqNo
  {
    if Judge(s.series, RecOf(era, c)).Fresh? {
      FreshStep(s, sent, era, c, cap);
    }
  }

  lemma FreshStep(s: Sys, sent: Sent, era: u8, c: Copy, cap: nat)
    requires 0 < cap && sent.Numbered() && sent.Has(c.seqNo) && Inv(s, sent, era)
    requires s.series.lastSeq.Some? ==> s.series.lastSeq.value <= c.seqNo
    requires Judge(s.series, RecOf(era, c)).Fresh?
    ensures Inv(Sys(Window(s.series, era, c, cap), OnMsgs(s.track, Read(sent, c))), sent, era)
    ensures Window(s.series, era, c, cap).lastSeq == Some(c.seqNo)
  {
    var w := Window(s.series, era, c, cap);
    NewestIsKnown(s.series, era, c, cap);
    CleanWindow(s.series, era, c, cap);
    if !w.dirty {
      WindowKeeps(s, sent, c);
    }
    InvAt(w, OnMsgs(s.track, Read(sent, c)), sent, era, c);
  }

  lemma {:induction false} InvAt(w: State, t: G.Track, sent: Sent, era: u8, c: Copy)
    requires sent.Has(c.seqNo) && w.lastSeq == Some(c.seqNo) && Known(w.recent, Key(era, c.seqNo))
    requires !w.dirty ==> InStepAt(t, sent, c.seqNo - sent.first + 1)
    ensures Inv(Sys(w, t), sent, era)
  {
  }

  lemma WindowKeeps(s: Sys, sent: Sent, c: Copy)
    requires sent.Numbered() && sent.Has(c.seqNo) && !s.series.dirty && c.kept.None?
    requires s.series.lastSeq.None? ==> s.track == G.COLD
    requires s.series.lastSeq.Some? ==>
               sent.Has(s.series.lastSeq.value) && s.series.lastSeq.value + 1 == c.seqNo
               && InStepAt(s.track, sent, s.series.lastSeq.value - sent.first + 1)
    ensures InStepAt(OnMsgs(s.track, Read(sent, c)), sent, c.seqNo - sent.first + 1)
  {
    StartIsInStep(s, sent, c);
    CleanStep(s.track, sent, c);
  }

  lemma StartIsInStep(s: Sys, sent: Sent, c: Copy)
    requires sent.Has(c.seqNo) && !s.series.dirty
    requires s.series.lastSeq.None? ==> s.track == G.COLD
    requires s.series.lastSeq.Some? ==>
               sent.Has(s.series.lastSeq.value) && s.series.lastSeq.value + 1 == c.seqNo
               && InStepAt(s.track, sent, s.series.lastSeq.value - sent.first + 1)
    ensures InStepAt(s.track, sent, c.seqNo - sent.first)
  {
  }

  lemma StepIsNotCharged(s: Sys, sent: Sent, era: u8, c: Copy, cap: nat)
    requires sent.Numbered() && sent.Has(c.seqNo) && Inv(s, sent, era)
    requires s.series.lastSeq.Some? ==> s.series.lastSeq.value <= c.seqNo
    ensures !Charged(TakenFindings(s, sent, era, c, cap))
  {
    if Judge(s.series, RecOf(era, c)).Fresh? {
      CleanWindow(s.series, era, c, cap);
      if Window(s.series, era, c, cap).dirty {
        SoiledIsNotCharged(s.track, Read(sent, c));
      } else {
        CleanStep(s.track, sent, c);
      }
    }
  }

  lemma CleanStep(t: G.Track, sent: Sent, c: Copy)
    requires sent.Numbered() && sent.Has(c.seqNo) && c.kept.None?
    requires InStepAt(t, sent, c.seqNo - sent.first)
    ensures !Charged(Judged(t, Read(sent, c), true))
    ensures InStepAt(OnMsgs(t, Read(sent, c)), sent, c.seqNo - sent.first + 1)
  {
    var j := c.seqNo - sent.first;
    DenseIsNotCharged(t, sent.Due(j), sent.frames[j], true);
  }

  lemma ScrapsKeepInv(s: Sys, sent: Sent, era: u8, scraps: nat)
    requires Inv(s, sent, era)
    ensures Inv(Scrapped(s, scraps), sent, era)
  {
  }

  predicate Ascending(cs: seq<Copy>) {
    forall i, j :: 0 <= i < j < |cs| ==> cs[i].seqNo <= cs[j].seqNo
  }

  /** Whatever datagrams are lost, cut short or repeated, a dense stream that is
      classified in sequence order is never charged with a skip. */
  lemma {:induction false} LossIsNeverASkip(sent: Sent, era: u8, cs: seq<Copy>, cap: nat)
    requires 0 < cap && sent.Numbered() && AllSent(sent, cs) && Ascending(cs)
    ensures !Charged(Findings(sent, era, cs, cap))
    ensures Inv(Run(sent, era, cs, cap), sent, era)
    ensures var last := Run(sent, era, cs, cap).series.lastSeq;
            last.Some? ==> cs != [] && last.value <= cs[|cs| - 1].seqNo
  {
    if cs != [] {
      var init, c := cs[..|cs| - 1], cs[|cs| - 1];
      LossIsNeverASkip(sent, era, init, cap);
      assert init != [] ==> init[|init| - 1] == cs[|cs| - 2];
      var s := Scrapped(Run(sent, era, init, cap), c.scraps);
      ScrapsKeepInv(Run(sent, era, init, cap), sent, era, c.scraps);
      InvStep(s, sent, era, c, cap);
      StepIsNotCharged(s, sent, era, c, cap);
    }
  }

  // ---- through the reorder buffer -------------------------------------------

  function SeqNos(arrived: seq<Copy>): (a: seq<u64>)
    ensures |a| == |arrived|
  {
    seq(|arrived|, i requires 0 <= i < |arrived| => arrived[i].seqNo)
  }

  lemma ClassifiedIsArrived(a: seq<u64>, window: nat, x: R.Item)
    requires x in R.Elements(R.Classified(a, window))
    ensures x.arrival < |a| && x == R.ItemAt(a, x.arrival)
  {
    var f := R.Flowed(a, |a|, window);
    R.Accounted(a, |a|, window);
    R.ArrivedIsDistinct(a, |a|, f.held);
    R.DrainedIsSorted(f.held);
    R.ElementsAppend(f.out, R.Drained(f.held));
    R.ArrivedHas(a, |a|, x);
  }

  lemma AllArrived(a: seq<u64>, window: nat)
    ensures forall i :: 0 <= i < |R.Classified(a, window)| ==>
              var x := R.Classified(a, window)[i]; x.arrival < |a| && x.seqNo == a[x.arrival]
  {
    var items := R.Classified(a, window);
    forall i | 0 <= i < |items| ensures items[i].arrival < |a| && items[i].seqNo == a[items[i].arrival] {
      assert items[i] in R.Elements(items);
      ClassifiedIsArrived(a, window, items[i]);
    }
  }

  /** The arrivals in the order in which the buffer hands them on, with the
      headerless datagrams that reached the port between two of them. */
  ghost function Released(arrived: seq<Copy>, window: nat, scraps: nat -> nat): (cs: seq<Copy>)
    ensures |cs| == |R.Classified(SeqNos(arrived), window)|
    ensures forall i :: 0 <= i < |cs| ==>
              var x := R.Classified(SeqNos(arrived), window)[i];
              && x.arrival < |arrived| && cs[i].seqNo == x.seqNo
              && cs[i] == arrived[x.arrival].(scraps := scraps(i))
  {
    var items := R.Classified(SeqNos(arrived), window);
    AllArrived(SeqNos(arrived), window);
    seq(|items|, i requires 0 <= i < |items| => arrived[items[i].arrival].(scraps := scraps(i)))
  }

  /** The whole path: if no datagram of the era is overtaken by more others than
      the window holds, then whatever was lost, cut short or repeated on the way,
      a dense publisher is not charged with a skip. */
  lemma LossIsNeverASkipThroughTheBuffer(
    sent: Sent, era: u8, arrived: seq<Copy>, window: nat, scraps: nat -> nat, cap: nat)
    requires 0 < cap && sent.Numbered() && AllSent(sent, arrived)
    requires forall i: nat :: i < |arrived| ==> |R.Overtaking(SeqNos(arrived), i)| <= window
    ensures AllSent(sent, Released(arrived, window, scraps))
    ensures !Charged(Findings(sent, era, Released(arrived, window, scraps), cap))
  {
    var cs, items := Released(arrived, window, scraps), R.Classified(SeqNos(arrived), window);
    R.RepairsEnough(SeqNos(arrived), window);
    forall i, j | 0 <= i < j < |cs| ensures cs[i].seqNo <= cs[j].seqNo {
      assert R.Less(items[i], items[j]);
    }
    LossIsNeverASkip(sent, era, cs, cap);
  }

  // ---- without loss every skip is charged -----------------------------------

  /** Every frame once, whole and in order. */
  predicate Intact(sent: Sent, cs: seq<Copy>) {
    && |cs| <= |sent.frames| && sent.first + |sent.frames| <= U64_MOD
    && forall i :: 0 <= i < |cs| ==> cs[i].seqNo == sent.first + i && cs[i].kept.None? && cs[i].scraps == 0
  }

  function AllMsgs(frames: seq<seq<Msg>>): seq<Msg> {
    if frames == [] then [] else AllMsgs(frames[..|frames| - 1]) + frames[|frames| - 1]
  }

  /** The greatest number since the last reset. */
  function Top(ms: seq<Msg>): Option<u32> {
    if ms == [] then None
    else match ms[|ms| - 1]
      case Reset(_, _) => None
      case Delta(n, _) =>
        var t := Top(ms[..|ms| - 1]);
        if t.Some? && t.value > n then t else Some(n)
  }

  predicate Skips(before: seq<Msg>, m: Msg) {
    m.Delta? && Top(before).Some? && m.n > Next32(Top(before).value)
  }

  function SkipCount(ms: seq<Msg>): nat {
    if ms == [] then 0
    else SkipCount(ms[..|ms| - 1]) + if Skips(ms[..|ms| - 1], ms[|ms| - 1]) then 1 else 0
  }

  predicate IsCharge(f: G.Finding) { f == G.Finding(G.Density, Violation, NoReason) }

  lemma OneLaterCharge(resetting: bool, paid: seq<G.Paid>, last: u32, at: G.Sight, p: G.Paid)
    requires at.gapless
    ensures Count(G.LaterFindings(resetting, paid, last, at, p), IsCharge) == if p.perSeq > Next32(last) then 1 else 0
  {
    var fs := G.LaterFindings(resetting, paid, last, at, p);
    if p.perSeq > Next32(last) {
      OneCounted(fs[0], IsCharge);
      assert fs == [fs[0]];
    } else {
      NoneCounted(fs, IsCharge);
    }
  }

  lemma {:induction false} OneCharge(t: G.Track, p: G.Paid)
    ensures Count(G.DeltaFindings(t, G.Sight(true, true, true), p), IsCharge)
      == if t.seqs.last.Some? && p.perSeq > Next32(t.seqs.last.value) then 1 else 0
  {
    var at := G.Sight(true, true, true);
    CountAdds(G.PrematureFindings(t.rec, at), G.SequenceFindings(t, at, p), IsCharge);
    NoneCounted(G.PrematureFindings(t.rec, at), IsCharge);
    match t.seqs.last
    case None => NoFirstCharge(t, p);
    case Some(last) => OneLaterCharge(t.rec.seenReset || t.rec.pendingAnchor.Some?, t.paid, last, at, p);
  }

  lemma {:induction false} NoFirstCharge(t: G.Track, p: G.Paid)
    ensures Count(G.FirstFindings(t.rec.k, t.rec.seenReset, G.Sight(true, true, true), p.perSeq), IsCharge) == 0
  {
    NoneCounted(G.FirstFindings(t.rec.k, t.rec.seenReset, G.Sight(true, true, true), p.perSeq), IsCharge);
  }

  lemma {:induction false} SkipsAreCharged(before: seq<Msg>, t: G.Track, ms: seq<Msg>)
    requires t.seqs.last == Top(before)
    ensures OnMsgs(t, ms).seqs.last == Top(before + ms)
    ensures SkipCount(before + ms) == SkipCount(before) + Count(Judged(t, ms, true), IsCharge)
    decreases |ms|
  {
    if ms == [] {
      assert before + ms == before;
    } else {
      var m := ms[0];
      assert (before + [m])[..|before|] == before;
      assert before + ms == (before + [m]) + ms[1..];
      SkipsAreCharged(before + [m], OnMsg(t, m), ms[1..]);
      if m.Delta? {
        var fs := G.DeltaFindings(t, G.Sight(true, true, true), G.Paid(m.n, m.digest));
        OneCharge(t, G.Paid(m.n, m.digest));
        CountAdds(fs, Judged(OnMsg(t, m), ms[1..], true), IsCharge);
      } else {
        assert Judged(t, ms, true) == Judged(OnMsg(t, m), ms[1..], true);
      }
    }
  }

  /** The window after the first n frames: clean, and it has heard of no later one. */
  predicate Untouched(s: State, first: nat, n: nat) {
    && !s.dirty
    && s.lastSeq == (if n == 0 then None else Some(first + n - 1))
    && forall i :: 0 <= i < |s.recent| ==> s.recent[i].key.seqNo < first + n
  }

  lemma UntouchedStep(s: State, first: nat, n: nat, era: u8, c: Copy, cap: nat)
    requires Untouched(s, first, n) && c.seqNo == first + n && c.kept.None? && first + n < U64_MOD
    ensures Judge(s, RecOf(era, c)).Fresh?
    ensures Untouched(Window(s, era, c, cap), first, n + 1)
  {
  }

  /** After the first n frames: the greatest number, the window, and as many
      charges as skips. */
  predicate Tally(s: Sys, charges: nat, sent: Sent, n: nat)
    requires n <= |sent.frames|
  {
    var ms := AllMsgs(sent.frames[..n]);
    s.track.seqs.last == Top(ms) && Untouched(s.series, sent.first, n) && charges == SkipCount(ms)
  }

  lemma IntactIsSent(sent: Sent, cs: seq<Copy>)
    requires Intact(sent, cs)
    ensures AllSent(sent, cs)
  {
  }

  /** On a loss-free run nothing is excused: whatever the publisher sends, each
      delta that jumps past the successor of the greatest number so far draws
      exactly one violation, and nothing else does. */
  lemma {:induction false} EverySkipIsCharged(sent: Sent, era: u8, cs: seq<Copy>, cap: nat)
    requires 0 < cap && Intact(sent, cs)
    ensures AllSent(sent, cs)
    ensures Tally(Run(sent, era, cs, cap), Count(Findings(sent, era, cs, cap), IsCharge), sent, |cs|)
  {
    IntactIsSent(sent, cs);
    if cs == [] {
      assert sent.frames[..0] == [];
    } else {
      var init, c := cs[..|cs| - 1], cs[|cs| - 1];
      EverySkipIsCharged(sent, era, init, cap);
      var s, fs := Run(sent, era, init, cap), Findings(sent, era, init, cap);
      IntactStep(s, Count(fs, IsCharge), sent, era, c, cap, |init|);
      CountAdds(fs, StepFindings(s, sent, era, c, cap), IsCharge);
    }
  }

  lemma {:induction false} IntactStep(s: Sys, charges: nat, sent: Sent, era: u8, c: Copy, cap: nat, n: nat)
    requires n < |sent.frames| && sent.first + |sent.frames| <= U64_MOD
    requires c.seqNo == sent.first + n && c.kept.None? && c.scraps == 0
    requires Tally(s, charges, sent, n)
    ensures var more := Count(StepFindings(s, sent, era, c, cap), IsCharge);
            Tally(Step(s, sent, era, c, cap), charges + more, sent, n + 1)
  {
    UntouchedStep(s.series, sent.first, n, era, c, cap);
    IntactIs(s, sent, era, c, cap, n);
    NextFrame(sent.frames, n);
    SkipsAreCharged(AllMsgs(sent.frames[..n]), s.track, sent.frames[n]);
  }

  lemma NextFrame(frames: seq<seq<Msg>>, n: nat)
    requires n < |frames|
    ensures AllMsgs(frames[..n + 1]) == AllMsgs(frames[..n]) + frames[n]
  {
    assert frames[..n + 1][..n] == frames[..n];
  }

  lemma IntactIs(s: Sys, sent: Sent, era: u8, c: Copy, cap: nat, n: nat)
    requires n < |sent.frames| && sent.first + |sent.frames| <= U64_MOD
    requires c.seqNo == sent.first + n && c.kept.None? && c.scraps == 0
    requires Judge(s.series, RecOf(era, c)).Fresh? && !Window(s.series, era, c, cap).dirty
    ensures Step(s, sent, era, c, cap) == Sys(Window(s.series, era, c, cap), OnMsgs(s.track, sent.frames[n]))
    ensures StepFindings(s, sent, era, c, cap) == Judged(s.track, sent.frames[n], true)
  {
  }

  // ---- where the premises are needed ----------------------------------------

  /** Past the wrap the tracker stands at the last u32, so the delta after the
      wrapped one is charged as a skip although nothing is missing. */
  lemma AfterTheWrapNothingIsDense(t: G.Track, d0: u64, d1: u64)
    requires t.seqs.last == Some(U32_MAX)
    ensures Charged(Judged(t, [Delta(0, d0), Delta(1, d1)], true))
  {
    var ms := [Delta(0, d0), Delta(1, d1)];
    assert ms[1..] == [Delta(1, d1)];
    var t1 := OnMsg(t, ms[0]);
    assert G.Finding(G.Density, Violation, NoReason)
        in G.DeltaFindings(t1, G.Sight(true, true, true), G.Paid(1, d1));
    assert Judged(t1, ms[1..], true)
      == G.DeltaFindings(t1, G.Sight(true, true, true), G.Paid(1, d1)) + Judged(OnMsg(t1, ms[1]), [], true);
  }

  /** The copies as the series sees them. */
  function RecsOf(era: u8, cs: seq<Copy>): (rs: seq<Rec>)
    ensures |rs| == |cs| && forall i :: 0 <= i < |cs| ==> rs[i] == RecOf(era, cs[i])
  {
    seq(|cs|, i requires 0 <= i < |cs| => RecOf(era, cs[i]))
  }

  /** Corruption taints the window and changes nothing else about it. */
  lemma {:induction false} DamageOnlyTaints(sent: Sent, era: u8, cs: seq<Copy>, cap: nat)
    requires AllSent(sent, cs)
    ensures var s, t := Run(sent, era, cs, cap).series, Series.Run(RecsOf(era, cs), cap);
            s.recent == t.recent && s.lastSeq == t.lastSeq
  {
    if cs != [] {
      DamageOnlyTaints(sent, era, cs[..|cs| - 1], cap);
      assert RecsOf(era, cs)[..|cs| - 1] == RecsOf(era, cs[..|cs| - 1]);
    }
  }

  predicate IsDivergent(sent: Sent, era: u8, cs: seq<Copy>, c: Copy, cap: nat)
    requires AllSent(sent, cs)
  {
    Judge(Run(sent, era, cs, cap).series, RecOf(era, c)) == DivergentDup
  }

  /** A copy is judged by its bytes alone. After any run of whole and cut copies
      it is charged as divergent, a violation, exactly when a frame of its number
      is among the last `cap` accepted ones and none of those has its bytes;
      its own transport damage then taints nothing. */
  lemma {:induction false} CopyIsDivergentExactly(sent: Sent, era: u8, cs: seq<Copy>, c: Copy, cap: nat)
    requires AllSent(sent, cs) && sent.Has(c.seqNo)
    ensures var w := Remembered(RecsOf(era, cs), cap);
            IsDivergent(sent, era, cs, c, cap) <==> Known(w, Key(era, c.seqNo)) && !Repeats(w, RecOf(era, c))
    ensures IsDivergent(sent, era, cs, c, cap) ==>
              Step(Run(sent, era, cs, cap), sent, era, c, cap) == Scrapped(Run(sent, era, cs, cap), c.scraps)
  {
    DamageOnlyTaints(sent, era, cs, cap);
    DivergentExactly(RecsOf(era, cs), RecOf(era, c), cap);
  }

  /** So copies that agree byte for byte are never charged, whatever is lost. */
  lemma {:induction false} EqualCopiesAreNotCharged(sent: Sent, era: u8, cs: seq<Copy>, cap: nat, n: nat)
    requires AllSent(sent, cs) && n < |cs|
    requires forall i, j :: 0 <= i < |cs| && 0 <= j < |cs| && cs[i].seqNo == cs[j].seqNo ==> cs[i].hash == cs[j].hash
    ensures AllSent(sent, cs[..n]) && !IsDivergent(sent, era, cs[..n], cs[n], cap)
  {
    var recs := RecsOf(era, cs);
    assert OneHashPerKey(recs);
    DamageOnlyTaints(sent, era, cs[..n], cap);
    EqualCopiesAreNotDivergent(recs, cap, n);
    assert recs[..n] == RecsOf(era, cs[..n]);
  }

  /** And a copy cut short on the way, after the whole one, is. */
  lemma {:induction false} CutRepeatIsDivergent(sent: Sent, era: u8, whole: Copy, cut: Copy, cap: nat)
    requires 0 < cap && sent.Has(whole.seqNo) && cut.seqNo == whole.seqNo
    requires whole.kept.None? && cut.kept.Some? && cut.hash != whole.hash
    ensures AllSent(sent, [whole]) && IsDivergent(sent, era, [whole], cut, cap)
  {
    var recs := RecsOf(era, [whole]);
    CopyIsDivergentExactly(sent, era, [whole], cut, cap);
    assert recs[..0] == [] && Accepted(recs, cap) == [RecOf(era, whole)];
    assert Remembered(recs, cap)[0].key == Key(era, cut.seqNo);
  }

  const JOINED: Sent := Sent([[Delta(10, 0)], [Delta(11, 0)], [], [Delta(12, 0)]], 3, 10)

  /** Frame 5 classified first, then the overtaken frame 3, then 6; 4 is lost. */
  const OUT_OF_ORDER: seq<Copy> := [Copy(5, 0, None, 0), Copy(3, 0, None, 0), Copy(6, 0, None, 0)]

  /** A datagram overtaken past the window at the join: frame 4 is lost, but no
      forward gap ever shows, and its delta is charged as a skip. */
  lemma {:induction false} OutOfOrderAtTheJoinAccuses()
    ensures JOINED.Numbered() && AllSent(JOINED, OUT_OF_ORDER)
    ensures Charged(Findings(JOINED, 0, OUT_OF_ORDER, 16))
  {
    JoinedIsNumbered();
    var cs := OUT_OF_ORDER;
    assert cs[..2] == [cs[0], cs[1]];
    FirstTwo();
    ThirdIsCharged(Run(JOINED, 0, cs[..2], 16));
  }

  /** The tracker joined at 10, and the window has heard of 5 and of 3. */
  predicate Joined(s: Sys) {
    && s.series.recent == [RecOf(0, OUT_OF_ORDER[0]), RecOf(0, OUT_OF_ORDER[1])]
    && s.series.lastSeq == Some(5) && !s.series.dirty && s.track.seqs.last == Some(10)
  }

  lemma {:induction false} FirstTwo()
    ensures AllSent(JOINED, OUT_OF_ORDER[..2]) && Joined(Run(JOINED, 0, OUT_OF_ORDER[..2], 16))
  {
    var a, b := OUT_OF_ORDER[0], OUT_OF_ORDER[1];
    assert OUT_OF_ORDER[..2] == [a, b] && [a, b][..1] == [a] && [a][..0] == [];
    assert Run(JOINED, 0, [], 16) == JOIN;
    var s := Run(JOINED, 0, [a], 16);
    assert s == Step(JOIN, JOINED, 0, a, 16);
    assert s.series.recent == [RecOf(0, a)] && s.track == G.COLD;
    SecondJoins(s);
    assert Run(JOINED, 0, [a, b], 16) == Step(s, JOINED, 0, b, 16);
  }

  lemma {:induction false} SecondJoins(s: Sys)
    requires s.series == State([RecOf(0, OUT_OF_ORDER[0])], Some(5), false, 0) && s.track == G.COLD
    ensures Joined(Step(s, JOINED, 0, OUT_OF_ORDER[1], 16))
  {
    var c := OUT_OF_ORDER[1];
    var ms := Read(JOINED, c);
    assert Judge(s.series, RecOf(0, c)).Fresh?;
    assert ms == [Delta(10, 0)] && ms[1..] == [];
    assert OnMsgs(s.track, ms) == G.OnDelta(G.COLD, G.Paid(10, 0));
  }

  lemma JoinedIsNumbered()
    ensures JOINED.Numbered()
  {
    var f := JOINED.frames;
    assert f[0][1..] == [] && f[1][1..] == [] && f[3][1..] == [];
    assert JOINED.Due(1) == 11;
    assert JOINED.Due(2) == 12;
    assert JOINED.Due(3) == 12;
  }

  lemma ThirdIsCharged(s: Sys)
    requires Joined(s)
    ensures Charged(StepFindings(s, JOINED, 0, OUT_OF_ORDER[2], 16))
  {
    var c := OUT_OF_ORDER[2];
    var ms := Read(JOINED, c);
    assert Judge(s.series, RecOf(0, c)).Fresh?;
    assert ms == [Delta(12, 0)] && ms[1..] == [];
    assert G.Finding(G.Density, Violation, NoReason)
        in G.DeltaFindings(s.track, G.Sight(true, true, true), G.Paid(12, 0));
  }

  // ---- a tracker that is not cold when the era begins ---------------------------

  /** The number due next is not past the one the tracker waits for. */
  predicate Reaches(t: G.Track, next: nat) {
    t.seqs.last.Some? ==> next <= t.seqs.last.value + 1
  }

  predicate Due32(t: G.Track, next: nat) {
    Reaches(t, next) && (t.seqs.last == Some(U32_MAX) ==> next == U32_MAX + 1)
  }

  lemma ReachedDelta(t: G.Track, n: u32, digest: u64)
    requires Due32(t, n)
    ensures !Charged(G.DeltaFindings(t, G.Sight(true, true, true), G.Paid(n, digest)))
    ensures Due32(G.OnDelta(t, G.Paid(n, digest)), n + 1)
  {
  }

  lemma {:induction false} ReachedIsNotCharged(t: G.Track, next: nat, ms: seq<Msg>)
    requires Due32(t, next) && Dense(next, ms)
    ensures !Charged(Judged(t, ms, true))
    decreases |ms|
  {
    if ms != [] {
      match ms[0]
      case Delta(n, digest) =>
        ReachedDelta(t, n, digest);
        ReachedIsNotCharged(OnMsg(t, ms[0]), next + 1, ms[1..]);
      case Reset(_, k) => ReachedIsNotCharged(OnMsg(t, ms[0]), k, ms[1..]);
    }
  }

  /** A frame of a dense stream is charged on a clean window exactly when it begins
      with a delta past the one the tracker waits for. */
  lemma {:induction false} FrameChargedExactly(t: G.Track, next: nat, ms: seq<Msg>)
    requires Dense(next, ms) && (t.seqs.last.Some? ==> t.seqs.last.value < U32_MAX)
    ensures Charged(Judged(t, ms, true))
      <==> ms != [] && ms[0].Delta? && t.seqs.last.Some? && ms[0].n > t.seqs.last.value + 1
  {
    if ms == [] {
    } else if ms[0].Reset? {
      ReachedIsNotCharged(OnMsg(t, ms[0]), ms[0].next, ms[1..]);
      assert Judged(t, ms, true) == Judged(OnMsg(t, ms[0]), ms[1..], true);
    } else if t.seqs.last.Some? && ms[0].n > t.seqs.last.value + 1 {
      SkipIsCharged(t, ms[0].n, ms[0].digest);
    } else {
      ReachedIsNotCharged(t, next, ms);
    }
  }

  lemma SkipIsCharged(t: G.Track, n: u32, digest: u64)
    requires t.seqs.last.Some? && t.seqs.last.value + 1 < n
    ensures Charged(G.DeltaFindings(t, G.Sight(true, true, true), G.Paid(n, digest)))
  {
    var fs := G.SequenceFindings(t, G.Sight(true, true, true), G.Paid(n, digest));
    assert fs == [G.Finding(G.Density, Violation, NoReason)];
  }

  /** What an era loses before its first datagram shows no gap. So if the tracker
      has taken in deltas of the era before since it was wiped, the first datagram
      that arrives is charged with a skip exactly when it begins past the delta the
      tracker waits for. */
  lemma {:induction false} FirstCopyChargedExactly(t: G.Track, sent: Sent, era: u8, c: Copy, cap: nat)
    requires sent.Numbered() && sent.Has(c.seqNo) && c.kept.None? && c.scraps == 0
    requires t.seqs.last.Some? ==> t.seqs.last.value < U32_MAX
    ensures var ms := sent.frames[c.seqNo - sent.first];
            Charged(StepFindings(Sys(START, t), sent, era, c, cap))
            <==> ms != [] && ms[0].Delta? && t.seqs.last.Some? && ms[0].n > t.seqs.last.value + 1
  {
    var j := c.seqNo - sent.first;
    FrameChargedExactly(t, sent.Due(j), sent.frames[j]);
    FirstIsClean(era, c, cap);
    assert Scrapped(Sys(START, t), 0) == Sys(START, t);
  }

  lemma FirstIsClean(era: u8, c: Copy, cap: nat)
    requires c.kept.None?
    ensures Judge(START, RecOf(era, c)).Fresh? && !Window(START, era, c, cap).dirty
  {
  }

  /** The tracker holds one delta of the era before, the new era's first datagram is
      lost, and the second is charged. */
  lemma {:induction false} LeftDeltaHidesALoss(left: G.Paid, era: u8)
    requires left.perSeq == 1
    ensures var sent := Sent([[Delta(1, 0), Delta(2, 0)], [Delta(3, 0)]], 0, 1);
            sent.Numbered()
            && Charged(StepFindings(Sys(START, G.OnDelta(G.COLD, left)), sent, era, Copy(1, 0, None, 0), 16))
  {
    var f := [[Delta(1, 0), Delta(2, 0)], [Delta(3, 0)]];
    var sent := Sent(f, 0, 1);
    assert f[0][1..] == [Delta(2, 0)] && f[0][1..][1..] == [] && f[1][1..] == [];
    assert sent.Due(0) == 1 && sent.Due(1) == 3;
    FirstCopyChargedExactly(G.OnDelta(G.COLD, left), sent, era, Copy(1, 0, None, 0), 16);
  }
}
