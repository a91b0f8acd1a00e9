/** The gates of the market-by-order oracle, said outright: when a group is compared,
    what is reported when it is not, and that no group is charged on a window in
    which anything is missing or damaged. */
module OracleGates {
  import opened Core
  import opened Oracle
  import Density
  import Gate
  import MG = MboGroups
  import Series

  // ---- one group ------------------------------------------------------------

  /** A group is compared exactly when it is well-formed, its instrument is known,
      the order history is trusted and untouched by a replay, neither port shows a
      loss, and the book stands at the group's own number. */
  lemma ComparedExactly(g: MG.Group, s: Gate.Seqs, known: bool, gapless: bool, sig: set<Diff>)
    ensures CycleOf(g, s, known, gapless, sig) == Compared(sig)
      <==> !g.structural && known && s.trusted && !s.dup && gapless && s.last == Some(g.head.k) && !g.dirty
    ensures CycleOf(g, s, known, gapless, sig).Forgotten? == false
  {
  }

  /** Which differences two books have: a visible record without a resting order, a
      visible resting order without a record, and, of an order on both sides whose
      record is visible, each field that differs, the quantity of a visible one only. */
  lemma SignatureExactly(snap: Records, live: Resting, id: u64)
    ensures var sig, both := Signature(snap, live), id in snap && (snap[id].flags / 4) % 2 == 0 && id in live;
            && (Diff(id, MissingInDelta) in sig <==> id in snap && (snap[id].flags / 4) % 2 == 0 && id !in live)
            && (Diff(id, ExtraInDelta) in sig <==> id in live && (live[id].flags / 4) % 2 == 0 && id !in snap)
            && (Diff(id, Side) in sig <==> both && snap[id].side != live[id].side)
            && (Diff(id, Price) in sig <==> both && snap[id].price != live[id].price)
            && (Diff(id, Qty) in sig
                <==> both && (live[id].flags / 4) % 2 == 0 && snap[id].qty != live[id].remaining)
            && (Diff(id, Flags) in sig <==> both && snap[id].flags != live[id].flags)
            && (Diff(id, EnterTS) in sig <==> both && snap[id].enterTS != live[id].enterTS)
  {
  }

  predicate OnlyReports(fs: seq<Finding>, status: Status, reason: Reason) {
    fs == [Finding(status, reason)]
  }

  /** On a market-data window with a gap, over a group with one, or for an unknown
      instrument, the report is Unverifiable whatever the books and the memory hold,
      and the memory is empty afterwards. */
  lemma LossIsNeverCharged(
    g: MG.Group, s: Gate.Seqs, known: bool, gapless: bool, sig: set<Diff>, memory: Option<Suspect>, n: int)
    requires !gapless || g.dirty || !known
    ensures var c := CycleOf(g, s, known, gapless, sig);
            && (exists reason :: OnlyReports(Report(memory, c, n), Unverifiable, reason))
            && Recall(memory, c) == None
  {
    var c := CycleOf(g, s, known, gapless, sig);
    assert OnlyReports(Report(memory, c, n), Unverifiable, c.reason);
  }

  /** The reason given is that of the first gate that fails, in the order:
      structure, reference data, trust, replay, market-data loss, no delta yet,
      another number, loss within the group. */
  lemma ReasonsExactly(
    g: MG.Group, s: Gate.Seqs, known: bool, gapless: bool, sig: set<Diff>, memory: Option<Suspect>, n: int)
    ensures var fs := Report(memory, CycleOf(g, s, known, gapless, sig), n);
            && (OnlyReports(fs, Unverifiable, Superseded) <==> g.structural)
            && (OnlyReports(fs, Unverifiable, Untrusted) <==> !g.structural && known && !s.trusted)
            && (OnlyReports(fs, Unverifiable, Reordered) <==> !g.structural && known && s.trusted && s.dup)
            && (OnlyReports(fs, Unverifiable, ColdStart)
                <==> !g.structural && (!known || (s.trusted && !s.dup && gapless && s.last.None?)))
            && (OnlyReports(fs, Unverifiable, Pending)
                <==> !g.structural && known && s.trusted && !s.dup && gapless
                     && s.last.Some? && s.last != Some(g.head.k))
            && (OnlyReports(fs, Unverifiable, Loss)
                <==> !g.structural && known && s.trusted && !s.dup
                     && (!gapless || (s.last == Some(g.head.k) && g.dirty)))
  {
  }

  /** A comparison without a difference passes; one with a difference is a violation
      once it has been seen in a row as often as configured, twice by default, and
      a suspicion before that. */
  lemma ComparisonsReportExactly(memory: Option<Suspect>, sig: set<Diff>, n: int)
    ensures var fs, times := Report(memory, Compared(sig), n),
              if memory.Some? && memory.value.sig == sig then memory.value.count + 1 else 1;
            && (OnlyReports(fs, Pass, NoReason) <==> sig == {})
            && (OnlyReports(fs, Violation, NoReason) <==> sig != {} && times >= if n <= 0 then 2 else n)
            && (OnlyReports(fs, Suspected, NoReason) <==> sig != {} && times < if n <= 0 then 2 else n)
  {
  }

  // ---- the port whose window the gate consults --------------------------------

  predicate Missing(cs: seq<Density.Copy>, q: int) {
    forall i :: 0 <= i < |cs| ==> cs[i].seqNo != q
  }

  /** Some number between the first datagram of the era and the greatest was not
      classified. */
  predicate Holed(cs: seq<Density.Copy>, last: Option<u64>) {
    cs != [] && last.Some? && exists q: int :: cs[0].seqNo <= q <= last.value && Missing(cs, q)
  }

  /** A datagram without a whole header reached the port, or one that was accepted
      had been cut short. */
  predicate Damages(s: Density.Sys, era: u8, c: Density.Copy) {
    c.scraps > 0 || (c.kept.Some? && Series.Judge(s.series, Density.RecOf(era, c)).Fresh?)
  }

  predicate Damaged(sent: Density.Sent, era: u8, cs: seq<Density.Copy>, cap: nat)
    requires Density.AllSent(sent, cs)
  {
    if cs == [] then false
    else
      var init := cs[..|cs| - 1];
      Damaged(sent, era, init, cap) || Damages(Density.Run(sent, era, init, cap), era, cs[|cs| - 1])
  }

  lemma DamageShows(s: Density.Sys, sent: Density.Sent, era: u8, c: Density.Copy, cap: nat)
    requires sent.Has(c.seqNo)
    ensures s.series.dirty || Damages(s, era, c) ==> Density.Step(s, sent, era, c, cap).series.dirty
  {
  }

  lemma {:induction false} DamagedShows(sent: Density.Sent, era: u8, cs: seq<Density.Copy>, cap: nat)
    requires Density.AllSent(sent, cs) && Damaged(sent, era, cs, cap)
    ensures Density.Run(sent, era, cs, cap).series.dirty
  {
    var init := cs[..|cs| - 1];
    if Damaged(sent, era, init, cap) { DamagedShows(sent, era, init, cap); }
    DamageShows(Density.Run(sent, era, init, cap), sent, era, cs[|cs| - 1], cap);
  }

  /** On a clean window every number up to the greatest is there. */
  predicate Solid(s: Density.Sys, cs: seq<Density.Copy>) {
    && (cs == [] ==> s == Density.JOIN)
    && (cs != [] ==> s.series.lastSeq.Some? && (!s.series.dirty ==> !Holed(cs, s.series.lastSeq)))
  }

  lemma {:induction false} SolidStep(
    s: Density.Sys, sent: Density.Sent, era: u8, cs: seq<Density.Copy>, c: Density.Copy, cap: nat)
    requires sent.Has(c.seqNo) && Solid(s, cs)
    ensures Solid(Density.Step(s, sent, era, c, cap), cs + [c])
  {
    var s', all := Density.Step(s, sent, era, c, cap), cs + [c];
    if !s'.series.dirty {
      forall q: int | all[0].seqNo <= q <= s'.series.lastSeq.value ensures !Missing(all, q) {
        if cs != [] && q <= s.series.lastSeq.value {
          assert all[0] == cs[0] && !Missing(cs, q);
          var i :| 0 <= i < |cs| && cs[i].seqNo == q;
          assert all[i].seqNo == q;
        } else {
          assert all[|cs|].seqNo == q;
        }
      }
    }
  }

  lemma {:induction false} SolidRun(sent: Density.Sent, era: u8, cs: seq<Density.Copy>, cap: nat)
    requires Density.AllSent(sent, cs)
    ensures Solid(Density.Run(sent, era, cs, cap), cs)
  {
    if cs != [] {
      var init := cs[..|cs| - 1];
      SolidRun(sent, era, init, cap);
      SolidStep(Density.Run(sent, era, init, cap), sent, era, init, cs[|cs| - 1], cap);
      assert init + [cs[|cs| - 1]] == cs;
    }
  }

  /** Over any run of datagrams of an era, in any order and with any repeats: once a
      number up to the greatest is missing, or a datagram was damaged, every group is
      reported as Unverifiable, whatever the books hold and whatever was suspected
      before, and the memory is empty. */
  lemma {:induction false} LossyWindowIsNeverCharged(
    sent: Density.Sent, era: u8, cs: seq<Density.Copy>, cap: nat,
    g: MG.Group, known: bool, live: Resting, memory: Option<Suspect>, n: int)
    requires Density.AllSent(sent, cs)
    requires Damaged(sent, era, cs, cap) || Holed(cs, Density.Run(sent, era, cs, cap).series.lastSeq)
    ensures var y := Density.Run(sent, era, cs, cap);
            var c := CycleOf(g, y.track.seqs, known, !y.series.dirty, Signature(g.orders, live));
            && (exists reason :: OnlyReports(Report(memory, c, n), Unverifiable, reason))
            && Recall(memory, c) == None
  {
    var y := Density.Run(sent, era, cs, cap);
    if Damaged(sent, era, cs, cap) { DamagedShows(sent, era, cs, cap); } else { SolidRun(sent, era, cs, cap); }
    LossIsNeverCharged(g, y.track.seqs, known, !y.series.dirty, Signature(g.orders, live), memory, n);
  }
}
