/** One instrument of the market-by-price consumer (`engine/mbp.go`): the
    per-instrument sequence, the adopted baseline and the bounded journal that
    reconstructs the ladder as of any sequence number in the window. */
module MbpInstr {
  import opened Core
  import opened MbpBook

  const MAX_JOURNAL: nat := 16384

  datatype Rule = Density | NoSnapshotReset | AbsoluteApply | Reconstruction

  datatype Finding = Finding(rule: Rule, status: Status, reason: Reason)

  datatype Entry = Entry(perSeq: u32, op: Op)

  /** A completed, well-formed snapshot group. */
  datatype Group = Group(lastK: u32, levels: Ladder)

  /** The per-instrument sequence and the trust it carries. */
  datatype Track = Track(lastSeq: u32, lastSeqSet: bool, gapped: bool, sawSnapshot: bool, captureEpoch: nat)

  /** The adopted baseline and the deltas journalled since. */
  datatype Window = Window(base: Ladder, baseK: u32, baseSet: bool,
                           journal: seq<Entry>, overflow: bool, droppedMax: u32)

  datatype Instr = Instr(levels: Ladder, ready: bool, trk: Track, win: Window)

  const EMPTY_WINDOW := Window(map[], 0, false, [], false, 0)

  function Fresh(epoch: nat): Instr {
    Instr(map[], false, Track(0, false, false, false, epoch), EMPTY_WINDOW)
  }

  // ---- the journal --------------------------------------------------------

  function Ops(js: seq<Entry>): (ops: seq<Op>)
    ensures |ops| == |js|
    ensures forall i :: 0 <= i < |js| ==> ops[i] == js[i].op
  {
    seq(|js|, i requires 0 <= i < |js| => js[i].op)
  }

  predicate Increasing(js: seq<Entry>) {
    forall i, j :: 0 <= i < j < |js| ==> js[i].perSeq < js[j].perSeq
  }

  /** Where a replay up to `k` stops: at the first entry past it. */
  function FirstAbove(js: seq<Entry>, k: int): (n: nat)
    ensures n <= |js|
    ensures forall i :: 0 <= i < n ==> js[i].perSeq <= k
    ensures n < |js| ==> js[n].perSeq > k
  {
    if js == [] || js[0].perSeq > k then 0 else 1 + FirstAbove(js[1..], k)
  }

  function UpTo(js: seq<Entry>, k: int): seq<Entry> {
    if js == [] then []
    else (if js[0].perSeq <= k then [js[0]] else []) + UpTo(js[1..], k)
  }

  function After(js: seq<Entry>, k: int): seq<Entry> {
    if js == [] then []
    else (if js[0].perSeq > k then [js[0]] else []) + After(js[1..], k)
  }

  lemma {:induction false} AfterNext(js: seq<Entry>, i: nat, k: int)
    requires i < |js|
    ensures After(js[i..], k) == (if js[i].perSeq > k then [js[i]] else []) + After(js[i + 1..], k)
  {
    assert js[i..][1..] == js[i + 1..];
  }

  function StateAsOf(w: Window, k: int): Ladder {
    Replay(w.base, Ops(w.journal[..FirstAbove(w.journal, k)]))
  }

  lemma IncreasingTail(js: seq<Entry>)
    requires Increasing(js) && js != []
    ensures Increasing(js[1..])
  {
    var rest := js[1..];
    forall i, j | 0 <= i < j < |rest| ensures rest[i].perSeq < rest[j].perSeq {
      assert rest[i] == js[i + 1] && rest[j] == js[j + 1];
    }
  }

  lemma {:induction false} AllAbove(js: seq<Entry>, k: int)
    requires forall i :: 0 <= i < |js| ==> js[i].perSeq > k
    ensures UpTo(js, k) == [] && After(js, k) == js
  {
    if js != [] {
      var rest := js[1..];
      forall i | 0 <= i < |rest| ensures rest[i].perSeq > k { assert rest[i] == js[i + 1]; }
      AllAbove(rest, k);
    }
  }

  /** Stopping at the first entry past `k` loses nothing while the journal is in
      sequence order: it replays exactly the entries at or below `k`. */
  lemma {:induction false} StoppingEarlyIsFiltering(js: seq<Entry>, k: int)
    requires Increasing(js)
    ensures js[..FirstAbove(js, k)] == UpTo(js, k)
    ensures js[FirstAbove(js, k)..] == After(js, k)
  {
    if js != [] {
      if js[0].perSeq > k {
        assert forall i :: 0 < i < |js| ==> js[0].perSeq < js[i].perSeq;
        AllAbove(js, k);
      } else {
        IncreasingTail(js);
        StoppingEarlyIsFiltering(js[1..], k);
        OneBelow(js, k, FirstAbove(js[1..], k));
      }
    }
  }

  lemma OneBelow(js: seq<Entry>, k: int, n: nat)
    requires js != [] && js[0].perSeq <= k && n == FirstAbove(js[1..], k)
    requires js[1..][..n] == UpTo(js[1..], k) && js[1..][n..] == After(js[1..], k)
    ensures js[..FirstAbove(js, k)] == UpTo(js, k) && js[FirstAbove(js, k)..] == After(js, k)
  {
    assert FirstAbove(js, k) == n + 1;
    assert js[..n + 1] == [js[0]] + js[1..][..n];
    assert js[n + 1..] == js[1..][n..];
  }

  function Record(w: Window, e: Entry): Window {
    if |w.journal| >= MAX_JOURNAL then
      w.(overflow := true, droppedMax := if e.perSeq > w.droppedMax then e.perSeq else w.droppedMax)
    else
      w.(journal := w.journal + [e])
  }

  // ---- deltas -------------------------------------------------------------

  datatype Checked = Checked(trk: Track, accepted: bool, findings: seq<Finding>)

  function CheckSeq(t: Track, got: u32, epoch: nat): Checked {
    if !t.lastSeqSet then
      Checked(Track(got, true, t.gapped, false, epoch), true, [])
    else if t.sawSnapshot && got == 1 && t.lastSeq > 1 then
      Checked(t.(sawSnapshot := false, gapped := true), false, [Finding(NoSnapshotReset, Violation, NoReason)])
    else if got == Next32(t.lastSeq) then
      Checked(Track(got, true, t.gapped, false, epoch), true, [])
    else if got > Next32(t.lastSeq) then
      Checked(Track(got, true, true, false, epoch), true,
              [if t.captureEpoch != epoch then Finding(Density, Unverifiable, CaptureLoss)
               else Finding(Density, Violation, NoReason)])
    else
      Checked(t.(sawSnapshot := false), false, [])
  }

  function OnDelta(s: Instr, perSeq: u32, op: Op, epoch: nat): Instr {
    var c := CheckSeq(s.trk, perSeq, epoch);
    if op.Malformed() then s.(trk := c.trk.(gapped := true))
    else if !c.accepted then s.(trk := c.trk)
    else Instr(Apply(s.levels, op), s.ready, c.trk, Record(s.win, Entry(perSeq, op)))
  }

  function DeltaFindings(s: Instr, perSeq: u32, op: Op, epoch: nat): seq<Finding> {
    (if op.Malformed() then [Finding(AbsoluteApply, Violation, NoReason)] else [])
    + CheckSeq(s.trk, perSeq, epoch).findings
  }

  /** Discards the level state and the window; the sequence number itself stays. */
  function OnInstrumentReset(s: Instr): Instr {
    Instr(map[], false, Track(s.trk.lastSeq, false, false, false, s.trk.captureEpoch),
          Window(map[], s.win.baseK, false, [], false, 0))
  }

  // ---- snapshot groups ----------------------------------------------------

  function Verdict(s: Instr, g: Group): Finding {
    if s.trk.gapped then Finding(Reconstruction, Unverifiable, Loss)
    else if s.win.overflow then Finding(Reconstruction, Unverifiable, Overflow)
    else if !s.win.baseSet then Finding(Reconstruction, Unverifiable, ColdStart)
    else if g.lastK < s.win.baseK then Finding(Reconstruction, Unverifiable, Reordered)
    else if !s.trk.lastSeqSet || g.lastK > s.trk.lastSeq then Finding(Reconstruction, Unverifiable, Pending)
    else if StateAsOf(s.win, g.lastK) != g.levels then Finding(Reconstruction, Violation, NoReason)
    else Finding(Reconstruction, Pass, NoReason)
  }

  function Rebase(w: Window, g: Group): Window {
    Window(g.levels, g.lastK, true, After(w.journal, g.lastK), w.droppedMax > g.lastK,
           if w.droppedMax > g.lastK then w.droppedMax else 0)
  }

  function Resume(t: Track, k: u32): Track {
    Track(if k > t.lastSeq then k else t.lastSeq, t.lastSeqSet || k > t.lastSeq, false, true, t.captureEpoch)
  }

  function Adopt(s: Instr, g: Group): Instr {
    var w := Rebase(s.win, g);
    Instr(StateAsOf(w, U32_MAX), true, Resume(s.trk, g.lastK), w)
  }

  // ---- runs ---------------------------------------------------------------

  datatype Event =
    | DeltaEvent(perSeq: u32, op: Op, epoch: nat)
    | GroupEvent(g: Group)
    | ResetEvent

  function Step(s: Instr, e: Event): Instr {
    match e
    case DeltaEvent(perSeq, op, epoch) => OnDelta(s, perSeq, op, epoch)
    case GroupEvent(g) => Adopt(s, g)
    case ResetEvent => OnInstrumentReset(s)
  }

  function Run(s: Instr, es: seq<Event>): Instr {
    if es == [] then s else Step(Run(s, es[..|es| - 1]), es[|es| - 1])
  }

  predicate BeforeWrap(s: Instr) {
    s.trk.lastSeqSet ==> s.trk.lastSeq < U32_MAX
  }

  /** The journal is bounded, in sequence order and not past the tracker. */
  predicate Ordered(t: Track, w: Window) {
    && |w.journal| <= MAX_JOURNAL
    && Increasing(w.journal)
    && (forall e :: e in w.journal ==> e.perSeq <= t.lastSeq)
    && (!t.lastSeqSet ==> w.journal == [])
    && (!w.overflow ==> w.droppedMax == 0)
    && (w.droppedMax > 0 ==> t.lastSeqSet && w.droppedMax <= t.lastSeq)
  }

  /** While nothing was dropped, the live ladder is the baseline plus the whole
      journal. */
  predicate Refines(levels: Ladder, w: Window) {
    !w.overflow ==> levels == Replay(w.base, Ops(w.journal))
  }

  predicate JournalInv(s: Instr) {
    Ordered(s.trk, s.win) && Refines(s.levels, s.win)
  }

  lemma AppendOps(js: seq<Entry>, e: Entry)
    ensures Ops(js + [e]) == Ops(js) + [e.op]
  {
  }

  lemma ReplayOne(base: Ladder, ops: seq<Op>, op: Op)
    ensures Replay(base, ops + [op]) == Apply(Replay(base, ops), op)
  {
    assert (ops + [op])[..|ops + [op]| - 1] == ops;
  }

  lemma {:induction false} ReplayedNext(base: Ladder, js: seq<Entry>, i: nat)
    requires i < |js|
    ensures Replay(base, Ops(js[..i + 1])) == Apply(Replay(base, Ops(js[..i])), js[i].op)
  {
    assert js[..i + 1] == js[..i] + [js[i]];
    AppendOps(js[..i], js[i]);
    ReplayOne(base, Ops(js[..i]), js[i].op);
  }

  lemma {:induction false} AfterHas(js: seq<Entry>, k: int, e: Entry)
    ensures e in After(js, k) <==> e in js && e.perSeq > k
  {
    if js != [] {
      AfterHas(js[1..], k, e);
      assert e in js <==> e == js[0] || e in js[1..];
    }
  }

  lemma OrderedAfterCheck(t: Track, w: Window, got: u32, epoch: nat)
    requires Ordered(t, w) && (t.lastSeqSet ==> t.lastSeq < U32_MAX)
    ensures var c := CheckSeq(t, got, epoch);
            && Ordered(c.trk, w)
            && (c.accepted ==>
                  c.trk.lastSeqSet && c.trk.lastSeq == got && forall e :: e in w.journal ==> e.perSeq < got)
  {
  }

  lemma OrderedAfterRecord(t: Track, w: Window, e: Entry)
    requires Ordered(t, w) && t.lastSeqSet && t.lastSeq == e.perSeq
    requires forall x :: x in w.journal ==> x.perSeq < e.perSeq
    ensures Ordered(t, Record(w, e))
  {
    var js := w.journal + [e];
    forall i, j | 0 <= i < j < |js| ensures js[i].perSeq < js[j].perSeq {
      assert js[i] == w.journal[i] && w.journal[i] in w.journal;
    }
  }

  lemma RefinesAfterRecord(levels: Ladder, w: Window, perSeq: u32, op: Op)
    requires Refines(levels, w)
    ensures Refines(Apply(levels, op), Record(w, Entry(perSeq, op)))
  {
    AppendOps(w.journal, Entry(perSeq, op));
    ReplayOne(w.base, Ops(w.journal), op);
  }

  lemma OrderedAfterRebase(t: Track, w: Window, g: Group)
    requires Ordered(t, w)
    ensures Ordered(Resume(t, g.lastK), Rebase(w, g))
  {
    var js := After(w.journal, g.lastK);
    AfterIsIncreasing(w.journal, g.lastK);
    forall e | e in js ensures e.perSeq <= t.lastSeq { AfterHas(w.journal, g.lastK, e); }
  }

  lemma AfterIsIncreasing(js: seq<Entry>, k: int)
    requires Increasing(js)
    ensures Increasing(After(js, k)) && |After(js, k)| <= |js|
  {
    var n := FirstAbove(js, k);
    StoppingEarlyIsFiltering(js, k);
    forall i, j | 0 <= i < j < |js[n..]| ensures js[n..][i].perSeq < js[n..][j].perSeq {
      assert js[n..][i] == js[n + i] && js[n..][j] == js[n + j];
    }
  }

  lemma RefinesWhole(w: Window)
    ensures StateAsOf(w, U32_MAX) == Replay(w.base, Ops(w.journal))
  {
    assert w.journal[..FirstAbove(w.journal, U32_MAX)] == w.journal;
  }

  lemma JournalInvStep(s: Instr, e: Event)
    requires JournalInv(s) && BeforeWrap(s)
    ensures JournalInv(Step(s, e))
  {
    match e
    case DeltaEvent(perSeq, op, epoch) =>
      var c := CheckSeq(s.trk, perSeq, epoch);
      OrderedAfterCheck(s.trk, s.win, perSeq, epoch);
      if c.accepted && !op.Malformed() {
        OrderedAfterRecord(c.trk, s.win, Entry(perSeq, op));
        RefinesAfterRecord(s.levels, s.win, perSeq, op);
      }
    case GroupEvent(g) =>
      OrderedAfterRebase(s.trk, s.win, g);
      RefinesWhole(Rebase(s.win, g));
    case ResetEvent =>
  }

  /** In every state a run reaches before the sequence wraps, the journal is
      bounded and ordered and refines the live ladder. */
  lemma {:induction false} JournalRefinesLadder(s: Instr, es: seq<Event>)
    requires JournalInv(s)
    requires forall n :: 0 <= n < |es| ==> BeforeWrap(Run(s, es[..n]))
    ensures JournalInv(Run(s, es))
  {
    if es != [] {
      var n := |es| - 1;
      forall i | 0 <= i < n ensures BeforeWrap(Run(s, es[..n][..i])) { assert es[..n][..i] == es[..i]; }
      JournalRefinesLadder(s, es[..n]);
      JournalInvStep(Run(s, es[..n]), es[n]);
    }
  }

  /** At the wrap the order is lost: sequence 0 reads as dense after 2^32-1 and
      is journalled behind it. */
  lemma WrapBreaksJournalOrder(s: Instr, op: Op, epoch: nat)
    requires JournalInv(s) && s.trk.lastSeqSet && s.trk.lastSeq == U32_MAX
    requires 0 < |s.win.journal| < MAX_JOURNAL && !op.Malformed()
    ensures CheckSeq(s.trk, 0, epoch).accepted
    ensures !Increasing(OnDelta(s, 0, op, epoch).win.journal)
  {
    var js := OnDelta(s, 0, op, epoch).win.journal;
    assert js[0].perSeq >= js[|s.win.journal|].perSeq;
  }

  // ---- what the bound discards --------------------------------------------

  /** The delta this event made the bound discard, if any. */
  function DroppedBy(s: Instr, e: Event): set<u32> {
    if e.DeltaEvent? && !e.op.Malformed() && CheckSeq(s.trk, e.perSeq, e.epoch).accepted
       && |s.win.journal| >= MAX_JOURNAL
    then {e.perSeq} else {}
  }

  /** Everything discarded since the last InstrumentReset. */
  function Dropped(s: Instr, es: seq<Event>): set<u32> {
    if es == [] then {}
    else if es[|es| - 1].ResetEvent? then {}
    else Dropped(s, es[..|es| - 1]) + DroppedBy(Run(s, es[..|es| - 1]), es[|es| - 1])
  }

  /** Adopted groups never step behind the baseline. */
  predicate AdoptsForward(s: Instr, es: seq<Event>) {
    forall n :: 0 <= n < |es| && es[n].GroupEvent? && Run(s, es[..n]).win.baseSet ==>
                  Run(s, es[..n]).win.baseK <= es[n].g.lastK
  }

  predicate Subsumed(w: Window, d: u32) {
    (w.overflow && d <= w.droppedMax) || (w.baseSet && d <= w.baseK)
  }

  lemma SubsumedStep(s: Instr, e: Event, d: u32)
    requires !e.ResetEvent?
    requires e.GroupEvent? && s.win.baseSet ==> s.win.baseK <= e.g.lastK
    requires Subsumed(s.win, d) || d in DroppedBy(s, e)
    ensures Subsumed(Step(s, e).win, d)
  {
  }

  /** Overflow clears only over a baseline that subsumes every discarded delta:
      whatever lies above the baseline is still marked. */
  lemma {:induction false} OverflowClearsOnlyWhenSubsumed(es: seq<Event>, epoch: nat, d: u32)
    requires AdoptsForward(Fresh(epoch), es)
    requires d in Dropped(Fresh(epoch), es)
    ensures Subsumed(Run(Fresh(epoch), es).win, d)
  {
    var n := |es| - 1;
    assert forall i :: 0 <= i < n ==> es[..n][..i] == es[..i];
    assert forall i :: 0 <= i < n ==> es[..n][i] == es[i];
    if d in Dropped(Fresh(epoch), es[..n]) {
      OverflowClearsOnlyWhenSubsumed(es[..n], epoch, d);
    }
    SubsumedStep(Run(Fresh(epoch), es[..n]), es[n], d);
  }

  // ---- the density verdict ------------------------------------------------

  /** A forward gap is excused exactly when the capture admitted a drop after
      the delta that last advanced this instrument; either way that admission
      is spent, so a second gap under it is the publisher's. */
  lemma ExcuseIsSpentOnce(t: Track, first: u32, second: u32, epoch: nat)
    requires t.lastSeqSet && t.lastSeq < U32_MAX && first < U32_MAX
    requires first > t.lastSeq + 1 && second > first + 1
    ensures var c := CheckSeq(t, first, epoch);
            && c.findings == [if t.captureEpoch != epoch then Finding(Density, Unverifiable, CaptureLoss)
                              else Finding(Density, Violation, NoReason)]
            && CheckSeq(c.trk, second, epoch).findings == [Finding(Density, Violation, NoReason)]
  {
  }

  // ---- the tracker as the consumer holds it -------------------------------

  class Tracker {
    var book: Book
    var lastSeq: u32
    var lastSeqSet: bool
    var ready: bool
    var gapped: bool
    var sawSnapshot: bool
    var captureEpoch: nat
    var base: Ladder
    var baseK: u32
    var baseSet: bool
    var journal: seq<Entry>
    var overflow: bool
    var droppedMax: u32

    ghost function Trk(): Track
      reads this
    {
      Track(lastSeq, lastSeqSet, gapped, sawSnapshot, captureEpoch)
    }

    ghost function Win(): Window
      reads this
    {
      Window(base, baseK, baseSet, journal, overflow, droppedMax)
    }

    ghost function View(): Instr
      reads this, book
    {
      Instr(book.levels, ready, Trk(), Win())
    }

    constructor (epoch: nat)
      ensures View() == Fresh(epoch) && fresh(book)
    {
      book := new Book();
      lastSeq, lastSeqSet, ready, gapped, sawSnapshot := 0, false, false, false, false;
      captureEpoch := epoch;
      base, baseK, baseSet, journal := map[], 0, false, [];
      overflow, droppedMax := false, 0;
    }

    method ReplayTo(k: u32) returns (r: Ladder)
      ensures r == StateAsOf(Win(), k)
    {
      var b := new Book();
      b.levels := base;
      var i := 0;
      while i < |journal|
        invariant 0 <= i <= FirstAbove(journal, k)
        invariant fresh(b)
        invariant b.levels == Replay(base, Ops(journal[..i]))
      {
        var e := journal[i];
        if e.perSeq > k {
          break;
        }
        ReplayedNext(base, journal, i);
        match e.op {
          case BookClear(side, scope, from) => b.ApplyBookClear(side, scope, from);
          case LevelUpdate(key, qty) => b.ApplyLevelUpdate(key.side, key.price, qty);
        }
        i := i + 1;
      }
      return b.levels;
    }

    method Journal(e: Entry)
      modifies this`journal, this`overflow, this`droppedMax
      ensures Win() == Record(old(Win()), e)
    {
      if |journal| >= MAX_JOURNAL {
        overflow := true;
        if e.perSeq > droppedMax {
          droppedMax := e.perSeq;
        }
        return;
      }
      journal := journal + [e];
    }

    method Sequence(got: u32, epoch: nat) returns (accepted: bool, findings: seq<Finding>)
      modifies this`lastSeq, this`lastSeqSet, this`gapped, this`sawSnapshot, this`captureEpoch
      ensures Checked(Trk(), accepted, findings) == CheckSeq(old(Trk()), got, epoch)
    {
      var saw := sawSnapshot;
      sawSnapshot := false;
      if !lastSeqSet {
        lastSeq, lastSeqSet, captureEpoch := got, true, epoch;
        return true, [];
      }
      if saw && got == 1 && lastSeq > 1 {
        gapped := true;
        return false, [Finding(NoSnapshotReset, Violation, NoReason)];
      }
      if got == Next32(lastSeq) {
        lastSeq, captureEpoch := got, epoch;
        return true, [];
      } else if got > Next32(lastSeq) {
        if captureEpoch != epoch {
          captureEpoch := epoch;
          findings := [Finding(Density, Unverifiable, CaptureLoss)];
        } else {
          findings := [Finding(Density, Violation, NoReason)];
        }
        gapped, lastSeq := true, got;
        return true, findings;
      }
      return false, [];
    }

    method Delta(perSeq: u32, op: Op, epoch: nat) returns (findings: seq<Finding>)
      modifies this, book
      ensures View() == OnDelta(old(View()), perSeq, op, epoch)
      ensures findings == DeltaFindings(old(View()), perSeq, op, epoch)
      ensures book == old(book)
    {
      if op.Malformed() {
        var _, fs := Sequence(perSeq, epoch);
        gapped := true;
        return [Finding(AbsoluteApply, Violation, NoReason)] + fs;
      }
      var accepted;
      accepted, findings := Sequence(perSeq, epoch);
      if !accepted {
        return;
      }
      match op {
        case BookClear(side, scope, from) => book.ApplyBookClear(side, scope, from);
        case LevelUpdate(key, qty) => book.ApplyLevelUpdate(key.side, key.price, qty);
      }
      Journal(Entry(perSeq, op));
    }

    method ClearWindow()
      modifies this`base, this`baseSet, this`journal, this`overflow, this`droppedMax
      ensures Win() == Window(map[], baseK, false, [], false, 0)
    {
      base, baseSet, journal := map[], false, [];
      overflow, droppedMax := false, 0;
    }

    method InstrumentReset()
      modifies this
      ensures View() == OnInstrumentReset(old(View())) && fresh(book)
    {
      book := new Book();
      ready, gapped, lastSeqSet, sawSnapshot := false, false, false, false;
      ClearWindow();
    }

    /** Compares a group with the ladder replayed to the group's own sequence
        number. */
    method Judge(g: Group) returns (finding: Finding)
      ensures finding == Verdict(View(), g)
    {
      if gapped {
        return Finding(Reconstruction, Unverifiable, Loss);
      } else if overflow {
        return Finding(Reconstruction, Unverifiable, Overflow);
      } else if !baseSet {
        return Finding(Reconstruction, Unverifiable, ColdStart);
      } else if g.lastK < baseK {
        return Finding(Reconstruction, Unverifiable, Reordered);
      } else if !lastSeqSet || g.lastK > lastSeq {
        return Finding(Reconstruction, Unverifiable, Pending);
      }
      var mine := ReplayTo(g.lastK);
      var diffs := DiffLevels(mine, g.levels);
      finding := Finding(Reconstruction, if |diffs| > 0 then Violation else Pass, NoReason);
    }

    /** The journal's entries past `k`. */
    method EntriesAfter(k: u32) returns (kept: seq<Entry>)
      ensures kept == After(journal, k)
    {
      kept := [];
      var i := 0;
      while i < |journal|
        invariant 0 <= i <= |journal|
        invariant kept + After(journal[i..], k) == After(journal, k)
      {
        AfterNext(journal, i, k);
        if journal[i].perSeq > k {
          kept := kept + [journal[i]];
        }
        i := i + 1;
      }
    }

    method AdoptBaseline(g: Group)
      modifies this`base, this`baseK, this`baseSet, this`journal, this`overflow, this`droppedMax
      ensures Win() == Rebase(old(Win()), g)
    {
      base, baseK, baseSet := g.levels, g.lastK, true;
      journal := EntriesAfter(g.lastK);
      overflow := droppedMax > g.lastK;
      if !overflow {
        droppedMax := 0;
      }
    }

    method FinishGroup(g: Group) returns (finding: Finding)
      modifies this, book
      ensures finding == Verdict(old(View()), g)
      ensures View() == Adopt(old(View()), g)
      ensures book == old(book)
    {
      finding := Judge(g);
      TakeOver(g);
    }

    /** The group becomes the baseline, and what is past it is replayed over it. */
    method TakeOver(g: Group)
      modifies this, book
      ensures View() == Adopt(old(View()), g) && book == old(book)
    {
      AdoptBaseline(g);
      var whole := ReplayTo(U32_MAX);
      book.levels := whole;
      Renumber(g.lastK);
    }

    method Renumber(k: u32)
      modifies this`ready, this`gapped, this`sawSnapshot, this`lastSeq, this`lastSeqSet
      ensures ready && Trk() == Resume(old(Trk()), k)
    {
      ready, gapped, sawSnapshot := true, false, true;
      if k > lastSeq {
        lastSeq, lastSeqSet := k, true;
      }
    }
  }
}
