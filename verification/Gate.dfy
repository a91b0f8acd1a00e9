/** The per-instrument delta tracker of a market-by-order feed
    (`applyDeltaSeq`, `gateConsumer`, `onInstrumentReset` and the recovery
    handling of snapshot groups in `engine/gate.go`). */
module Gate {
  import opened Core
  import opened Series

  datatype Rule =
    | SnapshotFollows | RecoveryAnchor | NoDangling | FirstValue
    | Density | WrapBeforeReset | NoSnapshotReset | DupDivergent

  datatype Finding = Finding(rule: Rule, status: Status, reason: Reason)

  /** One remembered delta: its number and a digest of its body. */
  datatype Paid = Paid(perSeq: u32, digest: u64)

  const PAYLOAD_RING_CAP: nat := 16

  datatype Seqs = Seqs(last: Option<u32>, trusted: bool, dup: bool)

  datatype Recovery = Recovery(seenReset: bool, pendingAnchor: Option<u64>, k: Option<u32>, awaiting: Option<u64>)

  datatype Track = Track(seqs: Seqs, rec: Recovery, paid: seq<Paid>)

  /** What the channel's ports show when a message is judged: no forward gap and
      no corruption on either, and whether the snapshot port was seen at all. */
  datatype Sight = Sight(gapless: bool, gaplessSnap: bool, snapBound: bool)

  const COLD := Track(Seqs(None, false, false), Recovery(false, None, None, None), [])

  function AfterReset(anchor: u64): Track {
    Track(Seqs(None, false, false), Recovery(true, Some(anchor), None, Some(anchor)), [])
  }

  // ---- the specification ---------------------------------------------------

  /** The most recently recorded digest under a number. */
  function Latest(paid: seq<Paid>, perSeq: u32): Option<u64> {
    if paid == [] then None
    else if paid[|paid| - 1].perSeq == perSeq then Some(paid[|paid| - 1].digest)
    else Latest(paid[..|paid| - 1], perSeq)
  }

  function PrematureFindings(r: Recovery, at: Sight): seq<Finding> {
    if r.awaiting.None? then []
    else if !at.snapBound then [Finding(SnapshotFollows, NA, NoReason)]
    else [Finding(SnapshotFollows, StatusFor(at.gapless && at.gaplessSnap), NoReason)]
  }

  function FirstFindings(k: Option<u32>, seenReset: bool, at: Sight, perSeq: u32): seq<Finding> {
    if k.Some? then
      if perSeq == Next32(k.value) then [Finding(NoDangling, Pass, NoReason)]
      else [Finding(NoDangling, StatusFor(at.gapless), if at.gapless then NoReason else Loss)]
    else if perSeq == 1 then []
    else if !seenReset then [Finding(FirstValue, Unverifiable, ColdStart)]
    else [Finding(FirstValue, StatusFor(at.gapless), NoReason)]
  }

  function LaterFindings(resetting: bool, paid: seq<Paid>, last: u32, at: Sight, p: Paid): seq<Finding> {
    if p.perSeq == Next32(last) then
      if last == U32_MAX then [Finding(WrapBeforeReset, StatusFor(at.gapless), NoReason)] else []
    else if p.perSeq > Next32(last) then
      [Finding(Density, StatusFor(at.gapless), if at.gapless then NoReason else Loss)]
    else
      If(p.perSeq == 1 && last > 1 && !resetting, Finding(NoSnapshotReset, StatusFor(at.gapless), NoReason))
      + DivergentFindings(paid, at, p)
  }

  function DivergentFindings(paid: seq<Paid>, at: Sight, p: Paid): seq<Finding> {
    if Latest(paid, p.perSeq).Some? && Latest(paid, p.perSeq).value != p.digest
    then [Finding(DupDivergent, StatusFor(at.gapless), NoReason)] else []
  }

  function SequenceFindings(t: Track, at: Sight, p: Paid): seq<Finding> {
    match t.seqs.last
    case None => FirstFindings(t.rec.k, t.rec.seenReset, at, p.perSeq)
    case Some(last) => LaterFindings(t.rec.seenReset || t.rec.pendingAnchor.Some?, t.paid, last, at, p)
  }

  function DeltaFindings(t: Track, at: Sight, p: Paid): seq<Finding> {
    PrematureFindings(t.rec, at) + SequenceFindings(t, at, p)
  }

  function Advance(s: Seqs, k: Option<u32>, perSeq: u32): Seqs {
    match s.last
    case None => Seqs(Some(perSeq), s.trusted || (k.None? && perSeq == 1), s.dup)
    case Some(last) =>
      Seqs(Some(if perSeq > last then perSeq else last),
           s.trusted && perSeq <= Next32(last),
           s.dup || perSeq < Next32(last))
  }

  function OnDelta(t: Track, p: Paid): Track {
    Track(Advance(t.seqs, t.rec.k, p.perSeq),
          Recovery(t.rec.seenReset && t.seqs.last.Some?, t.rec.pendingAnchor, t.rec.k, None),
          TakeLast(t.paid + [p], PAYLOAD_RING_CAP))
  }

  /** A SnapshotBegin whose anchor is the reset's names the recovery point. */
  function OnSnapBegin(t: Track, anchor: u64, k: u32): Track {
    if t.rec.pendingAnchor == Some(anchor)
    then Track(t.seqs, Recovery(t.rec.seenReset, None, Some(k), t.rec.awaiting), t.paid) else t
  }

  function OnSnapEnd(t: Track): Track {
    Track(t.seqs, Recovery(t.rec.seenReset, t.rec.pendingAnchor, t.rec.k, None), t.paid)
  }

  function SnapEndFindings(t: Track, at: Sight, anchor: u64, dirty: bool): seq<Finding> {
    if t.rec.awaiting.None? then []
    else
      [Finding(SnapshotFollows, Pass, NoReason),
       if t.rec.awaiting.value == anchor then Finding(RecoveryAnchor, Pass, NoReason)
       else Finding(RecoveryAnchor, StatusFor(!dirty && at.gapless), NoReason)]
  }

  /** Whether a referential anomaly may be charged to the publisher. */
  predicate GateConsumer(s: Seqs, known: bool, gapless: bool, perSeq: u32) {
    known && s.last.Some? && s.trusted && perSeq == Next32(s.last.value) && gapless
  }

  // ---- the tracker as the engine holds it ----------------------------------

  /** The digests of the last sixteen deltas, in a fixed ring of slots. */
  class PayloadRing {
    const slots: array<Paid>
    var pos: nat
    var size: nat

    ghost predicate Valid()
      reads this, slots
    {
      slots.Length == PAYLOAD_RING_CAP && pos < PAYLOAD_RING_CAP && size <= PAYLOAD_RING_CAP
      && (size < PAYLOAD_RING_CAP ==> pos == size)
    }

    ghost function View(): seq<Paid>
      reads this, slots
      requires Valid()
    {
      if size < PAYLOAD_RING_CAP then slots[..size] else slots[pos..] + slots[..pos]
    }

    constructor ()
      ensures Valid() && View() == [] && fresh(slots)
    {
      slots := new Paid[PAYLOAD_RING_CAP](_ => Paid(0, 0));
      pos, size := 0, 0;
    }

    method Record(p: Paid)
      requires Valid()
      modifies this, slots
      ensures Valid() && View() == TakeLast(old(View()) + [p], PAYLOAD_RING_CAP)
    {
      ghost var was, all := View(), View() + [p];
      slots[pos] := p;
      pos := if pos + 1 == PAYLOAD_RING_CAP then 0 else pos + 1;
      if size < PAYLOAD_RING_CAP {
        size := size + 1;
        assert View() == all;
      } else {
        assert View() == all[1..];
      }
    }

    /** The slot i steps before the write position. */
    lemma SlotBefore(i: nat, idx: nat)
      requires Valid() && i < size
      requires idx == if pos >= i + 1 then pos - 1 - i else pos + PAYLOAD_RING_CAP - 1 - i
      ensures idx < slots.Length && |View()| == size && View()[size - 1 - i] == slots[idx]
    {
    }

    /** Newest first, as a replay is compared with the latest delta of its number. */
    method Lookup(perSeq: u32) returns (found: Option<u64>)
      requires Valid()
      ensures found == Latest(View(), perSeq)
    {
      ghost var paid := View();
      assert paid[..size] == paid;
      var i := 0;
      while i < size
        invariant i <= size == |paid|
        invariant Latest(paid, perSeq) == Latest(paid[..size - i], perSeq)
      {
        var idx := if pos >= i + 1 then pos - 1 - i else pos + PAYLOAD_RING_CAP - 1 - i;
        SlotBefore(i, idx);
        if slots[idx].perSeq == perSeq {
          return Some(slots[idx].digest);
        }
        assert paid[..size - i][..size - i - 1] == paid[..size - (i + 1)];
        i := i + 1;
      }
      return None;
    }
  }

  class Tracker {
    var lastInstrSeq: Option<u32>
    var bookTrusted: bool
    var bookCorruptedByDup: bool
    var seenReset: bool
    var pendingResetAnchor: Option<u64>
    var recoveryK: Option<u32>
    var awaitingRecovery: Option<u64>
    const payloads: PayloadRing

    ghost predicate Valid()
      reads this, payloads, payloads.slots
    {
      payloads.Valid()
    }

    ghost function Sequencing(): Seqs
      reads this
    {
      Seqs(lastInstrSeq, bookTrusted, bookCorruptedByDup)
    }

    ghost function Recovering(): Recovery
      reads this
    {
      Recovery(seenReset, pendingResetAnchor, recoveryK, awaitingRecovery)
    }

    ghost function View(): Track
      reads this, payloads, payloads.slots
      requires Valid()
    {
      Track(Sequencing(), Recovering(), payloads.View())
    }

    constructor ()
      ensures Valid() && View() == COLD && fresh(payloads) && fresh(payloads.slots)
    {
      lastInstrSeq, bookTrusted, bookCorruptedByDup := None, false, false;
      seenReset, pendingResetAnchor, recoveryK, awaitingRecovery := false, None, None, None;
      payloads := new PayloadRing();
    }

    /** An InstrumentReset replaces the tracker by one that waits for recovery. */
    constructor Reset(newAnchorSeq: u64)
      ensures Valid() && View() == AfterReset(newAnchorSeq) && fresh(payloads) && fresh(payloads.slots)
    {
      lastInstrSeq, bookTrusted, bookCorruptedByDup := None, false, false;
      seenReset, recoveryK := true, None;
      pendingResetAnchor, awaitingRecovery := Some(newAnchorSeq), Some(newAnchorSeq);
      payloads := new PayloadRing();
    }

    method Premature(at: Sight) returns (fs: seq<Finding>)
      modifies this`awaitingRecovery
      ensures fs == PrematureFindings(old(Recovering()), at) && awaitingRecovery == None
    {
      fs := [];
      if awaitingRecovery.Some? {
        var st := NA;
        if at.snapBound {
          st := Violation;
          if !at.gapless || !at.gaplessSnap {
            st := Unverifiable;
          }
        }
        fs := [Finding(SnapshotFollows, st, NoReason)];
        awaitingRecovery := None;
      }
    }

    method FirstDelta(at: Sight, perSeq: u32) returns (fs: seq<Finding>)
      requires lastInstrSeq.None?
      modifies this`lastInstrSeq, this`bookTrusted, this`seenReset
      ensures fs == FirstFindings(recoveryK, old(seenReset), at, perSeq)
      ensures Sequencing() == Advance(old(Sequencing()), recoveryK, perSeq) && !seenReset
    {
      fs := [];
      if recoveryK.Some? {
        if perSeq != Next32(recoveryK.value) {
          fs := [if at.gapless then Finding(NoDangling, Violation, NoReason)
                 else Finding(NoDangling, Unverifiable, Loss)];
        } else {
          fs := [Finding(NoDangling, Pass, NoReason)];
        }
      } else if perSeq != 1 {
        if !seenReset {
          fs := [Finding(FirstValue, Unverifiable, ColdStart)];
        } else {
          fs := [Finding(FirstValue, StatusFor(at.gapless), NoReason)];
        }
      } else {
        bookTrusted := true;
      }
      seenReset := false;
      lastInstrSeq := Some(perSeq);
    }

    method LaterDelta(at: Sight, p: Paid) returns (fs: seq<Finding>)
      requires Valid() && lastInstrSeq.Some?
      modifies this`lastInstrSeq, this`bookTrusted, this`bookCorruptedByDup
      ensures fs
           == LaterFindings(seenReset || pendingResetAnchor.Some?, payloads.View(), old(lastInstrSeq).value, at, p)
      ensures Sequencing() == Advance(old(Sequencing()), recoveryK, p.perSeq)
    {
      fs := [];
      var last := lastInstrSeq.value;
      if p.perSeq == Next32(last) {
        if last == U32_MAX {
          fs := [Finding(WrapBeforeReset, StatusFor(at.gapless), NoReason)];
        }
      } else if p.perSeq > Next32(last) {
        bookTrusted := false;
        fs := [if at.gapless then Finding(Density, Violation, NoReason) else Finding(Density, Unverifiable, Loss)];
      } else {
        if p.perSeq == 1 && last > 1 && !seenReset && pendingResetAnchor.None? {
          fs := [Finding(NoSnapshotReset, StatusFor(at.gapless), NoReason)];
        }
        var prev := payloads.Lookup(p.perSeq);
        if prev.Some? && prev.value != p.digest {
          fs := fs + [Finding(DupDivergent, StatusFor(at.gapless), NoReason)];
        }
        bookCorruptedByDup := true;
      }
      if p.perSeq > last {
        lastInstrSeq := Some(p.perSeq);
      }
    }

    method ApplyDeltaSeq(at: Sight, p: Paid) returns (fs: seq<Finding>)
      requires Valid()
      modifies this, payloads, payloads.slots
      ensures Valid() && View() == OnDelta(old(View()), p)
      ensures fs == DeltaFindings(old(View()), at, p)
    {
      var early := Premature(at);
      ghost var was := payloads.View();
      if lastInstrSeq.None? {
        fs := FirstDelta(at, p.perSeq);
      } else {
        fs := LaterDelta(at, p);
      }
      assert payloads.View() == was;
      fs := early + fs;
      payloads.Record(p);
    }

    method SnapBegin(anchor: u64, k: u32)
      requires Valid()
      modifies this`recoveryK, this`pendingResetAnchor
      ensures Valid() && View() == OnSnapBegin(old(View()), anchor, k)
    {
      if pendingResetAnchor.Some? && anchor == pendingResetAnchor.value {
        recoveryK := Some(k);
        pendingResetAnchor := None;
      }
    }

    method SnapEnd(at: Sight, anchor: u64, dirty: bool) returns (fs: seq<Finding>)
      requires Valid()
      modifies this`awaitingRecovery
      ensures Valid() && View() == OnSnapEnd(old(View()))
      ensures fs == SnapEndFindings(old(View()), at, anchor, dirty)
    {
      fs := [];
      if awaitingRecovery.Some? {
        fs := [Finding(SnapshotFollows, Pass, NoReason)];
        if anchor == awaitingRecovery.value {
          fs := fs + [Finding(RecoveryAnchor, Pass, NoReason)];
        } else {
          fs := fs + [Finding(RecoveryAnchor, StatusFor(!dirty && at.gapless), NoReason)];
        }
        awaitingRecovery := None;
      }
    }
  }
}
