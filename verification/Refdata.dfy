/** One channel's reference-data subscriber (`engine/refdata.go`): the manifest
    sequence in u16 modular order, the set collected under it, and the verdict on
    a Valid=0 summary, held until both ports have had their say. */
module Refdata {
  import opened Core

  const U16_MOD: int := 0x1_0000

  /** b is later than a, within half the circle. */
  predicate IsLaterSeq(b: u16, a: u16) {
    var d := (b - a) % U16_MOD;
    d != 0 && d < 0x8000
  }

  datatype DefInfo = DefInfo(defaultMethod: u8, priceBound: u8)

  datatype Summary = Summary(seqNo: u16, count: u32)

  datatype Frozen = Frozen(seqNo: u16, ids: set<u32>)

  datatype Held = Held(frameSeq: u64, dirty: bool)

  /** The set being collected: its number, its announced size and what came in. */
  datatype Roll = Roll(latestSeq: u16, expectedCount: u32, defs: map<u32, DefInfo>, frozen: Option<Frozen>)

  const NO_ROLL := Roll(0, 0, map[], None)

  /** `ended` says that the channel announced the end of its session. */
  datatype Chan = Chan(
    valid: bool, seqEverSet: bool, roll: Roll, prev: Option<Summary>, hadSet: bool, pending: Option<Held>, ended: bool)

  const COLD := Chan(false, false, NO_ROLL, None, false, None, false)

  datatype Rule =
    | SeqNonzero | ValidFlag | NoRegress | BumpNotByOne | CountChange | StateMachine
    | StaleTag | SetChange | CountVsDistinct

  datatype Finding = Finding(rule: Rule, status: Status, reason: Reason)

  predicate Ready(valid: bool, r: Roll) {
    valid && |r.defs| % U32_MOD == r.expectedCount
  }

  // ---- the specification ---------------------------------------------------

  predicate Incoherent(s: Chan, valid: u8, m: Summary) {
    valid == 1
    && ((m.seqNo == 0 && !(s.seqEverSet && s.roll.latestSeq == 0xFFFF))
        || (m.count == 0 && (!s.valid || IsLaterSeq(m.seqNo, s.roll.latestSeq))))
  }

  predicate Regressed(s: Chan, valid: u8, m: Summary) {
    s.seqEverSet && valid == 1 && IsLaterSeq(s.roll.latestSeq, m.seqNo)
  }

  /** Whether a Valid=0 summary takes an established set away. */
  predicate Arms(s: Chan, valid: u8) {
    valid == 0 && s.hadSet
  }

  /** What the other port shows when a held verdict falls due. */
  datatype Evidence = Evidence(mktObserved: bool, mktDirty: bool)

  function Resolve(h: Held, resumed: bool, ended: bool, at: Evidence): Finding {
    if ended then Finding(ValidFlag, Pass, NoReason)
    else if h.dirty then Finding(ValidFlag, Unverifiable, Loss)
    else if resumed then Finding(ValidFlag, Violation, NoReason)
    else if !at.mktObserved then Finding(ValidFlag, Unverifiable, BoundSubset)
    else if at.mktDirty then Finding(ValidFlag, Unverifiable, Loss)
    else Finding(ValidFlag, Violation, NoReason)
  }

  function SummaryFindings(s: Chan, valid: u8, m: Summary, dirty: bool): seq<Finding> {
    if Incoherent(s, valid, m) then [Finding(SeqNonzero, StatusFor(!dirty), NoReason)]
    else if Regressed(s, valid, m) then [Finding(NoRegress, StatusFor(!dirty), NoReason)]
    else CheckFindings(s, valid, m, dirty) + LateFindings(s, valid)
  }

  /** The rules on a coherent summary that does not regress. */
  function CheckFindings(s: Chan, valid: u8, m: Summary, dirty: bool): seq<Finding> {
    If(s.seqEverSet && valid == 1 && IsLaterSeq(m.seqNo, s.roll.latestSeq)
       && m.seqNo != (s.roll.latestSeq + 1) % U16_MOD, Finding(BumpNotByOne, StatusFor(!dirty), NoReason))
    + If(s.prev.Some? && valid == 1 && m.seqNo == s.prev.value.seqNo && m.count != s.prev.value.count,
         Finding(CountChange, StatusFor(!dirty), NoReason))
    + If(valid > 1 || (valid == 1 && m.count == 0 && s.hadSet && m.seqNo == s.roll.latestSeq),
         Finding(StateMachine, StatusFor(!dirty), NoReason))
  }

  /** The verdict on an earlier Valid=0 that a Valid=1 settles. */
  function LateFindings(s: Chan, valid: u8): seq<Finding> {
    if valid == 1 && s.pending.Some? then [Resolve(s.pending.value, true, s.ended, Evidence(true, false))] else []
  }

  function Held0(s: Chan, valid: u8, h: Held): Option<Held> {
    if Arms(s, valid) then Some(h) else s.pending
  }

  function Advanced(s: Chan, m: Summary): Roll {
    if !s.valid || IsLaterSeq(m.seqNo, s.roll.latestSeq) then Roll(m.seqNo, m.count, map[], None) else s.roll
  }

  function OnSummary(s: Chan, valid: u8, m: Summary, h: Held): Chan {
    if Incoherent(s, valid, m) || Regressed(s, valid, m) || valid > 1 then s
    else if valid == 0 then Chan(false, false, NO_ROLL, None, false, Held0(s, valid, h), s.ended)
    else Chan(true, true, Advanced(s, m), Some(m), s.hadSet, None, false)
  }

  predicate Foreign(r: Roll, id: u32, tag: u16) {
    r.frozen.Some? && r.frozen.value.seqNo == tag && id !in r.frozen.value.ids
  }

  function Collected(r: Roll, id: u32, info: DefInfo): Roll {
    var defs := r.defs[id := info];
    Roll(r.latestSeq, r.expectedCount, defs,
         if r.frozen.None? && |defs| % U32_MOD == r.expectedCount then Some(Frozen(r.latestSeq, defs.Keys))
         else r.frozen)
  }

  function OnDef(s: Chan, id: u32, tag: u16, info: DefInfo): Chan {
    if !s.valid || tag != s.roll.latestSeq then s
    else
      var r := Collected(s.roll, id, info);
      Chan(s.valid, s.seqEverSet, r, s.prev, s.hadSet || (s.roll.frozen.None? && r.frozen.Some?), s.pending, s.ended)
  }

  function DefFindings(s: Chan, id: u32, tag: u16, dirty: bool): seq<Finding> {
    if !s.valid then []
    else if tag != s.roll.latestSeq then [Finding(StaleTag, StatusFor(!dirty), NoReason)]
    else
      If(Foreign(s.roll, id, tag), Finding(SetChange, StatusFor(!dirty), NoReason))
      + If(|s.roll.defs.Keys + {id}| % U32_MOD > s.roll.expectedCount,
           Finding(CountVsDistinct, StatusFor(!dirty), NoReason))
  }

  /** A Reset Count change forgets everything but a verdict still held. */
  function OnReset(s: Chan): Chan {
    Chan(false, false, NO_ROLL, None, false, s.pending, s.ended)
  }

  // ---- the channel as the engine holds it ----------------------------------

  class ChannelState {
    var valid: bool
    var latestSeq: u16
    var expectedCount: u32
    var defs: map<u32, DefInfo>
    var seqEverSet: bool
    var prevSummary: Option<Summary>
    var setSnapshot: Option<Frozen>
    var hadNonEmptySet: bool
    var pendingValidZero: Option<Held>
    var sessionEnded: bool

    ghost function Collecting(): Roll
      reads this
    {
      Roll(latestSeq, expectedCount, defs, setSnapshot)
    }

    ghost function View(): Chan
      reads this
    {
      Chan(valid, seqEverSet, Collecting(), prevSummary, hadNonEmptySet, pendingValidZero, sessionEnded)
    }

    constructor ()
      ensures View() == COLD
    {
      valid, seqEverSet, hadNonEmptySet, sessionEnded := false, false, false, false;
      latestSeq, expectedCount, defs, setSnapshot := 0, 0, map[], None;
      prevSummary, pendingValidZero := None, None;
    }

    method Clear()
      modifies `valid, `latestSeq, `expectedCount, `defs, `seqEverSet, `prevSummary, `setSnapshot, `hadNonEmptySet
      ensures View() == OnReset(old(View()))
    {
      valid, seqEverSet, hadNonEmptySet := false, false, false;
      latestSeq, expectedCount, defs, setSnapshot := 0, 0, map[], None;
      prevSummary := None;
    }

    /** The rules on a coherent summary that does not regress, in their order. */
    method CheckSummary(isValid: u8, m: Summary, dirty: bool) returns (fs: seq<Finding>)
      ensures fs == CheckFindings(View(), isValid, m, dirty)
    {
      fs := [];
      if seqEverSet && isValid == 1 && IsLaterSeq(m.seqNo, latestSeq) {
        if m.seqNo != (latestSeq + 1) % U16_MOD {
          fs := [Finding(BumpNotByOne, StatusFor(!dirty), NoReason)];
        }
      }
      if prevSummary.Some? && isValid == 1 && m.seqNo == prevSummary.value.seqNo && m.count != prevSummary.value.count {
        fs := fs + [Finding(CountChange, StatusFor(!dirty), NoReason)];
      }
      if isValid > 1 {
        fs := fs + [Finding(StateMachine, StatusFor(!dirty), NoReason)];
      } else if isValid == 1 && m.count == 0 && hadNonEmptySet && m.seqNo == latestSeq {
        fs := fs + [Finding(StateMachine, StatusFor(!dirty), NoReason)];
      }
    }

    method OnManifestSummary(isValid: u8, m: Summary, dirty: bool, frameSeq: u64) returns (fs: seq<Finding>)
      modifies this
      ensures View() == OnSummary(old(View()), isValid, m, Held(frameSeq, dirty))
      ensures fs == SummaryFindings(old(View()), isValid, m, dirty)
    {
      var wouldAdvance := !valid || IsLaterSeq(m.seqNo, latestSeq);
      var isWrapToZero := seqEverSet && latestSeq == 0xFFFF;
      if isValid == 1 && ((m.seqNo == 0 && !isWrapToZero) || (m.count == 0 && wouldAdvance)) {
        return [Finding(SeqNonzero, StatusFor(!dirty), NoReason)];
      }
      if seqEverSet && isValid == 1 && IsLaterSeq(latestSeq, m.seqNo) {
        return [Finding(NoRegress, StatusFor(!dirty), NoReason)];
      }
      fs := CheckSummary(isValid, m, dirty);
      if isValid > 1 {
        return;
      }
      if isValid == 0 {
        if hadNonEmptySet {
          pendingValidZero := Some(Held(frameSeq, dirty));
        }
        Clear();
        return;
      }
      var late := Serve(m);
      fs := fs + late;
    }

    /** A Valid=1 summary that was accepted: settle what is held, then seed or
        advance. */
    method Serve(m: Summary) returns (fs: seq<Finding>)
      modifies this
      ensures fs == LateFindings(old(View()), 1)
      ensures View() == Chan(true, true, Advanced(old(View()), m), Some(m), old(hadNonEmptySet), None, false)
    {
      fs := [];
      if pendingValidZero.Some? {
        fs := [Resolve(pendingValidZero.value, true, sessionEnded, Evidence(true, false))];
        pendingValidZero := None;
      }
      sessionEnded := false;
      prevSummary := Some(m);
      seqEverSet := true;
      if !valid || IsLaterSeq(m.seqNo, latestSeq) {
        valid, latestSeq, expectedCount, defs, setSnapshot := true, m.seqNo, m.count, map[], None;
      }
    }

    /** Takes a definition into the set and freezes the set when it is complete. */
    method Collect(id: u32, info: DefInfo) returns (distinct: nat)
      modifies `defs, `setSnapshot, `hadNonEmptySet
      ensures Collecting() == Collected(old(Collecting()), id, info)
      ensures hadNonEmptySet == (old(hadNonEmptySet) || (old(setSnapshot).None? && setSnapshot.Some?))
      ensures distinct == |old(defs).Keys + {id}|
    {
      assert defs[id := info].Keys == defs.Keys + {id};
      defs := defs[id := info];
      distinct := |defs|;
      if setSnapshot.None? && distinct % U32_MOD == expectedCount {
        hadNonEmptySet := true;
        setSnapshot := Some(Frozen(latestSeq, defs.Keys));
      }
    }

    method OnInstrumentDef(id: u32, tag: u16, info: DefInfo, dirty: bool) returns (fs: seq<Finding>, accepted: bool)
      modifies `defs, `setSnapshot, `hadNonEmptySet
      ensures View() == OnDef(old(View()), id, tag, info)
      ensures fs == DefFindings(old(View()), id, tag, dirty)
      ensures accepted == (old(valid) && tag == old(latestSeq))
    {
      if !valid {
        return [], false;
      }
      if tag != latestSeq {
        return [Finding(StaleTag, StatusFor(!dirty), NoReason)], false;
      }
      fs := [];
      if setSnapshot.Some? && setSnapshot.value.seqNo == tag && id !in setSnapshot.value.ids {
        fs := [Finding(SetChange, StatusFor(!dirty), NoReason)];
      }
      var distinct := Collect(id, info);
      if distinct % U32_MOD > expectedCount {
        fs := fs + [Finding(CountVsDistinct, StatusFor(!dirty), NoReason)];
      }
      accepted := true;
    }

    /** At the end of the run, after both ports are drained. */
    method ResolveShutdown(at: Evidence) returns (fs: seq<Finding>)
      modifies `pendingValidZero
      ensures fs == if old(pendingValidZero).Some?
                    then [Resolve(old(pendingValidZero).value, false, sessionEnded, at)] else []
      ensures pendingValidZero == None
    {
      fs := [];
      if pendingValidZero.Some? {
        fs := [Resolve(pendingValidZero.value, false, sessionEnded, at)];
        pendingValidZero := None;
      }
    }
  }
}
