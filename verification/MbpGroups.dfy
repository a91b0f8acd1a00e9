/** Snapshot-group structure on one market-by-price channel (`engine/mbp.go`):
    the group in flight on the snapshot port, the gate that decides whether loss
    can explain an anomaly, and the grading of a finished group. */
module MbpGroups {
  import opened Core
  import opened MbpBook

  datatype Msg =
    | Begin(instr: u32, snapId: u32, anchor: u64, total: u32, lastK: u32)
    | Level(snapId: u32, key: LevelKey, qty: u64)
    | End(instr: u32, anchor: u64, snapId: u32)

  /** What a GROUP_STRUCTURE finding is about. */
  datatype Defect =
    | Interleaved | OrphanLevel | OrphanEnd | LevelOfOtherGroup | ZeroQuantity
    | EndInstrument | EndAnchor | EndSnapshotId | LevelCount | RepeatedKey | WellFormedGroup

  datatype Finding = Finding(defect: Defect, status: Status, reason: Reason)

  /** The levels collected so far, and what they showed before the first gap. */
  datatype Tally = Tally(levels: Ladder, count: nat, dupKeys: nat, dirty: bool, cleanCount: nat, cleanDupKeys: nat)

  datatype Open = Open(instr: u32, snapId: u32, anchor: u64, total: u32, lastK: u32, tally: Tally)

  /** `lastSeq` and `dirtyWindow` are the snapshot port's own sequence tracking. */
  datatype Con = Con(open: Option<Open>, sawBegin: bool, dirtyWindow: bool, lastSeq: Option<u64>)

  const START := Con(None, false, false, None)

  datatype Completed = Completed(instr: u32, lastK: u32, levels: Ladder)

  datatype Outcome = Outcome(c: Con, findings: seq<Finding>, done: Option<Completed>)

  // ---- the gate -----------------------------------------------------------

  function GroupStatus(c: Con, open: Option<Open>): Status {
    if open.Some? && open.value.tally.dirty then Unverifiable
    else if c.dirtyWindow then Unverifiable
    else Violation
  }

  function ReasonOf(st: Status): Reason {
    if st == Unverifiable then Loss else NoReason
  }

  function Graded(d: Defect, st: Status): Finding {
    Finding(d, st, ReasonOf(st))
  }

  function OrphanFinding(c: Con, d: Defect): Finding {
    if !c.sawBegin then Finding(d, Unverifiable, ColdStart) else Graded(d, GroupStatus(c, None))
  }

  // ---- one frame ----------------------------------------------------------

  function Soil(t: Tally): Tally {
    if t.dirty then t else t.(dirty := true, cleanCount := t.count, cleanDupKeys := t.dupKeys)
  }

  /** Sequence tracking and the intra-group gap check that open a frame. */
  function OpenFrame(c: Con, seqNo: u64): Con {
    var gap := c.lastSeq.Some? && seqNo > c.lastSeq.value + 1;
    Con(if gap && c.open.Some? then Some(c.open.value.(tally := Soil(c.open.value.tally))) else c.open,
        c.sawBegin,
        c.dirtyWindow || gap,
        if c.lastSeq.Some? && seqNo <= c.lastSeq.value then c.lastSeq else Some(seqNo))
  }

  function OnBegin(c: Con, m: Msg): Outcome
    requires m.Begin?
  {
    var fs := if c.open.Some? && c.open.value.instr != m.instr
              then [Graded(Interleaved, GroupStatus(c, c.open))] else [];
    Outcome(c.(sawBegin := true,
               open := Some(Open(m.instr, m.snapId, m.anchor, m.total, m.lastK,
                                 Tally(map[], 0, 0, false, 0, 0)))),
            fs, None)
  }

  function Collect(t: Tally, key: LevelKey, qty: u64): Tally {
    t.(levels := t.levels[key := qty], count := t.count + 1,
       dupKeys := if key in t.levels then t.dupKeys + 1 else t.dupKeys)
  }

  function OnLevel(c: Con, m: Msg): Outcome
    requires m.Level?
  {
    if c.open.None? then Outcome(c, [OrphanFinding(c, OrphanLevel)], None)
    else if m.snapId != c.open.value.snapId then
      Outcome(c, [Graded(LevelOfOtherGroup, GroupStatus(c, c.open))], None)
    else
      Outcome(c.(open := Some(c.open.value.(tally := Collect(c.open.value.tally, m.key, m.qty)))),
              if m.qty == 0 then [Finding(ZeroQuantity, Violation, NoReason)] else [], None)
  }

  /** The one shape in which loss can have added the next group's levels. */
  predicate MergeShape(o: Open, m: Msg)
    requires m.End?
  {
    o.tally.dirty && m.instr != o.instr && m.snapId == o.snapId
  }

  function AddIf(fs: seq<Finding>, cond: bool, f: Finding): seq<Finding> {
    if cond then fs + [f] else fs
  }

  function OverStatus(o: Open, m: Msg, gated: Status): Status
    requires m.End?
  {
    if MergeShape(o, m) && o.tally.cleanCount <= o.total then gated else Violation
  }

  function DupStatus(o: Open, m: Msg, gated: Status): Status
    requires m.End?
  {
    if MergeShape(o, m) && o.tally.cleanDupKeys == 0 then gated else Violation
  }

  function FieldFindings(o: Open, m: Msg, gated: Status): seq<Finding>
    requires m.End?
  {
    AddIf(AddIf(AddIf([],
      m.instr != o.instr, Graded(EndInstrument, gated)),
      m.anchor != o.anchor, Graded(EndAnchor, gated)),
      m.snapId != o.snapId, Graded(EndSnapshotId, gated))
  }

  function EndFindings(o: Open, m: Msg, gated: Status): seq<Finding>
    requires m.End?
  {
    AddIf(AddIf(FieldFindings(o, m, gated),
      o.tally.count != o.total,
      Graded(LevelCount, if o.tally.count < o.total then gated else OverStatus(o, m, gated))),
      o.tally.dupKeys > 0, Graded(RepeatedKey, DupStatus(o, m, gated)))
  }

  function OnEnd(c: Con, m: Msg): Outcome
    requires m.End?
  {
    if c.open.None? then Outcome(c, [OrphanFinding(c, OrphanEnd)], None)
    else
      var o := c.open.value;
      var fs := EndFindings(o, m, GroupStatus(c, c.open));
      if fs != [] then Outcome(c.(open := None), fs, None)
      else Outcome(c.(open := None), [Finding(WellFormedGroup, Pass, NoReason)],
                   Some(Completed(o.instr, o.lastK, o.tally.levels)))
  }

  function OnMsg(c: Con, m: Msg): Outcome {
    match m
    case Begin(_, _, _, _, _) => OnBegin(c, m)
    case Level(_, _, _) => OnLevel(c, m)
    case End(_, _, _) => OnEnd(c, m)
  }

  function OnMsgs(c: Con, ms: seq<Msg>): Con {
    if ms == [] then c else OnMsg(OnMsgs(c, ms[..|ms| - 1]), ms[|ms| - 1]).c
  }

  function MsgsFindings(c: Con, ms: seq<Msg>): seq<Finding> {
    if ms == [] then []
    else MsgsFindings(c, ms[..|ms| - 1]) + OnMsg(OnMsgs(c, ms[..|ms| - 1]), ms[|ms| - 1]).findings
  }

  function MsgsDone(c: Con, ms: seq<Msg>): seq<Completed> {
    if ms == [] then []
    else
      var d := OnMsg(OnMsgs(c, ms[..|ms| - 1]), ms[|ms| - 1]).done;
      MsgsDone(c, ms[..|ms| - 1]) + (if d.Some? then [d.value] else [])
  }

  // ---- the checker as the consumer holds it -------------------------------

  class Checker {
    var open: Option<Open>
    var sawBegin: bool
    var dirtyWindow: bool
    var lastSeq: Option<u64>

    ghost function View(): Con
      reads this
    {
      Con(open, sawBegin, dirtyWindow, lastSeq)
    }

    constructor ()
      ensures View() == START
    {
      open, sawBegin, dirtyWindow, lastSeq := None, false, false, None;
    }

    method Status(o: Option<Open>) returns (st: Status)
      ensures st == GroupStatus(View(), o)
    {
      if o.Some? && o.value.tally.dirty {
        return Unverifiable;
      }
      if dirtyWindow {
        return Unverifiable;
      }
      return Violation;
    }

    method Orphan(d: Defect) returns (f: Finding)
      ensures f == OrphanFinding(View(), d)
    {
      if !sawBegin {
        return Finding(d, Unverifiable, ColdStart);
      }
      var st := Status(None);
      return Finding(d, st, ReasonOf(st));
    }

    method Track(seqNo: u64)
      modifies this
      ensures View() == OpenFrame(old(View()), seqNo)
    {
      var gap := false;
      if lastSeq.Some? {
        var last := lastSeq.value;
        if seqNo > last && seqNo - last > 1 {
          gap := true;
        }
      }
      if gap {
        dirtyWindow := true;
        if open.Some? && !open.value.tally.dirty {
          var t := open.value.tally;
          open := Some(open.value.(tally := t.(dirty := true, cleanCount := t.count, cleanDupKeys := t.dupKeys)));
        }
      }
      if lastSeq.None? || seqNo > lastSeq.value {
        lastSeq := Some(seqNo);
      }
    }

    method TakeBegin(m: Msg) returns (findings: seq<Finding>)
      requires m.Begin?
      modifies this
      ensures Outcome(View(), findings, None) == OnBegin(old(View()), m)
    {
      findings := [];
      if open.Some? && open.value.instr != m.instr {
        var st := Status(open);
        findings := [Finding(Interleaved, st, ReasonOf(st))];
      }
      sawBegin := true;
      open := Some(Open(m.instr, m.snapId, m.anchor, m.total, m.lastK, Tally(map[], 0, 0, false, 0, 0)));
    }

    method TakeLevel(m: Msg) returns (findings: seq<Finding>)
      requires m.Level?
      modifies this
      ensures Outcome(View(), findings, None) == OnLevel(old(View()), m)
    {
      findings := [];
      if open.None? {
        var f := Orphan(OrphanLevel);
        return [f];
      }
      if m.snapId != open.value.snapId {
        var st := Status(open);
        return [Finding(LevelOfOtherGroup, st, ReasonOf(st))];
      }
      if m.qty == 0 {
        findings := [Finding(ZeroQuantity, Violation, NoReason)];
      }
      var t := open.value.tally;
      if m.key in t.levels {
        t := t.(dupKeys := t.dupKeys + 1);
      }
      open := Some(open.value.(tally := t.(levels := t.levels[m.key := m.qty], count := t.count + 1)));
    }

    static method GradeEnd(o: Open, m: Msg, gated: Status) returns (findings: seq<Finding>)
      requires m.End?
      ensures findings == EndFindings(o, m, gated)
    {
      var merge := o.tally.dirty && m.instr != o.instr && m.snapId == o.snapId;
      var over, dup := Violation, Violation;
      if merge && o.tally.cleanCount <= o.total {
        over := gated;
      }
      if merge && o.tally.cleanDupKeys == 0 {
        dup := gated;
      }
      findings := [];
      if m.instr != o.instr {
        findings := findings + [Graded(EndInstrument, gated)];
      }
      if m.anchor != o.anchor {
        findings := findings + [Graded(EndAnchor, gated)];
      }
      if m.snapId != o.snapId {
        findings := findings + [Graded(EndSnapshotId, gated)];
      }
      assert findings == FieldFindings(o, m, gated);
      if o.tally.count != o.total {
        var st := over;
        if o.tally.count < o.total {
          st := gated;
        }
        findings := findings + [Graded(LevelCount, st)];
      }
      if o.tally.dupKeys > 0 {
        findings := findings + [Graded(RepeatedKey, dup)];
      }
    }

    method TakeEnd(m: Msg) returns (findings: seq<Finding>, done: Option<Completed>)
      requires m.End?
      modifies this
      ensures Outcome(View(), findings, done) == OnEnd(old(View()), m)
    {
      if open.None? {
        var f := Orphan(OrphanEnd);
        return [f], None;
      }
      var o := open.value;
      var gated := Status(open);
      open := None;
      findings := GradeEnd(o, m, gated);
      if findings != [] {
        return findings, None;
      }
      return [Finding(WellFormedGroup, Pass, NoReason)], Some(Completed(o.instr, o.lastK, o.tally.levels));
    }

    method Frame(seqNo: u64, ms: seq<Msg>) returns (findings: seq<Finding>, done: seq<Completed>)
      modifies this
      ensures View() == OnMsgs(OpenFrame(old(View()), seqNo), ms)
      ensures findings == MsgsFindings(OpenFrame(old(View()), seqNo), ms)
      ensures done == MsgsDone(OpenFrame(old(View()), seqNo), ms)
    {
      Track(seqNo);
      ghost var c0 := View();
      findings, done := [], [];
      var i := 0;
      while i < |ms|
        invariant 0 <= i <= |ms|
        invariant View() == OnMsgs(c0, ms[..i])
        invariant findings == MsgsFindings(c0, ms[..i])
        invariant done == MsgsDone(c0, ms[..i])
      {
        var m := ms[i];
        assert ms[..i + 1][..i] == ms[..i];
        match m {
          case Begin(_, _, _, _, _) =>
            var fs := TakeBegin(m);
            findings := findings + fs;
          case Level(_, _, _) =>
            var fs := TakeLevel(m);
            findings := findings + fs;
          case End(_, _, _) =>
            var fs, d := TakeEnd(m);
            findings := findings + fs;
            if d.Some? {
              done := done + [d.value];
            }
        }
        i := i + 1;
      }
      assert ms[..i] == ms;
    }
  }

  // ---- when a Begin and a level are charged ----------------------------------------

  predicate OnlyFinds(fs: seq<Finding>, d: Defect, st: Status, why: Reason) {
    fs == [Finding(d, st, why)]
  }

  /** A level of the open group is charged if and only if its quantity is 0, on any
      port. One of another group draws one finding, a violation if and only if neither
      the group nor the port shows a loss; one without a group likewise, once a Begin
      was seen, and is left open before that. */
  lemma LevelChargedExactly(c: Con, m: Msg)
    requires m.Level?
    ensures var fs := OnLevel(c, m).findings;
            && (c.open.Some? && m.snapId == c.open.value.snapId ==>
                  if m.qty == 0 then OnlyFinds(fs, ZeroQuantity, Violation, NoReason) else fs == [])
            && (c.open.Some? && m.snapId != c.open.value.snapId ==>
                  if c.open.value.tally.dirty || c.dirtyWindow then OnlyFinds(fs, LevelOfOtherGroup, Unverifiable, Loss)
                  else OnlyFinds(fs, LevelOfOtherGroup, Violation, NoReason))
            && (c.open.None? ==>
                  if !c.sawBegin then OnlyFinds(fs, OrphanLevel, Unverifiable, ColdStart)
                  else if c.dirtyWindow then OnlyFinds(fs, OrphanLevel, Unverifiable, Loss)
                  else OnlyFinds(fs, OrphanLevel, Violation, NoReason))
  {
  }

  /** A Begin draws a finding if and only if the group of another instrument is open,
      a violation if and only if neither that group nor the port shows a loss. */
  lemma BeginChargedExactly(c: Con, m: Msg)
    requires m.Begin?
    ensures var fs := OnBegin(c, m).findings;
            if c.open.None? || c.open.value.instr == m.instr then fs == []
            else if c.open.value.tally.dirty || c.dirtyWindow then OnlyFinds(fs, Interleaved, Unverifiable, Loss)
            else OnlyFinds(fs, Interleaved, Violation, NoReason)
  {
  }

  /** An End without a group is charged as a level without one is. */
  lemma OrphanEndChargedExactly(c: Con, m: Msg)
    requires m.End? && c.open.None?
    ensures var fs := OnEnd(c, m).findings;
            if !c.sawBegin then OnlyFinds(fs, OrphanEnd, Unverifiable, ColdStart)
            else if c.dirtyWindow then OnlyFinds(fs, OrphanEnd, Unverifiable, Loss)
            else OnlyFinds(fs, OrphanEnd, Violation, NoReason)
  {
  }
}
