/** Snapshot groups under loss (`engine/mbp.go`, `markCorrupt` in
    `engine/engine.go`): a publisher that emits well-formed groups, datagrams that
    go missing or arrive cut short, groups dropped by a reset on the other port,
    and the verdicts the consumer may then give. */
module MbpGroupsUnderLoss {
  import opened Core
  import opened MbpBook
  import opened MbpGroups

  /** The group a publisher is in the middle of, and what it has sent of it. */
  datatype Sending = Sending(instr: u32, snapId: u32, anchor: u64, total: u32, lastK: u32, sent: Ladder)

  /** `lastId` holds the latest Snapshot ID minted for each instrument. */
  datatype Publisher = Publisher(cur: Option<Sending>, lastId: map<u32, u32>)
  {
    predicate Valid() {
      cur.Some? ==>
        && cur.value.instr in lastId
        && lastId[cur.value.instr] == cur.value.snapId
        && |cur.value.sent| <= cur.value.total
    }

    /** Groups do not interleave, Snapshot IDs increase per instrument, levels
        are distinct and positive, and the End repeats the Begin. */
    predicate Emits(m: Msg) {
      match m
      case Begin(instr, snapId, _, _, _) => cur.None? && (instr in lastId ==> lastId[instr] < snapId)
      case Level(snapId, key, qty) =>
        cur.Some? && snapId == cur.value.snapId && key !in cur.value.sent && qty > 0
        && |cur.value.sent| < cur.value.total
      case End(instr, anchor, snapId) =>
        cur.Some? && instr == cur.value.instr && anchor == cur.value.anchor && snapId == cur.value.snapId
        && |cur.value.sent| == cur.value.total
    }

    function Emit(m: Msg): Publisher
      requires Emits(m)
    {
      match m
      case Begin(instr, snapId, anchor, total, lastK) =>
        Publisher(Some(Sending(instr, snapId, anchor, total, lastK, map[])), lastId[instr := snapId])
      case Level(_, key, qty) => Publisher(Some(cur.value.(sent := cur.value.sent[key := qty])), lastId)
      case End(_, _, _) => Publisher(None, lastId)
    }
  }

  predicate HasViolation(fs: seq<Finding>) {
    exists f :: f in fs && f.status == Violation
  }

  predicate Clean(o: Open) {
    o.tally.count <= o.total && o.tally.dupKeys == 0
  }

  // ---- how the open group relates to the publisher ------------------------

  predicate SameGroup(g: Sending, o: Open) {
    g.instr == o.instr && g.snapId == o.snapId && g.anchor == o.anchor && g.total == o.total && g.lastK == o.lastK
  }

  predicate PartOf(t: Tally, sent: Ladder) {
    && t.levels.Keys <= sent.Keys
    && (forall k :: k in t.levels ==> t.levels[k] == sent[k])
    && t.count == |t.levels| && t.dupKeys == 0
  }

  /** The publisher is still in the group the consumer holds open. */
  predicate InGroup(p: Publisher, o: Open) {
    p.cur.Some? && SameGroup(p.cur.value, o) && PartOf(o.tally, p.cur.value.sent)
  }

  /** The publisher finished that group while its End was lost. */
  predicate Past(p: Publisher, o: Open) {
    && o.instr in p.lastId && p.lastId[o.instr] >= o.snapId
    && (p.cur.Some? && p.cur.value.instr == o.instr ==> p.cur.value.snapId > o.snapId)
  }

  /** What holds whatever became of the datagrams. `pending` says that one was
      lost since the last that arrived, `torn` that one was cut short since the
      last Begin that arrived. A group that saw neither holds what was sent. */
  predicate Inv(p: Publisher, c: Con, pending: bool, torn: bool) {
    && p.Valid()
    && (torn ==> c.dirtyWindow)
    && (c.open.Some? ==> c.sawBegin && OpenInv(p, c.open.value, c.dirtyWindow, pending || torn))
  }

  predicate OpenInv(p: Publisher, o: Open, dirtyWindow: bool, missed: bool) {
    && (InGroup(p, o) || Past(p, o))
    && (o.tally.dirty ==> dirtyWindow)
    && (!o.tally.dirty && !missed ==> InGroup(p, o) && o.tally.levels == p.cur.value.sent)
  }

  lemma PartIsSmaller(a: Ladder, b: Ladder)
    requires a.Keys <= b.Keys
    ensures |a| <= |b|
    ensures |a| == |b| ==> a.Keys == b.Keys
  {
    var rest := b.Keys - a.Keys;
    assert a.Keys + rest == b.Keys;
    assert |a.Keys + rest| == |a.Keys| + |rest|;
    if |a| == |b| { assert rest == {}; }
  }

  lemma InGroupIsClean(p: Publisher, o: Open)
    requires p.Valid() && InGroup(p, o)
    ensures Clean(o)
  {
    PartIsSmaller(o.tally.levels, p.cur.value.sent);
  }

  // ---- one message --------------------------------------------------------

  lemma BeginStep(p: Publisher, c: Con, m: Msg, torn: bool)
    requires m.Begin? && Inv(p, c, false, torn) && p.Emits(m)
    ensures Inv(p.Emit(m), OnBegin(c, m).c, false, false)
    ensures !HasViolation(OnBegin(c, m).findings)
  {
    var o := OnBegin(c, m).c.open.value;
    assert PartOf(o.tally, map[]);
    assert c.open.Some? ==> c.dirtyWindow;
  }

  lemma LevelStep(p: Publisher, c: Con, m: Msg, torn: bool)
    requires m.Level? && Inv(p, c, false, torn) && p.Emits(m)
    ensures Inv(p.Emit(m), OnLevel(c, m).c, false, torn)
    ensures HasViolation(OnLevel(c, m).findings) <==> c.open.None? && Unexplained(c)
  {
    SentGrows(p, m);
    if c.open.Some? {
      if InGroup(p, c.open.value) {
        InGroupLevel(p, c.open.value, m);
      }
    } else {
      OrphanVerdict(c, OrphanLevel);
    }
  }

  /** A Begin was seen and nothing shows that anything is missing: an orphan is
      then laid to the publisher. */
  predicate Unexplained(c: Con) {
    c.sawBegin && !c.dirtyWindow
  }

  lemma OrphanVerdict(c: Con, d: Defect)
    ensures HasViolation([OrphanFinding(c, d)]) <==> Unexplained(c)
  {
    assert [OrphanFinding(c, d)][0] == OrphanFinding(c, d);
  }

  lemma SentGrows(p: Publisher, m: Msg)
    requires m.Level? && p.Valid() && p.Emits(m)
    ensures p.Emit(m).Valid()
  {
    var sent := p.cur.value.sent;
    assert sent[m.key := m.qty].Keys == sent.Keys + {m.key};
    assert |sent[m.key := m.qty]| == |sent| + 1;
  }

  lemma InGroupLevel(p: Publisher, o: Open, m: Msg)
    requires m.Level? && p.Valid() && p.Emits(m) && InGroup(p, o)
    ensures var t := Collect(o.tally, m.key, m.qty);
            && InGroup(p.Emit(m), o.(tally := t))
            && Clean(o.(tally := t))
            && (o.tally.levels == p.cur.value.sent ==> t.levels == p.Emit(m).cur.value.sent)
  {
    var t := Collect(o.tally, m.key, m.qty);
    assert t.levels.Keys == o.tally.levels.Keys + {m.key};
    assert p.Emit(m).cur.value.sent.Keys == p.cur.value.sent.Keys + {m.key};
    PartIsSmaller(t.levels, p.Emit(m).cur.value.sent);
  }

  lemma HasViolationAdd(fs: seq<Finding>, cond: bool, f: Finding)
    ensures HasViolation(AddIf(fs, cond, f)) <==> HasViolation(fs) || (cond && f.status == Violation)
  {
    if HasViolation(fs) {
      var x :| x in fs && x.status == Violation;
      assert x in AddIf(fs, cond, f);
    }
    if cond { assert f in fs + [f]; }
  }

  lemma EndVerdict(o: Open, m: Msg, gated: Status)
    requires m.End? && (gated == Unverifiable || gated == Violation)
    ensures gated == Unverifiable ==>
              (HasViolation(EndFindings(o, m, gated)) <==>
                 || (o.tally.count > o.total && OverStatus(o, m, gated) == Violation)
                 || (o.tally.dupKeys > 0 && DupStatus(o, m, gated) == Violation))
    ensures EndFindings(o, m, gated) == [] <==>
              && m.instr == o.instr && m.anchor == o.anchor && m.snapId == o.snapId
              && o.tally.count == o.total && o.tally.dupKeys == 0
  {
    var f1 := Graded(EndInstrument, gated);
    var f2 := Graded(EndAnchor, gated);
    var f3 := Graded(EndSnapshotId, gated);
    var s1 := AddIf([], m.instr != o.instr, f1);
    var s2 := AddIf(s1, m.anchor != o.anchor, f2);
    var s3 := FieldFindings(o, m, gated);
    var f4 := Graded(LevelCount, if o.tally.count < o.total then gated else OverStatus(o, m, gated));
    var s4 := AddIf(s3, o.tally.count != o.total, f4);
    HasViolationAdd([], m.instr != o.instr, f1);
    HasViolationAdd(s1, m.anchor != o.anchor, f2);
    HasViolationAdd(s2, m.snapId != o.snapId, f3);
    HasViolationAdd(s3, o.tally.count != o.total, f4);
    HasViolationAdd(s4, o.tally.dupKeys > 0, Graded(RepeatedKey, DupStatus(o, m, gated)));
  }

  /** More levels than announced, or a repeated one, that the code does not put
      down to a merge: the group saw no gap, the End is of its own instrument or
      has another Snapshot ID, or the fault was there before the gap. */
  predicate Surplus(o: Open, m: Msg)
    requires m.End?
  {
    var merged := o.tally.dirty && m.instr != o.instr && m.snapId == o.snapId;
    || (o.tally.count > o.total && !(merged && o.tally.cleanCount <= o.total))
    || (o.tally.dupKeys > 0 && !(merged && o.tally.cleanDupKeys == 0))
  }

  /** Once loss could explain it, an End is charged exactly over a surplus. */
  lemma TaintedEndIsChargedExactly(c: Con, m: Msg)
    requires m.End? && c.open.Some? && (c.dirtyWindow || c.open.value.tally.dirty)
    ensures HasViolation(OnEnd(c, m).findings) <==> Surplus(c.open.value, m)
  {
    EndVerdict(c.open.value, m, GroupStatus(c, c.open));
  }

  /** At a group's End, whatever became of the datagrams, a Violation is reported
      exactly over a surplus, and the group's own End was then lost; without a
      group, exactly when nothing explains the orphan. */
  lemma EndStep(p: Publisher, c: Con, m: Msg, torn: bool)
    requires m.End? && Inv(p, c, false, torn) && p.Emits(m)
    ensures Inv(p.Emit(m), OnEnd(c, m).c, false, torn)
    ensures HasViolation(OnEnd(c, m).findings)
      <==> if c.open.Some? then Surplus(c.open.value, m) else Unexplained(c)
    ensures c.open.Some? && Surplus(c.open.value, m) ==> Past(p, c.open.value)
  {
    if c.open.Some? {
      var o := c.open.value;
      if InGroup(p, o) { InGroupIsClean(p, o); }
      if c.dirtyWindow {
        TaintedEndIsChargedExactly(c, m);
      } else {
        EndVerdict(o, m, GroupStatus(c, c.open));
      }
    } else {
      OrphanVerdict(c, OrphanEnd);
    }
  }

  /** A group the consumer completes is the publisher's own, level for level,
      whatever was lost or cut around it; and one that saw nothing of it always
      completes. */
  lemma CompletedIsTruthful(p: Publisher, c: Con, m: Msg, torn: bool)
    requires m.End? && Inv(p, c, false, torn) && p.Emits(m)
    ensures OnEnd(c, m).done.Some? ==>
              OnEnd(c, m).done.value == Completed(p.cur.value.instr, p.cur.value.lastK, p.cur.value.sent)
    ensures c.open.Some? && !c.open.value.tally.dirty && !torn ==>
              OnEnd(c, m).done.Some? && OnEnd(c, m).findings == [Finding(WellFormedGroup, Pass, NoReason)]
  {
    if c.open.Some? {
      var o := c.open.value;
      EndVerdict(o, m, GroupStatus(c, c.open));
      if InGroup(p, o) {
        PartIsSmaller(o.tally.levels, p.cur.value.sent);
        if o.tally.count == o.total {
          assert o.tally.levels == p.cur.value.sent;
        }
      }
    }
  }

  /** An End over a surplus, or an orphan that nothing explains. */
  predicate ChargedBy(c: Con, m: Msg) {
    if c.open.Some? then m.End? && Surplus(c.open.value, m) else !m.Begin? && Unexplained(c)
  }

  lemma MsgStep(p: Publisher, c: Con, m: Msg, torn: bool)
    requires Inv(p, c, false, torn) && p.Emits(m)
    ensures Inv(p.Emit(m), OnMsg(c, m).c, false, torn && !m.Begin?)
    ensures HasViolation(OnMsg(c, m).findings) <==> ChargedBy(c, m)
    ensures ChargedBy(c, m) && c.open.Some? ==> Past(p, c.open.value)
  {
    match m
    case Begin(_, _, _, _, _) => BeginStep(p, c, m, torn);
    case Level(_, _, _) => LevelStep(p, c, m, torn);
    case End(_, _, _) => EndStep(p, c, m, torn);
  }

  // ---- datagrams ----------------------------------------------------------

  /** A datagram never arrives, arrives without a whole header, arrives whole, or
      arrives cut short to its first `kept` messages. */
  datatype Fate = Lost | Scrapped | Whole | Cut(kept: nat)

  datatype Datagram = Datagram(msgs: seq<Msg>, fate: Fate)
  {
    predicate Arrives() { fate.Whole? || fate.Cut? }

    function Kept(): (ms: seq<Msg>)
      ensures ms <= msgs
    {
      match fate
      case Lost => []
      case Scrapped => []
      case Whole => msgs
      case Cut(n) => if n < |msgs| then msgs[..n] else msgs
    }
  }

  /** The publisher sends a datagram, or the market-data port brings an
      InstrumentReset, which drops the group open for that instrument. */
  datatype Event = Sends(d: Datagram) | Reset(instr: u32)

  /** Datagrams carry consecutive sequence numbers; `next` is the coming one. */
  datatype System = System(p: Publisher, c: Con, next: nat, torn: bool)

  function Joining(p: Publisher, first: nat): System { System(p, START, first, false) }

  predicate EmitsAll(p: Publisher, ms: seq<Msg>)
    decreases |ms|, 0
  {
    ms == [] || (EmitsAll(p, ms[..|ms| - 1]) && EmitAll(p, ms[..|ms| - 1]).Emits(ms[|ms| - 1]))
  }

  function EmitAll(p: Publisher, ms: seq<Msg>): Publisher
    requires EmitsAll(p, ms)
    decreases |ms|, 1
  {
    if ms == [] then p else EmitAll(p, ms[..|ms| - 1]).Emit(ms[|ms| - 1])
  }

  lemma {:induction false} PrefixEmits(p: Publisher, ms: seq<Msg>, n: nat)
    requires EmitsAll(p, ms) && n <= |ms|
    ensures EmitsAll(p, ms[..n])
    ensures n < |ms| ==> EmitAll(p, ms[..n]).Emits(ms[n])
  {
    if n < |ms| {
      var init := ms[..|ms| - 1];
      PrefixEmits(p, init, n);
      assert init[..n] == ms[..n];
    } else {
      assert ms[..n] == ms;
    }
  }

  lemma KeptEmits(p: Publisher, d: Datagram)
    requires EmitsAll(p, d.msgs)
    ensures EmitsAll(p, d.Kept())
  {
    PrefixEmits(p, d.msgs, |d.Kept()|);
  }

  predicate Pending(y: System) {
    y.c.lastSeq.Some? && y.c.lastSeq.value + 1 < y.next
  }

  predicate CanSend(y: System, d: Datagram) {
    y.next + 1 < U64_MOD && EmitsAll(y.p, d.msgs)
  }

  /** The checker as the messages of an arriving datagram find it: a cut one has
      tainted the port, but not the group in flight. */
  function Entered(y: System, d: Datagram): Con
    requires y.next < U64_MOD
  {
    var c := OpenFrame(y.c, y.next);
    if d.fate.Cut? then c.(dirtyWindow := true) else c
  }

  predicate HasBegin(ms: seq<Msg>) {
    exists m :: m in ms && m.Begin?
  }

  function Take(y: System, d: Datagram): System
    requires CanSend(y, d)
  {
    var p := EmitAll(y.p, d.msgs);
    match d.fate
    case Lost => System(p, y.c, y.next + 1, y.torn)
    case Scrapped => System(p, y.c.(dirtyWindow := true), y.next + 1, y.torn)
    case Whole => System(p, OnMsgs(Entered(y, d), d.msgs), y.next + 1, y.torn && !HasBegin(d.msgs))
    case Cut(_) => System(p, OnMsgs(Entered(y, d), d.Kept()), y.next + 1, true)
  }

  function Reported(y: System, d: Datagram): seq<Finding>
    requires CanSend(y, d)
  {
    if d.Arrives() then MsgsFindings(Entered(y, d), d.Kept()) else []
  }

  predicate SysInv(y: System) {
    && Inv(y.p, y.c, Pending(y), y.torn)
    && (y.c.lastSeq.Some? ==> y.c.lastSeq.value < y.next)
    && (y.c.lastSeq.None? ==> y.c.open.None? && !y.c.sawBegin)
  }

  lemma EnteredKeeps(y: System, d: Datagram)
    requires SysInv(y) && y.next < U64_MOD
    ensures Inv(y.p, Entered(y, d), false, y.torn || d.fate.Cut?)
    ensures Entered(y, d).lastSeq == Some(y.next) && (d.fate.Cut? ==> Entered(y, d).dirtyWindow)
  {
  }

  lemma OnMsgKeepsPort(c: Con, m: Msg)
    ensures OnMsg(c, m).c.lastSeq == c.lastSeq && OnMsg(c, m).c.dirtyWindow == c.dirtyWindow
    ensures c.sawBegin ==> OnMsg(c, m).c.sawBegin
  {
  }

  lemma {:induction false} FrameStep(p: Publisher, c: Con, ms: seq<Msg>, torn: bool)
    requires Inv(p, c, false, torn) && EmitsAll(p, ms)
    ensures Inv(EmitAll(p, ms), OnMsgs(c, ms), false, torn && !HasBegin(ms))
    ensures OnMsgs(c, ms).lastSeq == c.lastSeq && OnMsgs(c, ms).dirtyWindow == c.dirtyWindow
  {
    if ms != [] {
      var init, m := ms[..|ms| - 1], ms[|ms| - 1];
      FrameStep(p, c, init, torn);
      MsgStep(EmitAll(p, init), OnMsgs(c, init), m, torn && !HasBegin(init));
      OnMsgKeepsPort(OnMsgs(c, init), m);
      assert forall x :: x in ms <==> x in init || x == m;
    }
  }

  /** A message that does not arrive moves only the publisher. */
  lemma LostMsg(p: Publisher, c: Con, m: Msg, pending: bool, torn: bool)
    requires Inv(p, c, pending, torn) && p.Emits(m) && (pending || torn)
    ensures Inv(p.Emit(m), c, pending, torn)
    ensures c.open.Some? && InGroup(p, c.open.value) && !m.End? ==> InGroup(p.Emit(m), c.open.value)
  {
    if m.Level? { SentGrows(p, m); }
    if c.open.Some? {
      var o := c.open.value;
      if InGroup(p, o) && m.Level? {
        assert InGroup(p.Emit(m), o);
      } else {
        assert Past(p.Emit(m), o);
      }
    }
  }

  /** And so does the rest of a datagram from its n-th message on. */
  lemma {:induction false} LostRest(p: Publisher, c: Con, ms: seq<Msg>, n: nat, pending: bool, torn: bool)
    requires EmitsAll(p, ms) && n <= |ms| && EmitsAll(p, ms[..n])
    requires Inv(EmitAll(p, ms[..n]), c, pending, torn) && (pending || torn)
    ensures Inv(EmitAll(p, ms), c, pending, torn)
    ensures c.open.Some? && InGroup(EmitAll(p, ms[..n]), c.open.value) && NoEnd(ms[n..]) ==>
              InGroup(EmitAll(p, ms), c.open.value)
  {
    if n == |ms| {
      assert ms[..n] == ms;
    } else {
      var init, m := ms[..|ms| - 1], ms[|ms| - 1];
      assert init[..n] == ms[..n];
      LostRest(p, c, init, n, pending, torn);
      LostMsg(EmitAll(p, init), c, m, pending, torn);
      EndsOfInit(ms, n);
    }
  }

  lemma EndsOfInit(ms: seq<Msg>, n: nat)
    requires n < |ms|
    ensures NoEnd(ms[n..]) ==> NoEnd(ms[..|ms| - 1][n..]) && !ms[|ms| - 1].End?
  {
    var last := |ms| - 1;
    if NoEnd(ms[n..]) {
      forall i | 0 <= i < last - n ensures !ms[..last][n..][i].End? { assert ms[n..][i] == ms[..last][n..][i]; }
      assert ms[n..][last - n] == ms[last];
    }
  }

  predicate NoEnd(ms: seq<Msg>) {
    forall i :: 0 <= i < |ms| ==> !ms[i].End?
  }

  lemma {:induction false} LostFrame(y: System, d: Datagram)
    requires SysInv(y) && CanSend(y, d) && !d.Arrives()
    ensures SysInv(Take(y, d))
  {
    var c := if d.fate.Scrapped? then y.c.(dirtyWindow := true) else y.c;
    assert Inv(y.p, c, true, y.torn);
    assert d.msgs[..0] == [];
    LostRest(y.p, c, d.msgs, 0, true, y.torn);
    assert y.c.lastSeq.None? ==> Inv(EmitAll(y.p, d.msgs), c, false, y.torn);
  }

  lemma {:induction false} CutFrame(y: System, d: Datagram)
    requires SysInv(y) && CanSend(y, d) && d.fate.Cut?
    ensures SysInv(Take(y, d))
  {
    var n := |d.Kept()|;
    assert d.Kept() == d.msgs[..n];
    KeptEmits(y.p, d);
    EnteredKeeps(y, d);
    FrameStep(y.p, Entered(y, d), d.Kept(), true);
    var c := OnMsgs(Entered(y, d), d.Kept());
    assert Inv(EmitAll(y.p, d.Kept()), c, false, true);
    LostRest(y.p, c, d.msgs, n, false, true);
  }

  lemma {:induction false} TakeKeeps(y: System, d: Datagram)
    requires SysInv(y) && CanSend(y, d)
    ensures SysInv(Take(y, d))
  {
    match d.fate
    case Whole =>
      EnteredKeeps(y, d);
      FrameStep(y.p, Entered(y, d), d.msgs, y.torn);
    case Cut(_) => CutFrame(y, d);
    case _ => LostFrame(y, d);
  }

  // ---- runs ---------------------------------------------------------------

  function DropOpen(c: Con, instr: u32): Con {
    if c.open.Some? && c.open.value.instr == instr then c.(open := None) else c
  }

  predicate CanTake(y: System, e: Event) {
    e.Sends? ==> CanSend(y, e.d)
  }

  function Step(y: System, e: Event): System
    requires CanTake(y, e)
  {
    match e
    case Sends(d) => Take(y, d)
    case Reset(instr) => System(y.p, DropOpen(y.c, instr), y.next, y.torn)
  }

  function StepReported(y: System, e: Event): seq<Finding>
    requires CanTake(y, e)
  {
    if e.Sends? then Reported(y, e.d) else []
  }

  lemma {:induction false} StepKeeps(y: System, e: Event)
    requires SysInv(y) && CanTake(y, e)
    ensures SysInv(Step(y, e))
  {
    if e.Sends? { TakeKeeps(y, e.d); }
  }

  predicate CanRun(y: System, es: seq<Event>)
    decreases |es|, 0
  {
    es == [] || (CanRun(y, es[..|es| - 1]) && CanTake(Run(y, es[..|es| - 1]), es[|es| - 1]))
  }

  function Run(y: System, es: seq<Event>): System
    requires CanRun(y, es)
    decreases |es|, 1
  {
    if es == [] then y else Step(Run(y, es[..|es| - 1]), es[|es| - 1])
  }

  function AllReported(y: System, es: seq<Event>): seq<Finding>
    requires CanRun(y, es)
  {
    if es == [] then []
    else AllReported(y, es[..|es| - 1]) + StepReported(Run(y, es[..|es| - 1]), es[|es| - 1])
  }

  lemma {:induction false} RunKeeps(y: System, es: seq<Event>)
    requires SysInv(y) && CanRun(y, es)
    ensures SysInv(Run(y, es))
  {
    if es != [] {
      RunKeeps(y, es[..|es| - 1]);
      StepKeeps(Run(y, es[..|es| - 1]), es[|es| - 1]);
    }
  }

  /** The checker as the n-th message of a datagram finds it. */
  function Before(y: System, d: Datagram, n: nat): Con
    requires y.next < U64_MOD && n <= |d.Kept()|
  {
    OnMsgs(Entered(y, d), d.Kept()[..n])
  }

  /** A capture that starts at any point of a conformant rotation, with datagrams
      lost or cut short and groups dropped in any pattern: a message is charged as
      a Violation of the group structure exactly when it is an End over a surplus,
      and the open group's own End was then lost, or an orphan after a Begin on a
      port that shows neither a gap nor corruption. */
  lemma {:induction false} AccusesExactly(p: Publisher, first: nat, es: seq<Event>, d: Datagram, n: nat)
    requires p.Valid() && CanRun(Joining(p, first), es)
    requires CanSend(Run(Joining(p, first), es), d) && n < |d.Kept()|
    ensures var y, m := Run(Joining(p, first), es), d.Kept()[n];
            var c := Before(y, d, n);
            && (HasViolation(OnMsg(c, m).findings) <==> ChargedBy(c, m))
            && (ChargedBy(c, m) && c.open.Some? ==>
                  EmitsAll(y.p, d.Kept()[..n]) && Past(EmitAll(y.p, d.Kept()[..n]), c.open.value))
  {
    var y := Run(Joining(p, first), es);
    RunKeeps(Joining(p, first), es);
    FoundBy(y, d, n);
    MsgStep(EmitAll(y.p, d.Kept()[..n]), Before(y, d, n), d.Kept()[n],
            (y.torn || d.fate.Cut?) && !HasBegin(d.Kept()[..n]));
  }

  lemma {:induction false} FoundBy(y: System, d: Datagram, n: nat)
    requires SysInv(y) && CanSend(y, d) && n < |d.Kept()|
    ensures EmitsAll(y.p, d.Kept()[..n]) && EmitAll(y.p, d.Kept()[..n]).Emits(d.Kept()[n])
    ensures Inv(EmitAll(y.p, d.Kept()[..n]), Before(y, d, n), false,
                (y.torn || d.fate.Cut?) && !HasBegin(d.Kept()[..n]))
  {
    KeptEmits(y.p, d);
    PrefixEmits(y.p, d.Kept(), n);
    EnteredKeeps(y, d);
    FrameStep(y.p, Entered(y, d), d.Kept()[..n], y.torn || d.fate.Cut?);
  }

  // ---- when the code recognises every merge -------------------------------

  /** A group that saw a gap was in order before it; one that saw none is still
      the publisher's own; and where none is held and nothing shows to be missing,
      the publisher is between groups. */
  predicate Tame(p: Publisher, c: Con, pending: bool) {
    match c.open
    case None => Unexplained(c) && !pending ==> p.cur.None?
    case Some(o) =>
      if o.tally.dirty then o.tally.cleanCount <= o.total && o.tally.cleanDupKeys == 0
      else Clean(o) && (!pending ==> InGroup(p, o))
  }

  lemma TameStep(p: Publisher, c: Con, m: Msg, torn: bool)
    requires Inv(p, c, false, torn) && Tame(p, c, false) && p.Emits(m)
    ensures Tame(p.Emit(m), OnMsg(c, m).c, false)
    ensures ChargedBy(c, m) <==>
              m.End? && c.open.Some? && !Clean(c.open.value) && m.snapId != c.open.value.snapId
  {
    if c.open.Some? {
      var o := c.open.value;
      if InGroup(p, o) {
        InGroupIsClean(p, o);
        if m.Level? { InGroupLevel(p, o, m); }
      }
    }
  }

  /** While the open group holds foreign levels, nothing has been lost since
      they began and the publisher is still inside the group they belong to. */
  predicate OneBurst(p: Publisher, c: Con, pending: bool) {
    c.open.Some? && !Clean(c.open.value) ==>
      !pending && p.cur.Some? && p.cur.value.snapId == c.open.value.snapId
  }

  lemma OneBurstStep(p: Publisher, c: Con, m: Msg, torn: bool)
    requires Inv(p, c, false, torn) && Tame(p, c, false) && p.Emits(m) && OneBurst(p, c, false)
    ensures OneBurst(p.Emit(m), OnMsg(c, m).c, false) && !ChargedBy(c, m)
  {
    TameStep(p, c, m, torn);
    if m.Level? && c.open.Some? && InGroup(p, c.open.value) {
      InGroupLevel(p, c.open.value, m);
    }
  }

  lemma NoViolationAppend(a: seq<Finding>, b: seq<Finding>)
    requires !HasViolation(a) && !HasViolation(b)
    ensures !HasViolation(a + b)
  {
  }

  lemma {:induction false} TameFrame(p: Publisher, c: Con, ms: seq<Msg>, torn: bool)
    requires Inv(p, c, false, torn) && Tame(p, c, false) && EmitsAll(p, ms)
    ensures Tame(EmitAll(p, ms), OnMsgs(c, ms), false)
    ensures OneBurst(p, c, false) ==>
              OneBurst(EmitAll(p, ms), OnMsgs(c, ms), false) && !HasViolation(MsgsFindings(c, ms))
  {
    if ms != [] {
      var init, m := ms[..|ms| - 1], ms[|ms| - 1];
      TameFrame(p, c, init, torn);
      FrameStep(p, c, init, torn);
      var p1, c1, torn1 := EmitAll(p, init), OnMsgs(c, init), torn && !HasBegin(init);
      TameStep(p1, c1, m, torn1);
      MsgStep(p1, c1, m, torn1);
      if OneBurst(p, c, false) {
        OneBurstStep(p1, c1, m, torn1);
        NoViolationAppend(MsgsFindings(c, init), OnMsg(c1, m).findings);
      }
    }
  }

  /** A cut datagram keeps the End of the group it leaves open, unless the group
      has seen a gap already. */
  predicate KeepsEnd(y: System, d: Datagram)
    requires CanSend(y, d)
  {
    d.fate.Cut? ==>
      var open := OnMsgs(Entered(y, d), d.Kept()).open;
      open.Some? && !open.value.tally.dirty ==> NoEnd(d.msgs[|d.Kept()|..])
  }

  /** No datagram is lost, and none is cut after its group's levels, while a
      group is open that has already seen a gap and then a later datagram. */
  predicate SameBurst(y: System, d: Datagram)
    requires CanSend(y, d)
  {
    && (!d.Arrives() && y.c.open.Some? ==> !y.c.open.value.tally.dirty)
    && (d.fate.Cut? ==>
          var open := OnMsgs(Entered(y, d), d.Kept()).open; open.Some? ==> !open.value.tally.dirty)
  }

  predicate TameSys(y: System) { Tame(y.p, y.c, Pending(y)) }

  predicate OneBurstSys(y: System) { OneBurst(y.p, y.c, Pending(y)) }

  lemma TameEntered(y: System, d: Datagram)
    requires SysInv(y) && y.next < U64_MOD && TameSys(y)
    ensures Tame(y.p, Entered(y, d), false)
    ensures OneBurstSys(y) ==> OneBurst(y.p, Entered(y, d), false)
  {
  }

  lemma {:induction false} TameWhole(y: System, d: Datagram)
    requires SysInv(y) && CanSend(y, d) && d.fate.Whole? && TameSys(y)
    ensures TameSys(Take(y, d))
    ensures OneBurstSys(y) ==> OneBurstSys(Take(y, d)) && !HasViolation(Reported(y, d))
  {
    EnteredKeeps(y, d);
    TameEntered(y, d);
    FrameStep(y.p, Entered(y, d), d.msgs, y.torn);
    TameFrame(y.p, Entered(y, d), d.msgs, y.torn);
  }

  lemma {:induction false} TameCut(y: System, d: Datagram)
    requires SysInv(y) && CanSend(y, d) && d.fate.Cut? && TameSys(y) && KeepsEnd(y, d)
    ensures TameSys(Take(y, d))
    ensures OneBurstSys(y) && SameBurst(y, d) ==> OneBurstSys(Take(y, d)) && !HasViolation(Reported(y, d))
  {
    var n := |d.Kept()|;
    assert d.Kept() == d.msgs[..n];
    KeptEmits(y.p, d);
    EnteredKeeps(y, d);
    TameEntered(y, d);
    FrameStep(y.p, Entered(y, d), d.Kept(), true);
    TameFrame(y.p, Entered(y, d), d.Kept(), true);
    var c := OnMsgs(Entered(y, d), d.Kept());
    assert Inv(EmitAll(y.p, d.msgs[..n]), c, false, true);
    LostRest(y.p, c, d.msgs, n, false, true);
  }

  lemma {:induction false} TameTake(y: System, d: Datagram)
    requires SysInv(y) && CanSend(y, d) && TameSys(y) && KeepsEnd(y, d)
    ensures TameSys(Take(y, d))
    ensures OneBurstSys(y) && SameBurst(y, d) ==> OneBurstSys(Take(y, d)) && !HasViolation(Reported(y, d))
  {
    match d.fate
    case Whole => TameWhole(y, d);
    case Cut(_) => TameCut(y, d);
    case _ =>
  }

  /** A cut keeps the End of the group it leaves open, and a reset drops no group
      that the publisher is in the middle of while nothing shows to be missing. */
  predicate KeepsGroup(y: System, e: Event)
    requires CanTake(y, e)
  {
    match e
    case Sends(d) => KeepsEnd(y, d)
    case Reset(instr) =>
      y.c.open.Some? && y.c.open.value.instr == instr ==> y.c.dirtyWindow || Pending(y) || y.p.cur.None?
  }

  lemma {:induction false} TameStepKeeps(y: System, e: Event)
    requires SysInv(y) && CanTake(y, e) && TameSys(y) && KeepsGroup(y, e)
    ensures TameSys(Step(y, e))
    ensures OneBurstSys(y) && (e.Sends? ==> SameBurst(y, e.d)) ==>
              OneBurstSys(Step(y, e)) && !HasViolation(StepReported(y, e))
  {
    if e.Sends? { TameTake(y, e.d); }
  }

  predicate GroupsKept(y: System, es: seq<Event>)
    requires CanRun(y, es)
  {
    es == [] || (GroupsKept(y, es[..|es| - 1]) && KeepsGroup(Run(y, es[..|es| - 1]), es[|es| - 1]))
  }

  predicate SingleBursts(y: System, es: seq<Event>)
    requires CanRun(y, es)
  {
    es == [] ||
    var init, e := es[..|es| - 1], es[|es| - 1];
    SingleBursts(y, init) && (e.Sends? ==> SameBurst(Run(y, init), e.d))
  }

  lemma {:induction false} TameRunKeeps(y: System, es: seq<Event>)
    requires SysInv(y) && TameSys(y) && OneBurstSys(y) && CanRun(y, es) && GroupsKept(y, es)
    ensures SysInv(Run(y, es)) && TameSys(Run(y, es))
    ensures SingleBursts(y, es) ==> OneBurstSys(Run(y, es)) && !HasViolation(AllReported(y, es))
  {
    if es != [] {
      var init, e := es[..|es| - 1], es[|es| - 1];
      TameRunKeeps(y, init);
      RunKeeps(y, es);
      TameStepKeeps(Run(y, init), e);
      if SingleBursts(y, es) {
        NoViolationAppend(AllReported(y, init), StepReported(Run(y, init), e));
      }
    }
  }

  /** A capture that starts at any point of a conformant rotation, loses
      datagrams in any places, but in at most one burst while any one group is
      open, whose cut datagrams keep the End of the group they leave open, and
      whose resets drop no group in flight unseen, never reports GROUP_STRUCTURE
      as a Violation. */
  lemma {:induction false} LossIsNeverAStructureViolation(p: Publisher, first: nat, es: seq<Event>)
    requires p.Valid() && CanRun(Joining(p, first), es)
    requires GroupsKept(Joining(p, first), es) && SingleBursts(Joining(p, first), es)
    ensures !HasViolation(AllReported(Joining(p, first), es))
  {
    TameRunKeeps(Joining(p, first), es);
  }

  /** With no bound on the bursts, a Violation still needs an End with a foreign
      Snapshot ID over a group that holds foreign levels. */
  lemma {:induction false} ViolationNeedsALostMergedEnd(
    p: Publisher, first: nat, es: seq<Event>, d: Datagram, n: nat)
    requires p.Valid() && CanRun(Joining(p, first), es) && GroupsKept(Joining(p, first), es)
    requires CanSend(Run(Joining(p, first), es), d) && n < |d.Kept()|
    ensures var c, m := Before(Run(Joining(p, first), es), d, n), d.Kept()[n];
            HasViolation(OnMsg(c, m).findings) <==>
              m.End? && c.open.Some? && !Clean(c.open.value) && m.snapId != c.open.value.snapId
  {
    var y := Run(Joining(p, first), es);
    var torn := y.torn || d.fate.Cut?;
    TameRunKeeps(Joining(p, first), es);
    AccusesExactly(p, first, es, d, n);
    FoundBy(y, d, n);
    EnteredKeeps(y, d);
    TameEntered(y, d);
    TameFrame(y.p, Entered(y, d), d.Kept()[..n], torn);
    TameStep(EmitAll(y.p, d.Kept()[..n]), Before(y, d, n), d.Kept()[n], torn && !HasBegin(d.Kept()[..n]));
  }
}
