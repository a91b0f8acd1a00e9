/** Runs on which the market-by-price snapshot checks charge a publisher that did
    nothing wrong, each from the first datagram of a capture. */
module MbpGroupsAccused {
  import opened Core
  import opened MbpBook
  import opened MbpGroups
  import opened MbpGroupsUnderLoss

  function Lv(id: u32, price: i64): Msg { Level(id, LevelKey(0, price), 1) }

  const NOBODY := Publisher(None, map[])

  predicate Reaches(es: seq<Event>, y: System) {
    CanRun(Joining(NOBODY, 0), es) && Run(Joining(NOBODY, 0), es) == y
  }

  lemma {:induction false} Goes(es: seq<Event>, e: Event, y: System, next: System)
    requires Reaches(es, y) && CanTake(y, e) && Step(y, e) == next
    ensures Reaches(es + [e], next)
  {
    assert (es + [e])[..|es|] == es;
  }

  /** A run from its first datagram in which a violation is reported. */
  predicate Accuses(es: seq<Event>) {
    CanRun(Joining(NOBODY, 0), es) && HasViolation(AllReported(Joining(NOBODY, 0), es))
  }

  lemma {:induction false} LastIsCharged(es: seq<Event>, d: Datagram, y: System)
    requires Reaches(es, y) && CanSend(y, d) && HasViolation(Reported(y, d))
    ensures Accuses(es + [Sends(d)])
  {
    var all := es + [Sends(d)];
    assert all[..|es|] == es;
    var fs := AllReported(Joining(NOBODY, 0), es);
    var f :| f in Reported(y, d) && f.status == Violation;
    assert f in fs + Reported(y, d);
  }

  lemma {:induction false} OneMsg(p: Publisher, c: Con, a: Msg)
    ensures EmitsAll(p, [a]) <==> p.Emits(a)
    ensures p.Emits(a) ==> EmitAll(p, [a]) == p.Emit(a)
    ensures OnMsgs(c, [a]) == OnMsg(c, a).c && MsgsFindings(c, [a]) == OnMsg(c, a).findings
  {
    assert [a][..0] == [];
    assert MsgsFindings(c, []) + OnMsg(c, a).findings == OnMsg(c, a).findings;
  }

  lemma {:induction false} TwoMsgs(p: Publisher, c: Con, a: Msg, b: Msg)
    ensures EmitsAll(p, [a, b]) <==> p.Emits(a) && p.Emit(a).Emits(b)
    ensures EmitsAll(p, [a, b]) ==> EmitAll(p, [a, b]) == p.Emit(a).Emit(b)
    ensures OnMsgs(c, [a, b]) == OnMsg(OnMsg(c, a).c, b).c
    ensures MsgsFindings(c, [a, b]) == OnMsg(c, a).findings + OnMsg(OnMsg(c, a).c, b).findings
  {
    OneMsg(p, c, a);
    assert [a, b][..1] == [a];
  }

  /** The publisher in the middle of `instr`/7, its one level sent. */
  function Sent7(instr: u32, price: i64, lastId: map<u32, u32>): Publisher {
    Publisher(Some(Sending(instr, 7, 0, 1, 0, map[LevelKey(0, price) := 1])), lastId)
  }

  lemma Sends7(p: Publisher, instr: u32, price: i64)
    requires p.cur.None? && instr !in p.lastId
    ensures p.Emits(Begin(instr, 7, 0, 1, 0)) && p.Emit(Begin(instr, 7, 0, 1, 0)).Emits(Lv(7, price))
    ensures p.Emit(Begin(instr, 7, 0, 1, 0)).Emit(Lv(7, price)) == Sent7(instr, price, p.lastId[instr := 7])
    ensures Sent7(instr, price, p.lastId[instr := 7]).Emits(End(instr, 0, 7))
  {
    assert map[][LevelKey(0, price) := 1 as u64] == map[LevelKey(0, price) := 1];
    assert |map[LevelKey(0, price) := 1]| == 1;
  }

  /** The checker with 1/7 open and its one level collected. */
  function Open7(dirtyWindow: bool, lastSeq: u64): Con {
    Con(Some(Open(1, 7, 0, 1, 0, Tally(map[LevelKey(0, 1) := 1], 1, 0, false, 0, 0))), true, dirtyWindow, Some(lastSeq))
  }

  /** The first frame of both runs below. */
  lemma {:induction false} Opened7()
    ensures var d := Datagram([Begin(1, 7, 0, 1, 0), Lv(7, 1)], Whole);
            && CanSend(Joining(NOBODY, 0), d)
            && Take(Joining(NOBODY, 0), d) == System(Sent7(1, 1, map[1 := 7]), Open7(false, 0), 1, false)
  {
    var b, l, c := Begin(1, 7, 0, 1, 0), Lv(7, 1), OpenFrame(START, 0);
    Sends7(NOBODY, 1, 1);
    TwoMsgs(NOBODY, c, b, l);
    assert map[][LevelKey(0, 1) := 1 as u64] == map[LevelKey(0, 1) := 1];
    assert map[][1 := 7 as u32] == map[1 := 7];
  }

  /** A lone level of 2/7 that reaches the open group 1/7 counts as its second. */
  lemma Absorbs(c: Con)
    requires c.open.Some? && c.open.value == Open7(false, 0).open.value.(tally := c.open.value.tally)
    requires c.open.value.tally.count == 1 && c.open.value.tally.dupKeys == 0
    requires LevelKey(0, 2) !in c.open.value.tally.levels
    ensures var c' := OnLevel(c, Lv(7, 2)).c;
            c'.open.Some? && c'.open.value.tally.count == 2
            && c' == c.(open := Some(c.open.value.(tally := c'.open.value.tally)))
            && c'.open.value.tally.dirty == c.open.value.tally.dirty
  {
  }

  lemma {:induction false} Relays7()
    ensures var p := Sent7(1, 1, map[1 := 7]);
            var e, b := End(1, 0, 7), Begin(2, 7, 0, 1, 0);
            && EmitsAll(p, [e, b])
            && EmitAll(p, [e, b]) == Publisher(Some(Sending(2, 7, 0, 1, 0, map[])), map[1 := 7, 2 := 7])
  {
    var p, e, b := Sent7(1, 1, map[1 := 7]), End(1, 0, 7), Begin(2, 7, 0, 1, 0);
    assert |map[LevelKey(0, 1) := 1]| == 1;
    TwoMsgs(p, START, e, b);
    assert map[1 := 7][2 := 7 as u32] == map[1 := 7, 2 := 7];
  }

  const OPENING := Datagram([Begin(1, 7, 0, 1, 0), Lv(7, 1)], Whole)

  function Seam(fate: Fate): Datagram { Datagram([End(1, 0, 7), Begin(2, 7, 0, 1, 0)], fate) }

  const MERGING := Datagram([Lv(7, 2), End(2, 0, 7)], Whole)

  const OPENED := System(Sent7(1, 1, map[1 := 7]), Open7(false, 0), 1, false)

  lemma {:induction false} FirstFrame()
    ensures Reaches([Sends(OPENING)], OPENED)
  {
    Opened7();
    Goes([], Sends(OPENING), Joining(NOBODY, 0), OPENED);
    assert [] + [Sends(OPENING)] == [Sends(OPENING)];
  }

  lemma {:induction false} CutSeam()
    ensures CanSend(OPENED, Seam(Cut(0))) && Take(OPENED, Seam(Cut(0))) == System(SECOND, Open7(true, 1), 2, true)
  {
    Relays7();
    assert Seam(Cut(0)).msgs[..0] == [];
  }

  /** Truncation is not seen as a gap inside the group. A datagram is cut before
      the End of 1/7 and the Begin of 2/7 that it carries, so the level of 2/7
      counts as one of 1/7 and the merge goes unrecognised: its surplus is
      charged, on a window that is known to be dirty. */
  lemma {:induction false} TruncationCanAccuse()
    ensures Accuses([Sends(OPENING), Sends(Seam(Cut(0))), Sends(MERGING)])
  {
    var y2 := System(SECOND, Open7(true, 1), 2, true);
    FirstFrame();
    CutSeam();
    Goes([Sends(OPENING)], Sends(Seam(Cut(0))), OPENED, y2);
    MergedIsCharged(y2);
    LastIsCharged([Sends(OPENING)] + [Sends(Seam(Cut(0)))], MERGING, y2);
    assert [Sends(OPENING)] + [Sends(Seam(Cut(0)))] + [Sends(MERGING)]
      == [Sends(OPENING), Sends(Seam(Cut(0))), Sends(MERGING)];
  }

  lemma {:induction false} MergedIsCharged(y: System)
    requires y.p == SECOND && y.c == Open7(true, 1) && y.next == 2
    ensures CanSend(y, MERGING) && HasViolation(Reported(y, MERGING))
  {
    var c := OpenFrame(y.c, 2);
    assert map[][LevelKey(0, 2) := 1 as u64] == map[LevelKey(0, 2) := 1];
    assert |map[LevelKey(0, 2) := 1]| == 1;
    TwoMsgs(y.p, c, Lv(7, 2), End(2, 0, 7));
    Absorbs(c);
    var c' := OnLevel(c, Lv(7, 2)).c;
    TaintedEndIsChargedExactly(c', End(2, 0, 7));
    var f :| f in OnEnd(c', End(2, 0, 7)).findings && f.status == Violation;
    assert f in Reported(y, MERGING);
  }

  const SECOND := Publisher(Some(Sending(2, 7, 0, 1, 0, map[])), map[1 := 7, 2 := 7])

  /** 1/7 with the level of 2/7 absorbed after the gap. */
  const MERGED: Con :=
    Con(Some(Open(1, 7, 0, 1, 0, Tally(map[LevelKey(0, 1) := 1][LevelKey(0, 2) := 1], 2, 0, true, 1, 0))),
        true, true, Some(2))

  lemma {:induction false} AbsorbedFrame(y: System)
    requires y == System(SECOND, Open7(false, 0), 2, false)
    ensures var d := Datagram([Lv(7, 2)], Whole);
            CanSend(y, d) && Take(y, d) == System(Sent7(2, 2, map[1 := 7, 2 := 7]), MERGED, 3, false)
  {
    var d := Datagram([Lv(7, 2)], Whole);
    OneMsg(y.p, OpenFrame(y.c, 2), Lv(7, 2));
    assert map[][LevelKey(0, 2) := 1 as u64] == map[LevelKey(0, 2) := 1];
  }

  lemma {:induction false} LostRelay(y: System)
    requires y == System(Sent7(2, 2, map[1 := 7, 2 := 7]), MERGED, 3, false)
    ensures var d := Datagram([End(2, 0, 7), Begin(3, 8, 0, 0, 0)], Lost);
            && CanSend(y, d)
            && Take(y, d) == System(Publisher(Some(Sending(3, 8, 0, 0, 0, map[])), map[1 := 7, 2 := 7, 3 := 8]),
                                    MERGED, 4, false)
  {
    assert |map[LevelKey(0, 2) := 1]| == 1;
    TwoMsgs(y.p, y.c, End(2, 0, 7), Begin(3, 8, 0, 0, 0));
    assert map[1 := 7, 2 := 7][3 := 8 as u32] == map[1 := 7, 2 := 7, 3 := 8];
  }

  lemma {:induction false} ForeignEndIsCharged(y: System)
    requires y == System(Publisher(Some(Sending(3, 8, 0, 0, 0, map[])), map[1 := 7, 2 := 7, 3 := 8]), MERGED, 4, false)
    ensures var d := Datagram([End(3, 0, 8)], Whole); CanSend(y, d) && HasViolation(Reported(y, d))
  {
    var c := OpenFrame(y.c, 4);
    OneMsg(y.p, c, End(3, 0, 8));
    TaintedEndIsChargedExactly(c, End(3, 0, 8));
  }

  const FOREIGN := Datagram([Lv(7, 2)], Whole)
  const NEXT_SEAM := Datagram([End(2, 0, 7), Begin(3, 8, 0, 0, 0)], Lost)
  const CLOSING := Datagram([End(3, 0, 8)], Whole)

  lemma {:induction false} UpToTheSeam()
    ensures Reaches([Sends(OPENING), Sends(Seam(Lost))], System(SECOND, Open7(false, 0), 2, false))
  {
    FirstFrame();
    Relays7();
    Goes([Sends(OPENING)], Sends(Seam(Lost)), OPENED, System(SECOND, Open7(false, 0), 2, false));
    assert [Sends(OPENING)] + [Sends(Seam(Lost))] == [Sends(OPENING), Sends(Seam(Lost))];
  }

  const LAST: System :=
    System(Publisher(Some(Sending(3, 8, 0, 0, 0, map[])), map[1 := 7, 2 := 7, 3 := 8]), MERGED, 4, false)

  function TwoBursts(): seq<Event> { [Sends(OPENING), Sends(Seam(Lost)), Sends(FOREIGN), Sends(NEXT_SEAM)] }

  lemma {:induction false} UpToTheLoss()
    ensures Reaches(TwoBursts(), LAST)
  {
    var y2 := System(SECOND, Open7(false, 0), 2, false);
    var y3 := System(Sent7(2, 2, map[1 := 7, 2 := 7]), MERGED, 3, false);
    var es := [Sends(OPENING), Sends(Seam(Lost))];
    UpToTheSeam();
    AbsorbedFrame(y2);
    LostRelay(y3);
    Goes(es, Sends(FOREIGN), y2, y3);
    Goes(es + [Sends(FOREIGN)], Sends(NEXT_SEAM), y3, LAST);
    assert es + [Sends(FOREIGN)] + [Sends(NEXT_SEAM)] == TwoBursts();
  }

  /** The same Snapshot ID in two instruments' groups, and two bursts while the
      first is open: the first hides the seam between 1/7 and 2/7, the second
      hides the End of 2/7. The End of 3/8 then closes the merged group, and its
      surplus level is charged to a publisher that did nothing wrong. */
  lemma {:induction false} TwoBurstsCanAccuse()
    ensures Accuses(TwoBursts() + [Sends(CLOSING)])
  {
    UpToTheLoss();
    ForeignEndIsCharged(LAST);
    LastIsCharged(TwoBursts(), CLOSING, LAST);
  }

  const HALF := Datagram([Begin(1, 7, 0, 1, 0)], Whole)
  const REST := Datagram([Lv(7, 1), End(1, 0, 7)], Whole)

  lemma {:induction false} Halfway()
    ensures CanSend(Joining(NOBODY, 0), HALF)
    ensures var y := Take(Joining(NOBODY, 0), HALF);
            && y.p == Publisher(Some(Sending(1, 7, 0, 1, 0, map[])), map[1 := 7]) && y.next == 1
            && y.c.open.Some? && y.c.open.value.instr == 1
            && y.c.sawBegin && !y.c.dirtyWindow && y.c.lastSeq == Some(0)
  {
    OneMsg(NOBODY, OpenFrame(START, 0), Begin(1, 7, 0, 1, 0));
    assert map[][1 := 7 as u32] == map[1 := 7];
  }

  lemma {:induction false} RestIsCharged(y: System)
    requires y.p == Publisher(Some(Sending(1, 7, 0, 1, 0, map[])), map[1 := 7]) && y.next == 1
    requires y.c.open.None? && y.c.sawBegin && !y.c.dirtyWindow && y.c.lastSeq == Some(0)
    ensures CanSend(y, REST) && HasViolation(Reported(y, REST))
  {
    var c := OpenFrame(y.c, 1);
    Sends7(NOBODY, 1, 1);
    assert y.p == NOBODY.Emit(Begin(1, 7, 0, 1, 0)) by { assert map[][1 := 7 as u32] == map[1 := 7]; }
    TwoMsgs(y.p, c, Lv(7, 1), End(1, 0, 7));
    OrphanVerdict(c, OrphanLevel);
    assert OrphanFinding(c, OrphanLevel) in Reported(y, REST);
  }

  /** An InstrumentReset on the market-data port drops the group that the snapshot
      port is in the middle of; what is left of it is charged as an orphan, with
      every datagram delivered. */
  lemma {:induction false} DroppedGroupCanAccuse()
    ensures Accuses([Sends(HALF), Reset(1), Sends(REST)])
  {
    Halfway();
    var y1 := Take(Joining(NOBODY, 0), HALF);
    var y2 := Step(y1, Reset(1));
    Goes([], Sends(HALF), Joining(NOBODY, 0), y1);
    Goes([] + [Sends(HALF)], Reset(1), y1, y2);
    RestIsCharged(y2);
    LastIsCharged([] + [Sends(HALF)] + [Reset(1)], REST, y2);
    assert [] + [Sends(HALF)] + [Reset(1)] + [Sends(REST)] == [Sends(HALF), Reset(1), Sends(REST)];
  }
}
