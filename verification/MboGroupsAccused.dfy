/** Inputs on which the market-by-order snapshot checks charge a publisher that
    did nothing wrong: each is a run from the first datagram of a capture. */
module MboGroupsAccused {
  import opened Core
  import opened MboGroups
  import opened MboGroupsUnderLoss

  function H(id: u32, total: u32): Head { Head(7, 40, id, total, 3) }

  function O(id: u32, orderID: u64): Msg { Order(id, orderID, SnapOrder(0, 0, 0, 100, 10)) }

  function E(id: u32): Msg { End(7, 40, id) }

  const NOBODY := Publisher(None, map[])

  predicate Reaches(y0: System, es: seq<Event>, y: System) {
    CanRun(y0, es) && Run(y0, es) == y
  }

  lemma {:induction false} Goes(y0: System, es: seq<Event>, e: Event, y: System)
    requires Reaches(y0, es, y) && CanTake(y, e)
    ensures Reaches(y0, es + [e], Step(y, e))
    ensures RunFindings(y0, es + [e]) == RunFindings(y0, es) + Reported(y, e)
  {
    assert (es + [e])[..|es|] == es;
  }

  lemma {:induction false} RunOfOne(y: System, e: Event)
    requires CanTake(y, e)
    ensures Reaches(y, [e], Step(y, e)) && RunFindings(y, [e]) == Reported(y, e)
  {
    Goes(y, [], e, y);
    assert [] + [e] == [e] && RunFindings(y, []) + Reported(y, e) == Reported(y, e);
  }

  lemma {:induction false} RunOfTwo(y: System, a: Event, b: Event)
    requires CanTake(y, a) && CanTake(Step(y, a), b)
    ensures Reaches(y, [a, b], Step(Step(y, a), b))
    ensures RunFindings(y, [a, b]) == Reported(y, a) + Reported(Step(y, a), b)
  {
    RunOfOne(y, a);
    Goes(y, [a], b, Step(y, a));
    assert [a] + [b] == [a, b];
  }

  predicate Charged(y: System, es: seq<Event>, r: Rule) {
    CanRun(y, es) && Finding(r, Violation, NoReason) in RunFindings(y, es)
  }

  lemma {:induction false} LastIsCharged(y0: System, es: seq<Event>, e: Event, y: System, r: Rule)
    requires Reaches(y0, es, y) && CanTake(y, e) && Finding(r, Violation, NoReason) in Reported(y, e)
    ensures Charged(y0, es + [e], r)
  {
    assert (es + [e])[..|es|] == es;
  }

  lemma FirstIsReported(y: System, e: Event, f: Finding)
    requires CanTake(y, e) && e.Sends? && e.fate.Whole? && e.msgs != []
    requires f in Judged(Entered(y, e), e.msgs[0])
    ensures f in Reported(y, e)
  {
  }

  lemma {:induction false} OneMsg(p: Publisher, c: Chk, a: Msg, seqNo: u64)
    requires p.Emits(a)
    ensures EmitsAll(p, [a]) && EmitAll(p, [a]) == p.Emit(a)
    ensures AfterMsgs(c, [a], seqNo) == AfterMsg(c, a, seqNo)
  {
    assert [a][1..] == [];
  }

  lemma {:induction false} TwoMsgs(p: Publisher, c: Chk, a: Msg, b: Msg, seqNo: u64)
    requires p.Emits(a) && p.Emit(a).Emits(b)
    ensures EmitsAll(p, [a, b]) && EmitAll(p, [a, b]) == p.Emit(a).Emit(b)
    ensures AfterMsgs(c, [a, b], seqNo) == AfterMsg(AfterMsg(c, a, seqNo), b, seqNo)
  {
    assert [a, b][1..] == [b];
    OneMsg(p.Emit(a), AfterMsg(c, a, seqNo), b, seqNo);
  }

  /** A capture that starts inside a group: its first order is charged as one
      without a Begin, since the port has shown no gap yet. */
  lemma {:induction false} JoiningMidGroupAccuses()
    ensures var p := Publisher(Some(Sending(H(1, 2), map[11 := SnapOrder(0, 0, 0, 100, 10)], 1)), map[7 := 1]);
            p.Valid() && Charged(Start(p, 9), [Sends([O(1, 12), E(1)], Whole)], Grouping)
  {
    var p := Publisher(Some(Sending(H(1, 2), map[11 := SnapOrder(0, 0, 0, 100, 10)], 1)), map[7 := 1]);
    var y, e := Start(p, 9), Sends([O(1, 12), E(1)], Whole);
    assert |map[11 := SnapOrder(0, 0, 0, 100, 10)]| == 1;
    TwoMsgs(p, START, O(1, 12), E(1), 9);
    JoinChargedExactly(p, 9, e);
    FirstIsReported(y, e, Finding(Grouping, Violation, NoReason));
    LastIsCharged(y, [], e, y, Grouping);
    assert [] + [e] == [e];
  }

  /** A group that opens in the port's frame 0 never notices loss. Losing the
      frame with its End makes the next Begin a violation; from any other first
      number it does not. */
  lemma {:induction false} GroupOpenedInFrameZeroAccuses(first: nat)
    requires first + 4 < U64_MOD
    ensures var es := [Sends([Begin(H(1, 0))], Whole), Sends([E(1)], Lost), Sends([Begin(H(2, 0))], Whole)];
            CanRun(Start(NOBODY, first), es) && (Charged(Start(NOBODY, first), es, Grouping) <==> first == 0)
  {
    var y0 := Start(NOBODY, first);
    var e1, e2, e3 := Sends([Begin(H(1, 0))], Whole), Sends([E(1)], Lost), Sends([Begin(H(2, 0))], Whole);
    OneMsg(NOBODY, Entered(y0, e1), Begin(H(1, 0)), first);
    var y1 := Step(y0, e1);
    OneMsg(y1.p, y1.c, E(1), first);
    var y2 := Step(y1, e2);
    OneMsg(y2.p, y2.c, Begin(H(2, 0)), first);
    RunOfTwo(y0, e1, e2);
    Goes(y0, [e1, e2], e3, y2);
    BeginAlone(y0, e1);
    BeginAlone(y2, e3);
    assert [e1, e2] + [e3] == [e1, e2, e3];
  }

  lemma {:induction false} BeginAlone(y: System, e: Event)
    requires CanTake(y, e) && e.Sends? && e.fate.Whole? && |e.msgs| == 1 && e.msgs[0].Begin?
    ensures Reported(y, e) == Judged(Entered(y, e), e.msgs[0])
  {
    var c, fs := Entered(y, e), Judged(Entered(y, e), e.msgs[0]);
    assert e.msgs[1..] == [];
    assert FindingsOf(c, e.msgs, y.next) == fs + FindingsOf(AfterMsg(c, e.msgs[0], y.next), [], y.next);
    assert fs + [] == fs;
  }

  /** A frame cut after the Begin it carries taints the port but not the group
      it opens, so the next Begin is a violation. */
  lemma {:induction false} CutAfterBeginAccuses()
    ensures Charged(Start(NOBODY, 5), [Sends([Begin(H(1, 0)), E(1)], Cut(1)), Sends([Begin(H(2, 0))], Whole)], Grouping)
  {
    var y0 := Start(NOBODY, 5);
    var e1, e2 := Sends([Begin(H(1, 0)), E(1)], Cut(1)), Sends([Begin(H(2, 0))], Whole);
    TwoMsgs(NOBODY, START, Begin(H(1, 0)), E(1), 5);
    assert e1.msgs[..1] == [Begin(H(1, 0))];
    OneMsg(NOBODY, Entered(y0, e1), Begin(H(1, 0)), 5);
    var y1 := Step(y0, e1);
    OneMsg(y1.p, y1.c, Begin(H(2, 0)), 6);
    RunOfOne(y0, e1);
    FirstIsReported(y1, e2, Finding(Grouping, Violation, NoReason));
    LastIsCharged(y0, [e1], e2, y1, Grouping);
    assert [e1] + [e2] == [e1, e2];
  }

  /** The rest of a group that an InstrumentReset dropped is charged as one
      without a Begin, with every datagram delivered. */
  lemma {:induction false} DroppedGroupAccuses()
    ensures Charged(Start(NOBODY, 5), [Sends([Begin(H(1, 1))], Whole), Drop, Sends([O(1, 11), E(1)], Whole)], Grouping)
  {
    var y0 := Start(NOBODY, 5);
    var e1, e2 := Sends([Begin(H(1, 1))], Whole), Sends([O(1, 11), E(1)], Whole);
    OneMsg(NOBODY, Entered(y0, e1), Begin(H(1, 1)), 5);
    var y1 := Step(y0, e1);
    var y2 := Step(y1, Drop);
    TwoMsgs(y2.p, y2.c, O(1, 11), E(1), 6);
    RunOfTwo(y0, e1, Drop);
    FirstIsReported(y2, e2, Finding(Grouping, Violation, NoReason));
    LastIsCharged(y0, [e1, Drop], e2, y2, Grouping);
    assert [e1, Drop] + [e2] == [e1, Drop, e2];
  }

  /** One lost datagram that held an End and the next Begin merges two groups,
      and the merged group then exceeds the first one's total: a violation,
      though the rule's own comment says that loss cannot cause one. */
  lemma {:induction false} MergedGroupsOverCount()
    ensures Charged(Start(NOBODY, 5),
                    [Sends([Begin(H(1, 1)), O(1, 11)], Whole), Sends([E(1), Begin(H(2, 2))], Lost),
                     Sends([O(2, 11), O(2, 12), E(2)], Whole)], CountMatch)
  {
    var y0 := Start(NOBODY, 5);
    var e1, e2 := Sends([Begin(H(1, 1)), O(1, 11)], Whole), Sends([E(1), Begin(H(2, 2))], Lost);
    var e3 := Sends([O(2, 11), O(2, 12), E(2)], Whole);
    TwoMsgs(NOBODY, Entered(y0, e1), Begin(H(1, 1)), O(1, 11), 5);
    var y1 := Step(y0, e1);
    TwoMsgs(y1.p, y1.c, E(1), Begin(H(2, 2)), 6);
    var y2 := Step(y1, e2);
    MergedIsCharged(y2, e3);
    RunOfTwo(y0, e1, e2);
    LastIsCharged(y0, [e1, e2], e3, y2, CountMatch);
    assert [e1, e2] + [e3] == [e1, e2, e3];
  }

  lemma {:induction false} MergedIsCharged(y: System, e: Event)
    requires e == Sends([O(2, 11), O(2, 12), E(2)], Whole) && y.next == 7
    requires y.p.cur == Some(Sending(H(2, 2), map[], 0))
    requires y.c.open.Some? && y.c.open.value.head == H(1, 1) && y.c.open.value.received == 1
    ensures CanTake(y, e) && Finding(CountMatch, Violation, NoReason) in Reported(y, e)
  {
    var c := Entered(y, e);
    var c1 := AfterMsg(c, O(2, 11), 7);
    var c2 := AfterMsg(c1, O(2, 12), 7);
    assert e.msgs[1..] == [O(2, 12), E(2)] && e.msgs[1..][1..] == [E(2)] && [E(2)][1..] == [];
    TwoMsgs(y.p.Emit(O(2, 11)), c1, O(2, 12), E(2), 7);
    assert Finding(CountMatch, Violation, NoReason) in Judged(c2, E(2));
    assert FindingsOf(c1, e.msgs[1..], 7) == Judged(c1, O(2, 12)) + FindingsOf(c2, [E(2)], 7);
  }
}
