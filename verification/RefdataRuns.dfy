/** The reference-data subscriber over whole runs: its invariant, what readiness
    means once a set is frozen, the undefined half of the modular order, and the
    one verdict each withdrawn set gets. */
module RefdataRuns {
  import opened Core
  import opened Refdata

  datatype Event =
    | Manifest(valid: u8, m: Summary, h: Held)
    | Def(id: u32, tag: u16, info: DefInfo, dirty: bool)
    | Reset
    | EndOfSession

  function Step(s: Chan, e: Event): Chan {
    match e
    case Manifest(valid, m, h) => OnSummary(s, valid, m, h)
    case Def(id, tag, info, _) => OnDef(s, id, tag, info)
    case Reset => OnReset(s)
    case EndOfSession => Chan(s.valid, s.seqEverSet, s.roll, s.prev, s.hadSet, s.pending, true)
  }

  function FindingsAt(s: Chan, e: Event): seq<Finding> {
    match e
    case Manifest(valid, m, h) => SummaryFindings(s, valid, m, h.dirty)
    case Def(id, tag, _, dirty) => DefFindings(s, id, tag, dirty)
    case Reset => []
    case EndOfSession => []
  }

  function Run(s: Chan, es: seq<Event>): Chan {
    if es == [] then s else Step(Run(s, es[..|es| - 1]), es[|es| - 1])
  }

  // ---- the modular order -----------------------------------------------------

  /** Of two numbers one is later than the other, and only one, except for equal
      ones and for those half the circle apart, of which neither is. */
  lemma LaterIsUndefinedHalfway(a: u16, b: u16)
    ensures !(IsLaterSeq(a, b) && IsLaterSeq(b, a))
    ensures !IsLaterSeq(a, b) && !IsLaterSeq(b, a) <==> a == b || (a - b) % U16_MOD == 0x8000
  {
  }

  /** A summary half the circle away neither advances nor regresses: it draws no
      finding of either rule and leaves the set and its number alone, but from
      then on counts are compared with its own. */
  lemma HalfwaySummaryMovesOnlyTheComparison(s: Chan, m: Summary, h: Held)
    requires s.valid && s.seqEverSet && (m.seqNo - s.roll.latestSeq) % U16_MOD == 0x8000 && m.seqNo != 0
    ensures var s' := OnSummary(s, 1, m, h);
            s'.roll == s.roll && s'.valid && s'.prev == Some(m)
    ensures forall f :: f in SummaryFindings(s, 1, m, h.dirty) ==> f.rule != NoRegress && f.rule != BumpNotByOne
  {
  }

  /** So it can hide a change of the announced count under an unchanged number. */
  lemma HalfwaySummaryHidesACountChange(h: Held)
    ensures var s := OnSummary(COLD, 1, Summary(1, 5), h);
            && (exists f :: f in SummaryFindings(s, 1, Summary(1, 6), h.dirty) && f.rule == CountChange)
            && SummaryFindings(OnSummary(s, 1, Summary(32769, 7), h), 1, Summary(1, 6), h.dirty) == []
  {
    var s := OnSummary(COLD, 1, Summary(1, 5), h);
    assert SummaryFindings(s, 1, Summary(1, 6), h.dirty)[0].rule == CountChange;
  }

  // ---- the invariant ---------------------------------------------------------

  predicate RollOk(r: Roll) {
    r.frozen.Some? ==>
      && r.frozen.value.seqNo == r.latestSeq
      && |r.frozen.value.ids| % U32_MOD == r.expectedCount
      && r.frozen.value.ids <= r.defs.Keys
  }

  /** The two validity flags are one, a valid channel expects at least one
      instrument, an invalid one holds nothing, and a verdict is held only while
      no set is established. */
  predicate Inv(s: Chan) {
    && s.valid == s.seqEverSet == s.prev.Some?
    && (s.valid ==> s.roll.expectedCount >= 1)
    && (!s.valid ==> s.roll == NO_ROLL && !s.hadSet)
    && (s.pending.Some? ==> !s.valid)
    && (s.roll.frozen.Some? ==> s.hadSet)
    && RollOk(s.roll)
  }

  lemma CollectedOk(r: Roll, id: u32, info: DefInfo)
    requires RollOk(r)
    ensures RollOk(Collected(r, id, info))
  {
    var defs := r.defs[id := info];
    assert defs.Keys == r.defs.Keys + {id} && |defs| == |defs.Keys|;
  }

  lemma InvStep(s: Chan, e: Event)
    requires Inv(s)
    ensures Inv(Step(s, e))
  {
    if e.Def? {
      CollectedOk(s.roll, e.id, e.info);
    }
  }

  lemma {:induction false} InvRun(es: seq<Event>)
    ensures Inv(Run(COLD, es))
  {
    if es != [] {
      InvRun(es[..|es| - 1]);
      InvStep(Run(COLD, es[..|es| - 1]), es[|es| - 1]);
    }
  }

  // ---- what ready means ------------------------------------------------------

  lemma {:induction false} BelowCount(s: set<u32>, n: nat)
    requires forall x :: x in s ==> x < n
    ensures |s| <= n
    decreases n
  {
    if n > 0 {
      BelowCount(s - {n - 1}, n - 1);
    } else {
      assert s == {};
    }
  }

  lemma SubsetSizes(a: set<u32>, b: set<u32>)
    requires a <= b
    ensures |a| <= |b| && (|a| == |b| ==> a == b)
  {
    assert |b - a| == |b| - |a|;
    assert b - a == {} ==> a == b;
  }

  lemma SameRemainder(a: nat, b: nat, e: nat)
    requires a <= b <= U32_MOD && e >= 1 && a % U32_MOD == e
    ensures b % U32_MOD == e <==> a == b
  {
  }

  lemma ReadyIsTheFrozenSet(s: Chan)
    requires Inv(s) && s.roll.frozen.Some?
    ensures Ready(s.valid, s.roll) <==> s.roll.defs.Keys == s.roll.frozen.value.ids
  {
    var a, b := s.roll.frozen.value.ids, s.roll.defs.Keys;
    assert |s.roll.defs| == |b|;
    SubsetSizes(a, b);
    BelowCount(b, U32_MOD);
    SameRemainder(|a|, |b|, s.roll.expectedCount);
  }

  /** Once the set is frozen the channel is ready exactly while its definitions
      are those of the frozen set, in every reachable state. */
  lemma ReadyExactlyTheFrozenSet(es: seq<Event>)
    requires Run(COLD, es).roll.frozen.Some?
    ensures var s := Run(COLD, es); Ready(s.valid, s.roll) <==> s.roll.defs.Keys == s.roll.frozen.value.ids
  {
    InvRun(es);
    ReadyIsTheFrozenSet(Run(COLD, es));
  }

  /** The set is frozen and holds a definition that is not of it. */
  predicate Spoiled(s: Chan, id: u32) {
    s.roll.frozen.Some? && id in s.roll.defs && id !in s.roll.frozen.value.ids
  }

  /** What starts the collection over: a reset, a Valid=0, or a later number. */
  predicate Renews(s: Chan, e: Event) {
    || e.Reset?
    || (e.Manifest? && e.valid == 0)
    || (e.Manifest? && e.valid == 1 && IsLaterSeq(e.m.seqNo, s.roll.latestSeq))
  }

  lemma ForeignDefinitionSpoils(s: Chan, id: u32, info: DefInfo, dirty: bool)
    requires Inv(s) && s.roll.frozen.Some? && id !in s.roll.frozen.value.ids
    ensures Spoiled(OnDef(s, id, s.roll.latestSeq, info), id)
    ensures Finding(SetChange, StatusFor(!dirty), NoReason) in DefFindings(s, id, s.roll.latestSeq, dirty)
  {
  }

  predicate NothingRenews(s: Chan, es: seq<Event>) {
    forall i :: 0 <= i < |es| ==> !Renews(Run(s, es[..i]), es[i])
  }

  /** One foreign definition keeps the channel unready, whatever else arrives,
      until the next bump, Valid=0 or reset. */
  lemma {:induction false} SpoiledUntilRenewed(s: Chan, id: u32, es: seq<Event>)
    requires Inv(s) && Spoiled(s, id) && NothingRenews(s, es)
    ensures Inv(Run(s, es)) && Spoiled(Run(s, es), id) && !Ready(Run(s, es).valid, Run(s, es).roll)
  {
    if es == [] {
      ReadyIsTheFrozenSet(s);
    } else {
      var init, e := es[..|es| - 1], es[|es| - 1];
      assert forall i :: 0 <= i < |init| ==> init[..i] == es[..i];
      SpoiledUntilRenewed(s, id, init);
      var t := Run(s, init);
      assert !Renews(t, e);
      InvStep(t, e);
      assert Spoiled(Step(t, e), id);
      ReadyIsTheFrozenSet(Step(t, e));
    }
  }

  // ---- one verdict for each withdrawn set --------------------------------------

  predicate OnValidFlag(f: Finding) { f.rule == ValidFlag }

  function Withdrawn(s: Chan, es: seq<Event>): nat {
    if es == [] then 0
    else
      var init, e := es[..|es| - 1], es[|es| - 1];
      Withdrawn(s, init) + if e.Manifest? && Arms(Run(s, init), e.valid) then 1 else 0
  }

  function Verdicts(s: Chan, es: seq<Event>): nat {
    if es == [] then 0
    else
      var init := es[..|es| - 1];
      Verdicts(s, init) + Count(FindingsAt(Run(s, init), es[|es| - 1]), OnValidFlag)
  }

  /** The verdicts given when the run ends. */
  function AtTheEnd(s: Chan, at: Evidence): seq<Finding> {
    if s.pending.Some? then [Resolve(s.pending.value, false, s.ended, at)] else []
  }

  predicate Accepted(s: Chan, valid: u8, m: Summary) {
    !Incoherent(s, valid, m) && !Regressed(s, valid, m)
  }

  lemma NoVerdictInChecks(s: Chan, valid: u8, m: Summary, dirty: bool)
    ensures Count(CheckFindings(s, valid, m, dirty), OnValidFlag) == 0
  {
    NoneCounted(CheckFindings(s, valid, m, dirty), OnValidFlag);
  }

  lemma VerdictsInSummary(s: Chan, valid: u8, m: Summary, dirty: bool)
    ensures Count(SummaryFindings(s, valid, m, dirty), OnValidFlag)
      == if valid == 1 && Accepted(s, valid, m) && s.pending.Some? then 1 else 0
  {
    if Accepted(s, valid, m) {
      NoVerdictInChecks(s, valid, m, dirty);
      CountAdds(CheckFindings(s, valid, m, dirty), LateFindings(s, valid), OnValidFlag);
      LateCount(s, valid);
    } else {
      NoneCounted(SummaryFindings(s, valid, m, dirty), OnValidFlag);
    }
  }

  lemma LateCount(s: Chan, valid: u8)
    ensures Count(LateFindings(s, valid), OnValidFlag) == if valid == 1 && s.pending.Some? then 1 else 0
  {
    if valid == 1 && s.pending.Some? {
      OneCounted(Resolve(s.pending.value, true, s.ended, Evidence(true, false)), OnValidFlag);
    }
  }

  lemma VerdictsAt(s: Chan, e: Event)
    ensures Count(FindingsAt(s, e), OnValidFlag)
      == if e.Manifest? && e.valid == 1 && Accepted(s, e.valid, e.m) && s.pending.Some? then 1 else 0
  {
    match e
    case Manifest(valid, m, h) => VerdictsInSummary(s, valid, m, h.dirty);
    case Def(id, tag, _, dirty) => NoneCounted(DefFindings(s, id, tag, dirty), OnValidFlag);
    case Reset =>
    case EndOfSession =>
  }

  /** Each Valid=0 that withdraws an established set gets exactly one verdict,
      from the next Valid=1 or from the end of the run. */
  lemma {:induction false} EachWithdrawalIsJudgedOnce(es: seq<Event>, at: Evidence)
    ensures Verdicts(COLD, es) + Count(AtTheEnd(Run(COLD, es), at), OnValidFlag) == Withdrawn(COLD, es)
  {
    if es != [] {
      var init, e := es[..|es| - 1], es[|es| - 1];
      EachWithdrawalIsJudgedOnce(init, at);
      InvRun(init);
      JudgedStep(Run(COLD, init), e, at);
    }
  }

  lemma {:induction false} JudgedStep(s: Chan, e: Event, at: Evidence)
    requires Inv(s)
    ensures Count(FindingsAt(s, e), OnValidFlag) + Count(AtTheEnd(Step(s, e), at), OnValidFlag)
      == Count(AtTheEnd(s, at), OnValidFlag) + if e.Manifest? && Arms(s, e.valid) then 1 else 0
  {
    VerdictsAt(s, e);
    EndCount(s, at);
    EndCount(Step(s, e), at);
  }

  lemma EndCount(s: Chan, at: Evidence)
    ensures Count(AtTheEnd(s, at), OnValidFlag) == if s.pending.Some? then 1 else 0
  {
    if s.pending.Some? {
      OneCounted(Resolve(s.pending.value, false, s.ended, at), OnValidFlag);
    }
  }

  // ---- which verdict ---------------------------------------------------------------

  /** A Valid=1 summary that is taken in at this point of the run. */
  predicate Serves(es: seq<Event>, i: int)
    requires 0 <= i < |es|
  {
    es[i].Manifest? && es[i].valid == 1 && Accepted(Run(COLD, es[..i]), 1, es[i].m)
  }

  /** Event i is the latest of its kind that no Valid=1 has settled. */
  predicate NotServedSince(es: seq<Event>, i: nat) {
    forall j :: i < j < |es| ==> !Serves(es, j)
  }

  /** The session was announced to end, and nothing was served since. */
  predicate EndAnnounced(es: seq<Event>) {
    exists i :: 0 <= i < |es| && es[i].EndOfSession? && NotServedSince(es, i)
  }

  /** Event i withdrew an established set, and nothing was served since. */
  predicate Withdrew(es: seq<Event>, i: int) {
    && 0 <= i < |es| && es[i].Manifest? && Arms(Run(COLD, es[..i]), es[i].valid)
    && NotServedSince(es, i)
  }

  lemma ServesInPrefix(es: seq<Event>, i: nat)
    requires es != [] && i < |es| - 1
    ensures Serves(es[..|es| - 1], i) <==> Serves(es, i)
  {
    assert es[..|es| - 1][..i] == es[..i];
  }

  lemma NotServedStep(es: seq<Event>, i: nat)
    requires es != [] && i < |es| - 1
    ensures NotServedSince(es, i) <==> NotServedSince(es[..|es| - 1], i) && !Serves(es, |es| - 1)
  {
    var init := es[..|es| - 1];
    if NotServedSince(es, i) {
      forall j | i < j < |init| ensures !Serves(init, j) { ServesInPrefix(es, j); }
    }
    if NotServedSince(init, i) && !Serves(es, |es| - 1) {
      forall j | i < j < |es| ensures !Serves(es, j) {
        if j < |init| { ServesInPrefix(es, j); }
      }
    }
  }

  lemma EndAnnouncedStep(es: seq<Event>)
    requires es != []
    ensures EndAnnounced(es) <==>
              es[|es| - 1].EndOfSession? || (EndAnnounced(es[..|es| - 1]) && !Serves(es, |es| - 1))
  {
    var init, n := es[..|es| - 1], |es| - 1;
    if es[n].EndOfSession? {
      assert NotServedSince(es, n);
    }
    if EndAnnounced(init) && !Serves(es, n) {
      var i :| 0 <= i < |init| && init[i].EndOfSession? && NotServedSince(init, i);
      NotServedStep(es, i);
      assert es[i].EndOfSession?;
    }
    if EndAnnounced(es) && !es[n].EndOfSession? {
      var i :| 0 <= i < |es| && es[i].EndOfSession? && NotServedSince(es, i);
      NotServedStep(es, i);
      assert init[i].EndOfSession?;
    }
  }

  /** The session mark is exactly an announced end that nothing served since. */
  lemma {:induction false} EndedIsAnnounced(es: seq<Event>)
    ensures Run(COLD, es).ended <==> EndAnnounced(es)
  {
    if es != [] {
      EndedIsAnnounced(es[..|es| - 1]);
      EndAnnouncedStep(es);
    }
  }

  /** A verdict is held for exactly the set withdrawn and not settled since, with
      the state of the window at that summary. */
  lemma {:induction false} HeldIsTheWithdrawal(es: seq<Event>)
    ensures Run(COLD, es).pending.Some? ==>
              exists i :: Withdrew(es, i) && Run(COLD, es).pending == Some(es[i].h)
    ensures forall i :: Withdrew(es, i) ==> Run(COLD, es).pending == Some(es[i].h)
  {
    if es != [] {
      var init, n := es[..|es| - 1], |es| - 1;
      HeldIsTheWithdrawal(init);
      InvRun(init);
      var s, t := Run(COLD, init), Run(COLD, es);
      forall i | Withdrew(es, i) ensures t.pending == Some(es[i].h) {
        if i < n {
          NotServedStep(es, i);
          assert init[..i] == es[..i];
          assert Withdrew(init, i);
        }
      }
      if t.pending.Some? {
        if es[n].Manifest? && Arms(s, es[n].valid) {
          assert Withdrew(es, n);
        } else {
          var i :| Withdrew(init, i) && s.pending == Some(init[i].h);
          assert init[..i] == es[..i];
          NotServedStep(es, i);
          assert Withdrew(es, i);
        }
      }
    }
  }

  /** When service resumes, the withdrawal of a set is charged if and only if no
      end of session was classified since the last Valid=1 and the withdrawing
      summary came on a clean window. */
  lemma ResumeVerdictExactly(es: seq<Event>, i: int, m: Summary, dirty: bool)
    requires Withdrew(es, i) && Accepted(Run(COLD, es), 1, m)
    ensures var fs := SummaryFindings(Run(COLD, es), 1, m, dirty);
            && (Finding(ValidFlag, Violation, NoReason) in fs <==> !EndAnnounced(es) && !es[i].h.dirty)
            && (Finding(ValidFlag, Pass, NoReason) in fs <==> EndAnnounced(es))
            && (Finding(ValidFlag, Unverifiable, Loss) in fs <==> !EndAnnounced(es) && es[i].h.dirty)
  {
    EndedIsAnnounced(es);
    HeldIsTheWithdrawal(es);
    var s := Run(COLD, es);
    var late := Resolve(es[i].h, true, s.ended, Evidence(true, false));
    assert LateFindings(s, 1) == [late];
    assert forall f :: f in CheckFindings(s, 1, m, dirty) ==> f.rule != ValidFlag;
    assert late in SummaryFindings(s, 1, m, dirty);
  }

  /** At the end of the run it is charged if and only if, in addition, the
      market-data port was seen and showed no gap that could have carried the
      end of the session. */
  lemma EndOfRunVerdictExactly(es: seq<Event>, i: int, at: Evidence)
    requires Withdrew(es, i)
    ensures var fs := AtTheEnd(Run(COLD, es), at);
            && |fs| == 1
            && (fs[0].status == Violation
                <==> !EndAnnounced(es) && !es[i].h.dirty && at.mktObserved && !at.mktDirty)
            && (fs[0].status == Pass <==> EndAnnounced(es))
  {
    EndedIsAnnounced(es);
    HeldIsTheWithdrawal(es);
  }

  // ---- the count under an unchanged number ---------------------------------------

  /** The summary taken in last. */
  predicate TakenLast(es: seq<Event>, i: int) {
    0 <= i < |es| && Serves(es, i) && NotServedSince(es, i)
  }

  lemma TakenIn(s: Chan, m: Summary, h: Held)
    requires Inv(s) && Accepted(s, 1, m)
    ensures var t := OnSummary(s, 1, m, h);
            t.prev == Some(m) && (m.seqNo == t.roll.latestSeq || (m.seqNo - t.roll.latestSeq) % U16_MOD == 0x8000)
  {
    LaterIsUndefinedHalfway(m.seqNo, s.roll.latestSeq);
  }

  lemma NotTakenIn(s: Chan, e: Event)
    requires Inv(s) && !(e.Manifest? && e.valid == 1 && Accepted(s, 1, e.m)) && Step(s, e).valid
    ensures s.valid && Step(s, e).prev == s.prev && Step(s, e).roll.latestSeq == s.roll.latestSeq
  {
  }

  /** A valid channel compares with the summary taken in last, whose number is
      the current one or half the circle away from it. */
  lemma {:induction false} ComparedWithTheLast(es: seq<Event>) returns (i: nat)
    requires Run(COLD, es).valid
    ensures TakenLast(es, i) && Run(COLD, es).prev == Some(es[i].m)
    ensures var s := Run(COLD, es);
            es[i].m.seqNo == s.roll.latestSeq || (es[i].m.seqNo - s.roll.latestSeq) % U16_MOD == 0x8000
  {
    var init, n := es[..|es| - 1], |es| - 1;
    InvRun(init);
    if Serves(es, n) {
      TakenIn(Run(COLD, init), es[n].m, es[n].h);
      i := n;
    } else {
      NotTakenIn(Run(COLD, init), es[n]);
      i := ComparedWithTheLast(init);
      ServesInPrefix(es, i);
      NotServedStep(es, i);
    }
  }

  lemma TakenLastIsOne(es: seq<Event>, i: int, k: int)
    requires TakenLast(es, i) && TakenLast(es, k)
    ensures i == k
  {
  }

  lemma {:induction false} LastIsCompared(es: seq<Event>, i: int)
    requires Run(COLD, es).valid && TakenLast(es, i)
    ensures var s := Run(COLD, es);
            && s.prev == Some(es[i].m)
            && (es[i].m.seqNo == s.roll.latestSeq || (es[i].m.seqNo - s.roll.latestSeq) % U16_MOD == 0x8000)
  {
    var k := ComparedWithTheLast(es);
    TakenLastIsOne(es, i, k);
  }

  /** A count announced under the current number is reported as changed if and
      only if the summary taken in last had that number and another count. A
      last summary half the circle away hides the change. */
  lemma {:induction false} CountChangeExactly(es: seq<Event>, i: int, m: Summary, dirty: bool)
    requires Run(COLD, es).valid && TakenLast(es, i) && m.seqNo == Run(COLD, es).roll.latestSeq && m.seqNo != 0
    ensures (exists f :: f in SummaryFindings(Run(COLD, es), 1, m, dirty) && f.rule == CountChange)
      <==> es[i].m.seqNo == m.seqNo && es[i].m.count != m.count
    ensures es[i].m.seqNo != m.seqNo <==> (es[i].m.seqNo - m.seqNo) % U16_MOD == 0x8000
  {
    LastIsCompared(es, i);
    InvRun(es);
    CountChangeAt(Run(COLD, es), m, dirty);
  }

  lemma CountChangeAt(s: Chan, m: Summary, dirty: bool)
    requires Inv(s) && s.valid && m.seqNo == s.roll.latestSeq && m.seqNo != 0
    ensures (exists f :: f in SummaryFindings(s, 1, m, dirty) && f.rule == CountChange)
      <==> s.prev.value.seqNo == m.seqNo && s.prev.value.count != m.count
  {
    var f := Finding(CountChange, StatusFor(!dirty), NoReason);
    assert SummaryFindings(s, 1, m, dirty) == CheckFindings(s, 1, m, dirty);
    assert s.prev.value.seqNo == m.seqNo && s.prev.value.count != m.count ==> f in CheckFindings(s, 1, m, dirty);
  }

  // ---- the two ports ------------------------------------------------------------

  const CLEAN := Held(9, false)

  /** An established set of one instrument, withdrawn by a Valid=0. */
  const WITHDRAWN: seq<Event> :=
    [Manifest(1, Summary(1, 1), CLEAN), Def(7, 1, DefInfo(0, 0), false), Manifest(0, Summary(1, 1), CLEAN)]

  lemma WithdrawnIs()
    ensures var s := Run(COLD, WITHDRAWN); Inv(s) && !s.valid && s.pending == Some(CLEAN) && !s.ended
  {
    var es := WITHDRAWN;
    assert es[..2][..1] == es[..1] && es[..1][..0] == [] && es[..1] == [es[0]];
    var s1 := Run(COLD, es[..1]);
    assert Run(COLD, []) == COLD;
    assert s1 == Step(Run(COLD, []), es[0]);
    var s2 := Run(COLD, es[..2]);
    assert s2 == Step(s1, es[1]);
    var defs := map[7 := DefInfo(0, 0)];
    assert s1.roll.defs[7 := DefInfo(0, 0)] == defs && |defs| == 1;
    assert s2.hadSet;
    assert Run(COLD, es) == Step(s2, es[2]);
    InvRun(es);
  }

  /** The verdict still depends on the order in which the ports are drained: a
      publisher that ended its session, reset and serves again passes if its
      EndOfSession is classified before the new Valid=1, and is charged if that
      message is still held in the reorder window of the other port. */
  lemma BufferedEndOfSessionAccuses()
    ensures var s := Run(COLD, WITHDRAWN);
            var again := Summary(1, 1);
            && SummaryFindings(OnReset(Step(s, EndOfSession)), 1, again, false) == [Finding(ValidFlag, Pass, NoReason)]
            && SummaryFindings(OnReset(s), 1, again, false) == [Finding(ValidFlag, Violation, NoReason)]
  {
    WithdrawnIs();
  }

  /** And it does not ask whether that message was lost. When it was, the end of
      the run leaves the withdrawal undecided, since the other port shows the gap;
      a new Valid=1 charges it all the same, whatever that port shows. */
  lemma LostEndOfSessionAccuses(at: Evidence)
    requires at.mktObserved && at.mktDirty
    ensures var s := Run(COLD, WITHDRAWN);
            && AtTheEnd(s, at) == [Finding(ValidFlag, Unverifiable, Loss)]
            && SummaryFindings(OnReset(s), 1, Summary(1, 1), false) == [Finding(ValidFlag, Violation, NoReason)]
            && Resolve(s.pending.value, true, s.ended, at) == Finding(ValidFlag, Violation, NoReason)
  {
    WithdrawnIs();
  }

  // ---- when the other rules are charged -------------------------------------------

  predicate Draws(fs: seq<Finding>, rule: Rule, status: Status) {
    exists i :: 0 <= i < |fs| && fs[i].rule == rule && fs[i].status == status
  }

  function GradeOf(dirty: bool): Status {
    if dirty then Unverifiable else Violation
  }

  /** How far a number lies past the current one on the circle of 65536. */
  function Ahead(s: Chan, seqNo: u16): nat {
    if seqNo >= s.roll.latestSeq then seqNo - s.roll.latestSeq else seqNo + 0x1_0000 - s.roll.latestSeq
  }

  lemma AheadIs(s: Chan, seqNo: u16)
    ensures IsLaterSeq(seqNo, s.roll.latestSeq) <==> 0 < Ahead(s, seqNo) < 0x8000
    ensures IsLaterSeq(s.roll.latestSeq, seqNo) <==> Ahead(s, seqNo) > 0x8000
    ensures seqNo == (s.roll.latestSeq + 1) % U16_MOD <==> Ahead(s, seqNo) == 1
    ensures seqNo == s.roll.latestSeq <==> Ahead(s, seqNo) == 0
  {
  }

  lemma DrawsAppend(a: seq<Finding>, b: seq<Finding>, rule: Rule, st: Status)
    ensures Draws(a + b, rule, st) <==> Draws(a, rule, st) || Draws(b, rule, st)
  {
    assert forall i :: 0 <= i < |a| ==> (a + b)[i] == a[i];
    assert forall i :: 0 <= i < |b| ==> (a + b)[|a| + i] == b[i];
  }

  lemma OneDraws(fs: seq<Finding>, rule: Rule, st: Status)
    requires |fs| <= 1
    ensures Draws(fs, rule, st) <==> fs != [] && fs[0].rule == rule && fs[0].status == st
  {
  }

  lemma SummaryParts(s: Chan, valid: u8, m: Summary, dirty: bool, rule: Rule, st: Status)
    requires Accepted(s, valid, m) && rule != ValidFlag
    ensures Draws(SummaryFindings(s, valid, m, dirty), rule, st)
      <==> Draws(CheckFindings(s, valid, m, dirty), rule, st)
  {
    DrawsAppend(CheckFindings(s, valid, m, dirty), LateFindings(s, valid), rule, st);
    OneDraws(LateFindings(s, valid), rule, st);
  }

  lemma ChecksAre(s: Chan, valid: u8, m: Summary, dirty: bool, st: Status)
    ensures var fs := CheckFindings(s, valid, m, dirty);
            && (Draws(fs, BumpNotByOne, st)
                <==> st == GradeOf(dirty) && s.seqEverSet && valid == 1 && 1 < Ahead(s, m.seqNo) < 0x8000)
            && (Draws(fs, StateMachine, st)
                <==> st == GradeOf(dirty)
                     && (valid > 1 || (valid == 1 && m.count == 0 && s.hadSet && Ahead(s, m.seqNo) == 0)))
  {
    AheadIs(s, m.seqNo);
    var a := If(s.seqEverSet && valid == 1 && IsLaterSeq(m.seqNo, s.roll.latestSeq)
                && m.seqNo != (s.roll.latestSeq + 1) % U16_MOD, Finding(BumpNotByOne, StatusFor(!dirty), NoReason));
    var b := If(s.prev.Some? && valid == 1 && m.seqNo == s.prev.value.seqNo && m.count != s.prev.value.count,
                Finding(CountChange, StatusFor(!dirty), NoReason));
    var c := If(valid > 1 || (valid == 1 && m.count == 0 && s.hadSet && m.seqNo == s.roll.latestSeq),
                Finding(StateMachine, StatusFor(!dirty), NoReason));
    PartsDraw(a, b, c, BumpNotByOne, st);
    PartsDraw(a, b, c, StateMachine, st);
  }

  lemma PartsDraw(a: seq<Finding>, b: seq<Finding>, c: seq<Finding>, rule: Rule, st: Status)
    requires |a| <= 1 && |b| <= 1 && |c| <= 1
    ensures Draws(a + b + c, rule, st)
      <==> (a != [] && a[0].rule == rule && a[0].status == st)
           || (b != [] && b[0].rule == rule && b[0].status == st)
           || (c != [] && c[0].rule == rule && c[0].status == st)
  {
    DrawsAppend(a + b, c, rule, st);
    DrawsAppend(a, b, rule, st);
    OneDraws(a, rule, st);
    OneDraws(b, rule, st);
    OneDraws(c, rule, st);
  }

  /** In every reachable state, a summary of a valid channel whose number lies past the
      current one is reported if and only if it is not the next, one that lies behind
      it always is, and one half the circle away never is: as a violation on a clean
      window, unless the summary is incoherent. */
  lemma {:induction false} NumberChargedExactly(es: seq<Event>, m: Summary, dirty: bool)
    requires Run(COLD, es).valid && !Incoherent(Run(COLD, es), 1, m)
    ensures var s := Run(COLD, es);
            var fs, ahead := SummaryFindings(s, 1, m, dirty), Ahead(s, m.seqNo);
            && (Draws(fs, BumpNotByOne, GradeOf(dirty)) <==> 1 < ahead < 0x8000)
            && (Draws(fs, NoRegress, GradeOf(dirty)) <==> ahead > 0x8000)
  {
    var s := Run(COLD, es);
    InvRun(es);
    AheadIs(s, m.seqNo);
    var fs := SummaryFindings(s, 1, m, dirty);
    if Accepted(s, 1, m) {
      ChecksAre(s, 1, m, dirty, GradeOf(dirty));
      SummaryParts(s, 1, m, dirty, BumpNotByOne, GradeOf(dirty));
      SummaryParts(s, 1, m, dirty, NoRegress, GradeOf(dirty));
    } else {
      assert |fs| == 1 && fs[0].rule == NoRegress;
    }
  }

  /** A summary is incoherent, and dropped, if and only if it serves under the number
      0, other than straight after 65535, or starts or moves a set with no instrument. */
  lemma {:induction false} IncoherentExactly(es: seq<Event>, valid: u8, m: Summary, dirty: bool)
    ensures var s := Run(COLD, es);
            Draws(SummaryFindings(s, valid, m, dirty), SeqNonzero, GradeOf(dirty))
            <==> valid == 1
                 && ((m.seqNo == 0 && !(s.valid && s.roll.latestSeq == 65535))
                     || (m.count == 0 && (!s.valid || 0 < Ahead(s, m.seqNo) < 0x8000)))
  {
    var s := Run(COLD, es);
    InvRun(es);
    AheadIs(s, m.seqNo);
    var fs := SummaryFindings(s, valid, m, dirty);
    if Incoherent(s, valid, m) {
      assert |fs| == 1 && fs[0].rule == SeqNonzero;
    } else if Accepted(s, valid, m) {
      SummaryParts(s, valid, m, dirty, SeqNonzero, GradeOf(dirty));
    }
  }

  /** The valid flag is charged if and only if it is neither 0 nor 1, or serves an
      empty set under the number of one that was established. */
  lemma {:induction false} FlagChargedExactly(es: seq<Event>, valid: u8, m: Summary, dirty: bool)
    requires Accepted(Run(COLD, es), valid, m)
    ensures var s := Run(COLD, es);
            Draws(SummaryFindings(s, valid, m, dirty), StateMachine, GradeOf(dirty))
            <==> valid > 1 || (valid == 1 && m.count == 0 && s.hadSet && Ahead(s, m.seqNo) == 0)
  {
    ChecksAre(Run(COLD, es), valid, m, dirty, GradeOf(dirty));
    SummaryParts(Run(COLD, es), valid, m, dirty, StateMachine, GradeOf(dirty));
  }

  /** In every reachable state a definition of a valid channel is charged with its tag
      if and only if that is not the current number; under the current one, as foreign
      if and only if the set is frozen without it, and as too many if and only if with
      it there are more than announced. */
  lemma {:induction false} DefinitionChargedExactly(es: seq<Event>, id: u32, tag: u16, dirty: bool)
    requires Run(COLD, es).valid
    ensures var s := Run(COLD, es);
            var fs := DefFindings(s, id, tag, dirty);
            && (Draws(fs, StaleTag, GradeOf(dirty)) <==> tag != s.roll.latestSeq)
            && (Draws(fs, SetChange, GradeOf(dirty))
                <==> tag == s.roll.latestSeq && s.roll.frozen.Some? && id !in s.roll.frozen.value.ids)
            && (Draws(fs, CountVsDistinct, GradeOf(dirty))
                <==> tag == s.roll.latestSeq
                     && |s.roll.defs.Keys + {id}| % 0x1_0000_0000 > s.roll.expectedCount)
  {
    var s := Run(COLD, es);
    InvRun(es);
    var fs := DefFindings(s, id, tag, dirty);
    if tag != s.roll.latestSeq {
      assert |fs| == 1 && fs[0].rule == StaleTag;
    } else {
      var a := If(Foreign(s.roll, id, tag), Finding(SetChange, StatusFor(!dirty), NoReason));
      var b := If(|s.roll.defs.Keys + {id}| % U32_MOD > s.roll.expectedCount,
                  Finding(CountVsDistinct, StatusFor(!dirty), NoReason));
      assert fs == a + b + [];
      PartsDraw(a, b, [], StaleTag, GradeOf(dirty));
      PartsDraw(a, b, [], SetChange, GradeOf(dirty));
      PartsDraw(a, b, [], CountVsDistinct, GradeOf(dirty));
    }
  }
}
