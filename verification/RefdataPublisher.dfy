/** The reference-data subscriber beside a conforming publisher: what it reports
    when nothing is lost, and when the channel becomes ready. */
module RefdataPublisher {
  import opened Core
  import opened Refdata
  import opened RefdataRuns

  /** The set a publisher serves, under its number. */
  datatype Served = Served(seqNo: u16, ids: set<u32>)

  type Publisher = Option<Served>

  /** Repeat the summary, define an instrument of the set, move to another set
      under the next number, withdraw the set, or start to serve. */
  datatype Action =
    | Announce
    | Define(id: u32, info: DefInfo)
    | Change(ids: set<u32>)
    | Withdraw
    | Start(set0: Served)

  predicate Publishable(ids: set<u32>) {
    ids != {} && |ids| < U32_MOD
  }

  predicate Legal(p: Publisher, a: Action) {
    match a
    case Announce => p.Some?
    case Define(id, _) => p.Some? && id in p.value.ids
    case Change(ids) => p.Some? && Publishable(ids)
    case Withdraw => true
    case Start(v) => p.None? && Publishable(v.ids)
  }

  function After(p: Publisher, a: Action): Publisher
    requires Legal(p, a)
  {
    match a
    case Announce => p
    case Define(_, _) => p
    case Change(ids) => Some(Served((p.value.seqNo + 1) % U16_MOD, ids))
    case Withdraw => None
    case Start(v) => Some(v)
  }

  function SummaryOf(v: Served): Summary
    requires Publishable(v.ids)
  {
    Summary(v.seqNo, |v.ids|)
  }

  /** What goes on the wire, on a window without a gap. */
  function Sent(p: Publisher, a: Action, frameSeq: u64): Event
    requires Legal(p, a) && (p.Some? ==> Publishable(p.value.ids))
  {
    match a
    case Define(id, info) => Def(id, p.value.seqNo, info, false)
    case Withdraw => Manifest(0, Summary(0, 0), Held(frameSeq, false))
    case _ => Manifest(1, SummaryOf(After(p, a).value), Held(frameSeq, false))
  }

  /** A valid channel is at the publisher's number, expects its set, has only
      instruments of it, and has frozen nothing else. */
  predicate Coupled(s: Chan, p: Publisher) {
    && Inv(s)
    && (p.Some? ==> Publishable(p.value.ids))
    && (s.valid ==>
          && p.Some?
          && s.roll.latestSeq == p.value.seqNo && s.roll.expectedCount == |p.value.ids|
          && s.roll.defs.Keys <= p.value.ids
          && s.prev == Some(SummaryOf(p.value))
          && (s.roll.frozen.Some? ==> s.roll.frozen.value.ids == p.value.ids))
  }

  /** Something other than the verdict on a withdrawn set is reported. */
  predicate Accuses(fs: seq<Finding>) {
    exists i :: 0 <= i < |fs| && fs[i].rule != ValidFlag
  }

  lemma SizeIs(keys: set<u32>, ids: set<u32>)
    requires keys <= ids && Publishable(ids)
    ensures |keys| <= |ids| && |keys| % U32_MOD == |keys| && (|keys| == |ids| <==> keys == ids)
  {
    SubsetSizes(keys, ids);
  }

  lemma DefineStep(s: Chan, p: Publisher, id: u32, info: DefInfo)
    requires Coupled(s, p) && Legal(p, Define(id, info))
    ensures Coupled(OnDef(s, id, p.value.seqNo, info), p)
    ensures DefFindings(s, id, p.value.seqNo, false) == []
  {
    InvStep(s, Def(id, p.value.seqNo, info, false));
    if s.valid {
      var keys := s.roll.defs.Keys + {id};
      SizeIs(keys, p.value.ids);
      assert s.roll.defs[id := info].Keys == keys;
      assert |s.roll.defs[id := info]| == |keys|;
    }
  }

  lemma SummaryStep(s: Chan, p: Publisher, a: Action, frameSeq: u64)
    requires Coupled(s, p) && Legal(p, a) && (a.Announce? || a.Change? || a.Start?)
    requires After(p, a).value.seqNo != 0
    ensures Coupled(Step(s, Sent(p, a, frameSeq)), After(p, a))
    ensures !Accuses(FindingsAt(s, Sent(p, a, frameSeq)))
  {
    InvStep(s, Sent(p, a, frameSeq));
    var v := After(p, a).value;
    assert !Incoherent(s, 1, SummaryOf(v)) && !Regressed(s, 1, SummaryOf(v));
    assert CheckFindings(s, 1, SummaryOf(v), false) == [];
  }

  lemma ActionStep(s: Chan, p: Publisher, a: Action, frameSeq: u64)
    requires Coupled(s, p) && Legal(p, a) && (After(p, a).Some? ==> After(p, a).value.seqNo != 0)
    ensures Coupled(Step(s, Sent(p, a, frameSeq)), After(p, a))
    ensures !Accuses(FindingsAt(s, Sent(p, a, frameSeq)))
  {
    match a
    case Define(id, info) => DefineStep(s, p, id, info);
    case Withdraw => InvStep(s, Sent(p, a, frameSeq));
    case Announce => SummaryStep(s, p, a, frameSeq);
    case Change(_) => SummaryStep(s, p, a, frameSeq);
    case Start(_) => SummaryStep(s, p, a, frameSeq);
  }

  // ---- runs --------------------------------------------------------------------

  predicate LegalAll(p: Publisher, acts: seq<Action>)
    decreases |acts|
  {
    acts == [] || (Legal(p, acts[0]) && LegalAll(After(p, acts[0]), acts[1..]))
  }

  /** The publisher never serves a set under the number 0. */
  predicate AwayFromZero(p: Publisher, acts: seq<Action>)
    requires LegalAll(p, acts)
    decreases |acts|
  {
    && (p.Some? ==> p.value.seqNo != 0)
    && (acts == [] || AwayFromZero(After(p, acts[0]), acts[1..]))
  }

  ghost predicate Silent(s: Chan, p: Publisher, acts: seq<Action>)
    requires LegalAll(p, acts) && (p.Some? ==> Publishable(p.value.ids))
    decreases |acts|
  {
    acts == [] ||
    (forall frameSeq: u64 ::
       && !Accuses(FindingsAt(s, Sent(p, acts[0], frameSeq)))
       && Silent(Step(s, Sent(p, acts[0], frameSeq)), After(p, acts[0]), acts[1..]))
  }

  /** Joined at any moment of a conforming publisher's life and with nothing
      lost, the subscriber reports nothing but verdicts on withdrawn sets, as
      long as no set is served under the number 0. */
  lemma {:induction false} LosslessIsSilent(s: Chan, p: Publisher, acts: seq<Action>)
    requires Coupled(s, p) && LegalAll(p, acts) && AwayFromZero(p, acts)
    ensures Silent(s, p, acts)
    decreases |acts|
  {
    if acts != [] {
      forall frameSeq: u64
        ensures !Accuses(FindingsAt(s, Sent(p, acts[0], frameSeq)))
        ensures Silent(Step(s, Sent(p, acts[0], frameSeq)), After(p, acts[0]), acts[1..])
      {
        ActionStep(s, p, acts[0], frameSeq);
        LosslessIsSilent(Step(s, Sent(p, acts[0], frameSeq)), After(p, acts[0]), acts[1..]);
      }
    }
  }

  lemma ColdIsCoupled(p: Publisher)
    requires p.Some? ==> Publishable(p.value.ids)
    ensures Coupled(COLD, p)
  {
  }

  /** In particular from the first datagram of a capture. */
  lemma LosslessCaptureIsSilent(p: Publisher, acts: seq<Action>)
    requires p.Some? ==> Publishable(p.value.ids)
    requires LegalAll(p, acts) && AwayFromZero(p, acts)
    ensures Silent(COLD, p, acts)
  {
    ColdIsCoupled(p);
    LosslessIsSilent(COLD, p, acts);
  }

  /** The channel is ready exactly when every instrument of the published set
      has been defined. */
  lemma ReadyExactlyWhenComplete(s: Chan, p: Publisher)
    requires Coupled(s, p) && s.valid
    ensures Ready(s.valid, s.roll) <==> s.roll.defs.Keys == p.value.ids
  {
    SizeIs(s.roll.defs.Keys, p.value.ids);
    assert |s.roll.defs| == |s.roll.defs.Keys|;
  }

  /** Zero is the exception the premise names: a repeated summary is charged if
      and only if its number is 0, although the step from 65535 to 0 is taken as
      an ordinary bump. */
  lemma RepeatedSummaryChargedExactlyAtZero(s: Chan, p: Publisher, frameSeq: u64)
    requires Coupled(s, p) && p.Some?
    ensures Accuses(FindingsAt(s, Sent(p, Announce, frameSeq))) <==> p.value.seqNo == 0
  {
    if p.value.seqNo == 0 {
      var fs := FindingsAt(s, Sent(p, Announce, frameSeq));
      assert fs == [Finding(SeqNonzero, Violation, NoReason)] && fs[0].rule != ValidFlag;
    } else {
      SummaryStep(s, p, Announce, frameSeq);
    }
  }

  /** The wrap itself passes, and the very next repetition is a violation. */
  lemma ZeroIsAcceptedOnce(s: Chan, p: Publisher, ids: set<u32>, frameSeq: u64)
    requires Coupled(s, p) && s.valid && p.value.seqNo == 0xFFFF && Publishable(ids)
    ensures var bump := Sent(p, Change(ids), frameSeq);
            && !Accuses(FindingsAt(s, bump))
            && Coupled(Step(s, bump), After(p, Change(ids)))
            && FindingsAt(Step(s, bump), Sent(After(p, Change(ids)), Announce, frameSeq))
               == [Finding(SeqNonzero, Violation, NoReason)]
  {
    var bump := Sent(p, Change(ids), frameSeq);
    InvStep(s, bump);
    assert CheckFindings(s, 1, bump.m, false) == [];
  }
}
