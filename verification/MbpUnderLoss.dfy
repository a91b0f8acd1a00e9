/** The market-by-price oracle end to end: a publisher whose groups show its
    ladders, snapshot datagrams lost or cut short and groups dropped anywhere, and
    deltas lost, repeated or late on the other port. */
module MbpUnderLoss {
  import opened Core
  import B = MbpBook
  import G = MbpGroups
  import L = MbpGroupsUnderLoss
  import I = MbpInstr
  import S = MbpSoundness

  /** The deltas behind each instrument's book. */
  type Books = u32 -> S.Publisher

  predicate Truth(d: G.Completed, books: Books) {
    var pub := books(d.instr);
    pub.WellFormed() && d.lastK <= |pub.ops| && d.levels == pub.LadderAt(d.lastK)
  }

  /** A group that ends shows the ladder at its own sequence number. */
  predicate EndsTruthfully(p: L.Publisher, m: G.Msg, books: Books) {
    m.End? && p.cur.Some? ==>
      var g := p.cur.value; Truth(G.Completed(g.instr, g.lastK, g.sent), books)
  }

  predicate AllTruthful(p: L.Publisher, ms: seq<G.Msg>, books: Books)
    requires L.EmitsAll(p, ms)
  {
    ms == [] ||
    (AllTruthful(p, ms[..|ms| - 1], books)
     && EndsTruthfully(L.EmitAll(p, ms[..|ms| - 1]), ms[|ms| - 1], books))
  }

  predicate RunTruthful(y: L.System, es: seq<L.Event>, books: Books)
    requires L.CanRun(y, es)
  {
    es == [] ||
    var init, e := es[..|es| - 1], es[|es| - 1];
    RunTruthful(y, init, books) && (e.Sends? ==> AllTruthful(L.Run(y, init).p, e.d.msgs, books))
  }

  function DoneBy(y: L.System, d: L.Datagram): seq<G.Completed>
    requires L.CanSend(y, d)
  {
    if d.Arrives() then G.MsgsDone(L.Entered(y, d), d.Kept()) else []
  }

  /** Every group the consumer completes over the run. */
  function AllDone(y: L.System, es: seq<L.Event>): seq<G.Completed>
    requires L.CanRun(y, es)
  {
    if es == [] then []
    else
      var init, e := es[..|es| - 1], es[|es| - 1];
      AllDone(y, init) + (if e.Sends? then DoneBy(L.Run(y, init), e.d) else [])
  }

  lemma {:induction false} PrefixTruthful(p: L.Publisher, ms: seq<G.Msg>, n: nat, books: Books)
    requires L.EmitsAll(p, ms) && AllTruthful(p, ms, books) && n <= |ms|
    ensures L.EmitsAll(p, ms[..n]) && AllTruthful(p, ms[..n], books)
  {
    if n < |ms| {
      PrefixTruthful(p, ms[..|ms| - 1], n, books);
      assert ms[..|ms| - 1][..n] == ms[..n];
    } else {
      assert ms[..n] == ms;
    }
  }

  lemma {:induction false} DoneIsTruth(p: L.Publisher, c: G.Con, ms: seq<G.Msg>, torn: bool, books: Books)
    requires L.Inv(p, c, false, torn) && L.EmitsAll(p, ms) && AllTruthful(p, ms, books)
    ensures forall d :: d in G.MsgsDone(c, ms) ==> Truth(d, books)
  {
    if ms != [] {
      var init, m := ms[..|ms| - 1], ms[|ms| - 1];
      DoneIsTruth(p, c, init, torn, books);
      L.FrameStep(p, c, init, torn);
      if m.End? {
        L.CompletedIsTruthful(L.EmitAll(p, init), G.OnMsgs(c, init), m, torn && !L.HasBegin(init));
      }
    }
  }

  lemma {:induction false} DoneByIsTruth(y: L.System, d: L.Datagram, books: Books)
    requires L.SysInv(y) && L.CanSend(y, d) && AllTruthful(y.p, d.msgs, books)
    ensures forall g :: g in DoneBy(y, d) ==> Truth(g, books)
  {
    if d.Arrives() {
      PrefixTruthful(y.p, d.msgs, |d.Kept()|, books);
      L.EnteredKeeps(y, d);
      DoneIsTruth(y.p, L.Entered(y, d), d.Kept(), y.torn || d.fate.Cut?, books);
    }
  }

  lemma {:induction false} RunDoneIsTruth(y: L.System, es: seq<L.Event>, books: Books)
    requires L.SysInv(y) && L.CanRun(y, es) && RunTruthful(y, es, books)
    ensures forall d :: d in AllDone(y, es) ==> Truth(d, books)
  {
    if es != [] {
      var init, e := es[..|es| - 1], es[|es| - 1];
      RunDoneIsTruth(y, init, books);
      L.RunKeeps(y, init);
      if e.Sends? { DoneByIsTruth(L.Run(y, init), e.d, books); }
    }
  }

  /** What reaches one instrument: its publisher's deltas, in any order and any
      number of times, and the groups completed for it. */
  predicate Fed(es: seq<I.Event>, instr: u32, pub: S.Publisher, done: seq<G.Completed>)
    requires pub.WellFormed()
  {
    forall i :: 0 <= i < |es| ==>
      match es[i]
      case DeltaEvent(_, _, _) => pub.Sends(es[i])
      case GroupEvent(g) => G.Completed(instr, g.lastK, g.levels) in done
      case ResetEvent => false
  }

  lemma FedIsSent(es: seq<I.Event>, instr: u32, books: Books, done: seq<G.Completed>)
    requires books(instr).WellFormed() && Fed(es, instr, books(instr), done)
    requires forall d :: d in done ==> Truth(d, books)
    ensures forall i :: 0 <= i < |es| ==> books(instr).Sends(es[i])
  {
    forall i | 0 <= i < |es| ensures books(instr).Sends(es[i]) {
      if es[i].GroupEvent? {
        var g := es[i].g;
        assert Truth(G.Completed(instr, g.lastK, g.levels), books);
      }
    }
  }

  /** From any point of a conforming rotation, with snapshot datagrams lost or
      cut short and groups dropped in any pattern, and deltas lost, repeated or
      late, no completed group is ever reported as differing from the
      reconstructed ladder, provided each group reaches past every delta missed
      so far. */
  lemma {:induction false} TruthSurvivesLossOnBothPorts(
    p: L.Publisher, first: nat, ds: seq<L.Event>, books: Books, instr: u32, es: seq<I.Event>, n: nat)
    requires p.Valid() && L.CanRun(L.Joining(p, first), ds)
    requires RunTruthful(L.Joining(p, first), ds, books)
    requires books(instr).WellFormed()
    requires Fed(es, instr, books(instr), AllDone(L.Joining(p, first), ds))
    requires S.StreamCovered(es)
    requires n < |es| && es[n].GroupEvent?
    ensures I.Verdict(I.Run(I.Fresh(0), es[..n]), es[n].g).status != Violation
  {
    var y := L.Joining(p, first);
    RunDoneIsTruth(y, ds, books);
    FedIsSent(es, instr, books, AllDone(y, ds));
    S.OracleSoundOverStreams(books(instr), es, n);
  }
}
