/** The reference-data subscriber beside a conforming publisher whose datagrams are
    lost, cut short or stripped of their header, and whose Reset Count may change:
    exactly what it is charged with. */
module RefdataUnderLoss {
  import opened Core
  import opened Refdata
  import opened RefdataRuns
  import opened RefdataPublisher

  /** A cut datagram keeps its header and its first messages. */
  datatype Fate = Lost | Whole | Cut(kept: nat)

  /** The publisher sends a datagram, restarts with whatever it then serves under
      another Reset Count than the port has heard last, or announces the end of its
      session on the other port; or a datagram without a whole header arrives. */
  datatype Sending =
    | Sends(acts: seq<Action>, frameSeq: u64, fate: Fate)
    | Restarts(now: Publisher)
    | Ends
    | Scrap

  /** The publisher, the subscriber and the port: whether it has heard anything in
      this era, whether it has missed something since that the next datagram will
      show, its taint, and whether the next datagram brings a new Reset Count. */
  datatype System = System(p: Publisher, s: Chan, heard: bool, missed: bool, dirty: bool, renewed: bool)

  /** What goes on the wire, on a window in this state. */
  function Wired(p: Publisher, a: Action, h: Held): Event
    requires Legal(p, a) && (p.Some? ==> Publishable(p.value.ids))
  {
    match a
    case Define(id, info) => Def(id, p.value.seqNo, info, h.dirty)
    case Withdraw => Manifest(0, Summary(0, 0), h)
    case _ => Manifest(1, SummaryOf(After(p, a).value), h)
  }

  predicate Fit(p: Publisher) {
    p.Some? ==> Publishable(p.value.ids)
  }

  predicate Doable(p: Publisher, acts: seq<Action>)
    decreases |acts|, 0
  {
    && Fit(p)
    && (acts == [] ||
        (Doable(p, acts[..|acts| - 1]) && Legal(AfterAll(p, acts[..|acts| - 1]), acts[|acts| - 1])))
  }

  function AfterAll(p: Publisher, acts: seq<Action>): (q: Publisher)
    requires Doable(p, acts)
    ensures Fit(q)
    decreases |acts|, 1
  {
    if acts == [] then p else After(AfterAll(p, acts[..|acts| - 1]), acts[|acts| - 1])
  }

  /** The subscriber after the messages of one datagram. */
  function Fed(s: Chan, p: Publisher, acts: seq<Action>, h: Held): Chan
    requires Doable(p, acts)
  {
    if acts == [] then s
    else
      var init := acts[..|acts| - 1];
      Step(Fed(s, p, init, h), Wired(AfterAll(p, init), acts[|acts| - 1], h))
  }

  function Kept(acts: seq<Action>, fate: Fate): (kept: seq<Action>)
    ensures kept <= acts
  {
    match fate
    case Lost => []
    case Whole => acts
    case Cut(n) => if n < |acts| then acts[..n] else acts
  }

  lemma {:induction false} KeptIsDoable(p: Publisher, acts: seq<Action>, n: nat)
    requires Doable(p, acts) && n <= |acts|
    ensures Doable(p, acts[..n])
    decreases |acts|
  {
    if n < |acts| {
      KeptIsDoable(p, acts[..|acts| - 1], n);
      assert acts[..|acts| - 1][..n] == acts[..n];
    } else {
      assert acts[..n] == acts;
    }
  }

  /** The state in which an arriving datagram's messages are judged. */
  function Opened(y: System, fate: Fate): System {
    System(y.p, if y.renewed then OnReset(y.s) else y.s, true, false,
           (!y.renewed && (y.dirty || y.missed)) || fate.Cut?, false)
  }

  predicate Enabled(y: System, e: Sending) {
    match e
    case Sends(acts, _, _) => Doable(y.p, acts)
    case Restarts(now) => Fit(now)
    case Ends => true
    case Scrap => true
  }

  function StepOn(y: System, e: Sending): System
    requires Enabled(y, e)
  {
    match e
    case Sends(acts, frameSeq, fate) =>
      var p' := AfterAll(y.p, acts);
      if fate.Lost? then y.(p := p', missed := y.missed || y.heard)
      else
        var kept, o := Kept(acts, fate), Opened(y, fate);
        KeptIsDoable(y.p, acts, |kept|);
        o.(p := p', s := Fed(o.s, y.p, kept, Held(frameSeq, o.dirty)))
    case Restarts(now) => y.(p := now, renewed := y.heard)
    case Ends => y.(s := Step(y.s, EndOfSession))
    case Scrap => y.(dirty := true)
  }

  // ---- what every run keeps ----------------------------------------------------

  /** The subscriber is where the publisher is, unless the window shows, or is
      about to show, that something is missing. */
  predicate LossInv(y: System) {
    && Fit(y.p) && Inv(y.s)
    && (!y.heard ==> !y.s.valid)
    && (y.dirty || y.missed || y.renewed || Coupled(y.s, y.p))
  }

  /** A summary under the number 0, which only the step from 65535 excuses. */
  predicate ZeroServed(s: Chan, p: Publisher, a: Action)
    requires Legal(p, a)
  {
    && (a.Announce? || a.Change? || a.Start?)
    && After(p, a).value.seqNo == 0 && !(s.seqEverSet && s.roll.latestSeq == 0xFFFF)
  }

  /** A violation other than the verdict on a withdrawn set. */
  predicate Charges(fs: seq<Finding>) {
    exists i :: 0 <= i < |fs| && fs[i].status == Violation && fs[i].rule != ValidFlag
  }

  predicate Mild(f: Finding) {
    f.status == Violation ==> f.rule == ValidFlag
  }

  lemma DirtySummaryIsMild(s: Chan, valid: u8, m: Summary)
    ensures forall f :: f in SummaryFindings(s, valid, m, true) ==> Mild(f)
  {
    assert forall f :: f in CheckFindings(s, valid, m, true) ==> Mild(f);
  }

  lemma MildNeverCharges(fs: seq<Finding>)
    requires forall f :: f in fs ==> Mild(f)
    ensures !Charges(fs)
  {
    assert forall i :: 0 <= i < |fs| ==> fs[i] in fs;
  }

  lemma DirtyEventNeverCharges(s: Chan, e: Event)
    requires (e.Manifest? ==> e.h.dirty) && (e.Def? ==> e.dirty)
    ensures !Charges(FindingsAt(s, e))
  {
    if e.Manifest? { DirtySummaryIsMild(s, e.valid, e.m); }
    MildNeverCharges(FindingsAt(s, e));
  }

  lemma {:induction false} DirtyNeverCharges(s: Chan, p: Publisher, a: Action, h: Held)
    requires Fit(p) && Legal(p, a) && h.dirty
    ensures !Charges(FindingsAt(s, Wired(p, a, h)))
  {
    DirtyEventNeverCharges(s, Wired(p, a, h));
  }

  lemma {:induction false} SummaryCharged(s: Chan, p: Publisher, a: Action, h: Held)
    requires Coupled(s, p) && Legal(p, a) && (a.Announce? || a.Change? || a.Start?) && !h.dirty
    ensures Charges(FindingsAt(s, Wired(p, a, h))) <==> ZeroServed(s, p, a)
    ensures Coupled(Step(s, Wired(p, a, h)), After(p, a))
  {
    var e, m := Wired(p, a, h), SummaryOf(After(p, a).value);
    InvStep(s, e);
    if ZeroServed(s, p, a) {
      assert FindingsAt(s, e)[0] == Finding(SeqNonzero, Violation, NoReason);
    } else {
      assert !Incoherent(s, 1, m) && !Regressed(s, 1, m);
      assert CheckFindings(s, 1, m, false) == [];
    }
  }

  lemma {:induction false} ZeroChargesExactly(s: Chan, p: Publisher, a: Action, h: Held)
    requires Coupled(s, p) && Legal(p, a) && !h.dirty
    ensures Charges(FindingsAt(s, Wired(p, a, h))) <==> ZeroServed(s, p, a)
    ensures Coupled(Step(s, Wired(p, a, h)), After(p, a))
  {
    match a
    case Define(id, info) => DefineStep(s, p, id, info);
    case Withdraw => InvStep(s, Wired(p, a, h));
    case Announce => SummaryCharged(s, p, a, h);
    case Change(_) => SummaryCharged(s, p, a, h);
    case Start(_) => SummaryCharged(s, p, a, h);
  }

  lemma {:induction false} FedInv(s: Chan, p: Publisher, acts: seq<Action>, h: Held)
    requires Doable(p, acts) && Inv(s)
    ensures Inv(Fed(s, p, acts, h))
    ensures Coupled(s, p) && !h.dirty ==> Coupled(Fed(s, p, acts, h), AfterAll(p, acts))
  {
    if acts != [] {
      var init, a := acts[..|acts| - 1], acts[|acts| - 1];
      FedInv(s, p, init, h);
      InvStep(Fed(s, p, init, h), Wired(AfterAll(p, init), a, h));
      if Coupled(s, p) && !h.dirty { ZeroChargesExactly(Fed(s, p, init, h), AfterAll(p, init), a, h); }
    }
  }

  lemma OpenedIsCoupled(y: System, fate: Fate)
    requires LossInv(y)
    ensures Inv(Opened(y, fate).s)
    ensures Opened(y, fate).dirty || Coupled(Opened(y, fate).s, y.p)
  {
  }

  lemma InvalidIsCoupled(s: Chan, p: Publisher)
    requires Inv(s) && !s.valid && Fit(p)
    ensures Coupled(s, p)
  {
  }

  lemma {:induction false} ArrivalKeeps(y: System, acts: seq<Action>, frameSeq: u64, fate: Fate)
    requires LossInv(y) && Doable(y.p, acts) && !fate.Lost?
    ensures LossInv(StepOn(y, Sends(acts, frameSeq, fate)))
  {
    var kept, o := Kept(acts, fate), Opened(y, fate);
    KeptIsDoable(y.p, acts, |kept|);
    OpenedIsCoupled(y, fate);
    FedInv(o.s, y.p, kept, Held(frameSeq, o.dirty));
  }

  lemma {:induction false} LossInvStep(y: System, e: Sending)
    requires LossInv(y) && Enabled(y, e)
    ensures LossInv(StepOn(y, e))
  {
    match e
    case Sends(acts, frameSeq, fate) =>
        if fate.Lost? {
        if !y.heard { InvalidIsCoupled(y.s, AfterAll(y.p, acts)); }
      } else {
        ArrivalKeeps(y, acts, frameSeq, fate);
      }
    case Restarts(now) => if !y.heard { InvalidIsCoupled(y.s, now); }
    case Ends => InvStep(y.s, EndOfSession);
    case Scrap =>
  }

  predicate CanRun(y: System, es: seq<Sending>)
    decreases |es|, 0
  {
    es == [] || (CanRun(y, es[..|es| - 1]) && Enabled(RunOn(y, es[..|es| - 1]), es[|es| - 1]))
  }

  function RunOn(y: System, es: seq<Sending>): System
    requires CanRun(y, es)
    decreases |es|, 1
  {
    if es == [] then y else StepOn(RunOn(y, es[..|es| - 1]), es[|es| - 1])
  }

  lemma {:induction false} LossInvRun(y: System, es: seq<Sending>)
    requires LossInv(y) && CanRun(y, es)
    ensures LossInv(RunOn(y, es))
  {
    if es != [] {
      LossInvRun(y, es[..|es| - 1]);
      LossInvStep(RunOn(y, es[..|es| - 1]), es[|es| - 1]);
    }
  }

  /** A capture that starts while the publisher serves `p`. */
  function Joining(p: Publisher): System {
    System(p, COLD, false, false, false, false)
  }

  // ---- the theorem ---------------------------------------------------------------

  lemma {:induction false} MessageChargedExactly(
    y: System, before: seq<Action>, a: Action, frameSeq: u64, fate: Fate)
    requires LossInv(y) && Doable(y.p, before) && Legal(AfterAll(y.p, before), a)
    ensures var o := Opened(y, fate);
            var h, p := Held(frameSeq, o.dirty), AfterAll(y.p, before);
            var s := Fed(o.s, y.p, before, h);
            Charges(FindingsAt(s, Wired(p, a, h))) <==> !o.dirty && ZeroServed(s, p, a)
  {
    var o := Opened(y, fate);
    var h, p := Held(frameSeq, o.dirty), AfterAll(y.p, before);
    OpenedIsCoupled(y, fate);
    FedInv(o.s, y.p, before, h);
    var s := Fed(o.s, y.p, before, h);
    if o.dirty { DirtyNeverCharges(s, p, a, h); } else { ZeroChargesExactly(s, p, a, h); }
  }

  /** Joined at any moment of a conforming publisher's life, and whatever is lost,
      cut or stripped on the reference-data port and however often its Reset Count
      changes: a message draws a violation, other than the verdict on a withdrawn
      set, if and only if it is a summary under the number 0 on a window that shows
      no loss, and not the step from 65535. */
  lemma {:induction false} ChargedExactlyAtZero(
    p0: Publisher, es: seq<Sending>, before: seq<Action>, a: Action, frameSeq: u64, fate: Fate)
    requires Fit(p0) && CanRun(Joining(p0), es)
    requires var y := RunOn(Joining(p0), es); Doable(y.p, before) && Legal(AfterAll(y.p, before), a)
    ensures var y := RunOn(Joining(p0), es);
            var o := Opened(y, fate);
            var h, p := Held(frameSeq, o.dirty), AfterAll(y.p, before);
            var s := Fed(o.s, y.p, before, h);
            Charges(FindingsAt(s, Wired(p, a, h))) <==> !o.dirty && ZeroServed(s, p, a)
  {
    LossInvRun(Joining(p0), es);
    MessageChargedExactly(RunOn(Joining(p0), es), before, a, frameSeq, fate);
  }
}
