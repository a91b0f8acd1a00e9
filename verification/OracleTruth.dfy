/** The oracle beside a publisher that tells the truth: its book may hold orders
    when a lifecycle opens, and its snapshots list it as of their own number.
    Exactly when such a group matches, and over any interleaving of deltas, resets
    and groups, exactly when the publisher is suspected. */
module OracleTruth {
  import opened Core
  import opened Oracle
  import opened OracleRuns
  import IB = InstrBook
  import IR = InstrBookRuns
  import Gate
  import GT = GateTrust
  import MG = MboGroups

  // ---- the publisher's own book ---------------------------------------------

  function RestsAfter(live: Resting, m: IB.Msg): Resting {
    match m
    case OrderAdd(id, src, side, price, qty, flags, ts) =>
      if IB.IsHidden(flags) then live else live[id := IB.LiveOrder(side, src, price, qty, flags, ts)]
    case OrderCancel(id, _) => live - {id}
    case OrderExecute(id, _, flags, _, _, qty) =>
      if id !in live then live
      else
        var f := IB.Fill(live[id], qty, IB.IsFullFill(flags));
        if f.rest.Some? then live[id := f.rest.value] else live - {id}
    case Trade(_) => live
  }

  function Rests(live: Resting, ms: seq<IB.Msg>): Resting {
    if ms == [] then live else RestsAfter(Rests(live, ms[..|ms| - 1]), ms[|ms| - 1])
  }

  /** The checker's live orders move as the publisher's own book does. */
  lemma {:induction false} LiveOrdersRest(b: IB.Book, ms: seq<IB.Msg>)
    ensures IR.Run(b, ms).live == Rests(b.live, ms)
  {
    if ms != [] {
      LiveOrdersRest(b, ms[..|ms| - 1]);
      OneRests(IR.Run(b, ms[..|ms| - 1]), ms[|ms| - 1]);
    }
  }

  lemma OneRests(b: IB.Book, m: IB.Msg)
    ensures IB.Step(b, m).live == RestsAfter(b.live, m)
  {
    if m.OrderCancel? && m.id !in b.live { assert b.live - {m.id} == b.live; }
  }

  /** One lifecycle of an instrument's publisher: the orders that rest when it
      opens, the number of the last delta before it, and its deltas. A Reset Count
      change starts the numbers over; an InstrumentReset does not. */
  datatype Career = Career(initial: Resting, from: nat, ops: seq<IB.Msg>)
  {
    predicate Has(k: nat) { from <= k <= from + |ops| }

    function BookAt(k: nat): Resting
      requires Has(k)
    {
      Rests(initial, ops[..k - from])
    }

    predicate Sends(d: GT.Delta) {
      from < d.perSeq <= from + |ops| && d.msg == ops[d.perSeq - from - 1]
    }

    /** No visible order rests when the lifecycle opens. */
    predicate OpensClear() {
      forall id :: id in initial ==> IB.IsHidden(initial[id].flags)
    }
  }

  // ---- orders the deltas never announced ------------------------------------

  /** A visible add of the order is among the messages. */
  predicate Announced(ms: seq<IB.Msg>, id: u64) {
    exists i :: 0 <= i < |ms| && ms[i].OrderAdd? && ms[i].id == id && !IB.IsHidden(ms[i].flags)
  }

  lemma AnnouncedStep(ms: seq<IB.Msg>, id: u64)
    requires ms != []
    ensures var m := ms[|ms| - 1];
            Announced(ms, id) <==>
              Announced(ms[..|ms| - 1], id) || (m.OrderAdd? && m.id == id && !IB.IsHidden(m.flags))
  {
    var init := ms[..|ms| - 1];
    if Announced(init, id) {
      var i :| 0 <= i < |init| && init[i].OrderAdd? && init[i].id == id && !IB.IsHidden(init[i].flags);
      assert ms[i] == init[i];
    }
    if Announced(ms, id) {
      var i :| 0 <= i < |ms| && ms[i].OrderAdd? && ms[i].id == id && !IB.IsHidden(ms[i].flags);
      assert i < |ms| - 1 ==> init[i] == ms[i];
    }
    assert ms[|ms| - 1].OrderAdd? && ms[|ms| - 1].id == id && !IB.IsHidden(ms[|ms| - 1].flags) ==> Announced(ms, id);
  }

  predicate SameAt(a: Resting, b: Resting, id: u64) {
    (id in a <==> id in b) && (id in a ==> a[id] == b[id])
  }

  /** What follows from a message for one order depends on that order alone. */
  lemma {:induction false} RestsAlike(a: Resting, b: Resting, m: IB.Msg, id: u64)
    ensures SameAt(a, b, id) || (m.OrderAdd? && m.id == id && !IB.IsHidden(m.flags)) ==>
              SameAt(RestsAfter(a, m), RestsAfter(b, m), id)
  {
  }

  lemma {:induction false} NothingNew(live: Resting, m: IB.Msg, id: u64)
    requires !(m.OrderAdd? && m.id == id && !IB.IsHidden(m.flags))
    ensures id in RestsAfter(live, m) ==> id in live && RestsAfter(live, m)[id].flags == live[id].flags
  {
  }

  /** Deltas from an empty book hold exactly the announced orders as the publisher
      does; of the others, the publisher holds what is left of its first book. */
  lemma {:induction false} FromEmpty(initial: Resting, ms: seq<IB.Msg>, id: u64)
    ensures Announced(ms, id) ==> SameAt(Rests(map[], ms), Rests(initial, ms), id)
    ensures !Announced(ms, id) ==>
              && id !in Rests(map[], ms)
              && (id in Rests(initial, ms) ==>
                    id in initial && Rests(initial, ms)[id].flags == initial[id].flags)
  {
    if ms != [] {
      var init, m := ms[..|ms| - 1], ms[|ms| - 1];
      FromEmpty(initial, init, id);
      AnnouncedStep(ms, id);
      RestsAlike(Rests(map[], init), Rests(initial, init), m, id);
      if !Announced(ms, id) {
        NothingNew(Rests(map[], init), m, id);
        NothingNew(Rests(initial, init), m, id);
      }
    }
  }

  /** A visible order of the first book that still rests at `k` and that no delta
      announced: the deltas alone cannot tell of it. */
  predicate Unannounced(c: Career, k: nat, id: u64)
    requires c.Has(k)
  {
    id in c.BookAt(k) && !IB.IsHidden(c.BookAt(k)[id].flags) && !Announced(c.ops[..k - c.from], id)
  }

  // ---- truthful snapshots ---------------------------------------------------

  /** A snapshot lists a book truthfully: each resting order with its fields, and
      otherwise at most hidden orders. */
  predicate Truthful(snap: Records, live: Resting) {
    && (forall id :: id in live ==> id in snap && SameRecord(snap[id], live[id]))
    && (forall id :: id in snap && id !in live ==> IB.IsHidden(snap[id].flags))
  }

  /** A group that tells the truth about the publisher's book at its own number. */
  predicate TrueOf(g: MG.Group, c: Career) {
    c.Has(g.head.k) && Truthful(g.orders, c.BookAt(g.head.k))
  }

  /** The checker has one resting order as the publisher has it. */
  predicate Alike(book: Resting, live: Resting, snap: Records, id: u64) {
    && (id in book && !IB.IsHidden(book[id].flags) ==> id in live && SameOrder(book[id], live[id]))
    && (id in live && !IB.IsHidden(live[id].flags) ==> id in snap)
  }

  predicate SameOrder(a: IB.LiveOrder, b: IB.LiveOrder) {
    a.side == b.side && a.price == b.price && a.flags == b.flags && a.enterTS == b.enterTS
    && (IB.IsHidden(a.flags) || a.remaining == b.remaining)
  }

  /** Whatever book a group lists truthfully, its comparison shows no difference
      exactly when the checker holds that book's visible orders, and no other that
      the group does not list. */
  lemma {:induction false} TruthAgreesExactly(snap: Records, book: Resting, live: Resting)
    requires Truthful(snap, book)
    ensures Signature(snap, live) == {} <==> forall id: u64 :: Alike(book, live, snap, id)
  {
    forall id: u64 ensures AgreeOn(snap, live, id) <==> Alike(book, live, snap, id) { }
    EmptyExactlyWhenTheyAgree(snap, live);
  }

  /** What the checker holds: what the deltas it took in give from an empty book,
      whoever sent them. */
  lemma {:induction false} HeldBookIs(es: seq<GT.Event>, l: GT.Limits)
    ensures GT.Run(es, l).book.live == Rests(map[], GT.Msgs(GT.LifeOf(es).deltas))
  {
    GT.InvRun(es, l);
    LiveOrdersRest(GT.Empty(l), GT.Msgs(GT.LifeOf(es).deltas));
  }

  /** No publisher numbers a delta 0, so an unbroken count ends before the wrap. */
  lemma CountBeforeWrap(ds: seq<GT.Delta>)
    requires forall i :: 0 <= i < |ds| ==> ds[i].perSeq == GT.Nth(i) && ds[i].perSeq > 0
    ensures |ds| <= U32_MAX
  {
    assert GT.Nth(U32_MAX) == 0;
    assert forall i :: 0 <= i < |ds| ==> GT.Nth(i) > 0;
  }

  /** What the checker holds once it compares a group at `k` of a publisher whose
      deltas it took in: everything from 1 to `k`, so the lifecycle began with the
      numbers, and nothing it held before. */
  lemma {:induction false} ComparedBookIs(
    es: seq<GT.Event>, l: GT.Limits, c: Career, g: MG.Group, known: bool, gapless: bool)
    requires AllSent(GT.LifeOf(es).deltas, c)
    requires Obstacle(g, GT.Run(es, l).track.seqs, known, gapless).None?
    ensures c.from == 0 && g.head.k <= |c.ops| && GT.Run(es, l).book.live == Rests(map[], c.ops[..g.head.k])
    ensures GT.Msgs(GT.LifeOf(es).deltas) == c.ops[..g.head.k]
  {
    var ds := GT.LifeOf(es).deltas;
    GT.TrustIsEarnedExactly(es, l);
    assert forall i :: 0 <= i < |ds| ==> c.Sends(ds[i]);
    CountBeforeWrap(ds);
    GT.TrustedBookIsAsOfLast(es, l);
    assert ds[0].perSeq == 1 && ds[|ds| - 1].perSeq == |ds|;
    assert GT.Msgs(ds) == c.ops[..g.head.k];
    HeldBookIs(es, l);
  }

  predicate AllSent(ds: seq<GT.Delta>, c: Career) {
    forall i :: 0 <= i < |ds| ==> c.Sends(ds[i])
  }

  ghost function CycleAt(es: seq<GT.Event>, l: GT.Limits, g: MG.Group, known: bool, gapless: bool): Cycle {
    var s := GT.Run(es, l);
    CycleOf(g, s.track.seqs, known, gapless, Signature(g.orders, s.book.live))
  }

  // ---- one group ------------------------------------------------------------

  /** No visible order of the first book stands at `k` unannounced. */
  predicate NoneUnannounced(c: Career, k: nat) {
    c.Has(k) ==> forall id :: id in c.BookAt(k) ==> !Unannounced(c, k, id)
  }

  /** As-of-K, exactly: whatever was lost, repeated or reset, a truthful group of
      the current lifecycle is not compared, or it matches if and only if no
      visible order that rested when the lifecycle opened still stands at its
      number without having been added since. */
  lemma {:induction false} TruthMatchesExactly(
    es: seq<GT.Event>, l: GT.Limits, c: Career, g: MG.Group, known: bool, gapless: bool)
    requires AllSent(GT.LifeOf(es).deltas, c) && TrueOf(g, c)
    ensures var cycle := CycleAt(es, l, g, known, gapless);
            cycle.Skipped? || (cycle == Compared({}) <==> NoneUnannounced(c, g.head.k))
  {
    if CycleAt(es, l, g, known, gapless).Compared? {
      var k := g.head.k;
      ComparedBookIs(es, l, c, g, known, gapless);
      TruthAgreesExactly(g.orders, c.BookAt(k), Rests(map[], c.ops[..k]));
      AlikeExactly(c, k, g.orders);
    }
  }

  /** What the deltas alone give is the book, visible orders and all, exactly when
      none of those is unannounced. */
  lemma {:induction false} AlikeExactly(c: Career, k: nat, snap: Records)
    requires c.from == 0 && c.Has(k) && Truthful(snap, c.BookAt(k))
    ensures (forall id: u64 :: Alike(c.BookAt(k), Rests(map[], c.ops[..k]), snap, id)) <==> NoneUnannounced(c, k)
  {
    if NoneUnannounced(c, k) {
      forall id: u64 ensures Alike(c.BookAt(k), Rests(map[], c.ops[..k]), snap, id) {
        assert id in c.BookAt(k) ==> !Unannounced(c, k, id);
        FromEmpty(c.initial, c.ops[..k], id);
      }
    } else {
      var id :| id in c.BookAt(k) && Unannounced(c, k, id);
      FromEmpty(c.initial, c.ops[..k], id);
      assert !Alike(c.BookAt(k), Rests(map[], c.ops[..k]), snap, id);
    }
  }

  /** A lifecycle that opens with no visible order has none unannounced. */
  lemma {:induction false} ClearStartSuffices(c: Career, k: nat)
    requires c.OpensClear()
    ensures NoneUnannounced(c, k)
  {
    if c.Has(k) {
      forall id | id in c.BookAt(k) ensures !Unannounced(c, k, id) { FromEmpty(c.initial, c.ops[..k - c.from], id); }
    }
  }

  function RecordOf(o: IB.LiveOrder): MG.SnapOrder {
    MG.SnapOrder(o.side, o.flags, o.enterTS, o.price, o.remaining)
  }

  /** The group a publisher sends at `k`. */
  function Listing(c: Career, k: u32): MG.Group
    requires c.Has(k)
  {
    var book := c.BookAt(k);
    MG.Group(MG.Head(7, 0, 1, 0, k), |book|, map id | id in book :: RecordOf(book[id]), false, false, 1)
  }

  lemma ListingIsTrue(c: Career, k: u32)
    requires c.Has(k)
    ensures TrueOf(Listing(c, k), c)
  {
  }

  /** And a clear start is needed: whatever book with a visible order a lifecycle
      opens with, the publisher that next adds another order is suspected over its
      own truthful group at 1. */
  lemma {:induction false} ClearStartIsNeeded(initial: Resting, id: u64, other: IB.Msg, l: GT.Limits, at: Gate.Sight)
    requires id in initial && !IB.IsHidden(initial[id].flags)
    requires other.OrderAdd? && other.id != id && !IB.IsHidden(other.flags)
    ensures var c := Career(initial, 0, [other]);
            var es := [GT.Applied(GT.Delta(1, 0, other), at)];
            var cycle := CycleAt(es, l, Listing(c, 1), true, true);
            && c.Sends(GT.Delta(1, 0, other)) && TrueOf(Listing(c, 1), c)
            && cycle.Compared? && cycle.sig != {}
  {
    var c, d := Career(initial, 0, [other]), GT.Delta(1, 0, other);
    var es := [GT.Applied(d, at)];
    FirstDeltaIsTrusted(d, l, at);
    ListingIsTrue(c, 1);
    StillUnannounced(c, id);
    ComparesAtItsNumber(es, l, Listing(c, 1));
    TruthMatchesExactly(es, l, c, Listing(c, 1), true, true);
  }

  lemma {:induction false} StillUnannounced(c: Career, id: u64)
    requires c.from == 0 && |c.ops| == 1 && c.ops[0].OrderAdd? && c.ops[0].id != id
    requires id in c.initial && !IB.IsHidden(c.initial[id].flags)
    ensures Unannounced(c, 1, id)
  {
    assert c.ops[..1 - c.from] == c.ops && c.ops[..|c.ops| - 1] == [];
    assert Rests(c.initial, []) == c.initial;
    assert c.BookAt(1) == RestsAfter(c.initial, c.ops[0]);
  }

  lemma {:induction false} ComparesAtItsNumber(es: seq<GT.Event>, l: GT.Limits, g: MG.Group)
    requires GT.Run(es, l).track.seqs == Gate.Seqs(Some(g.head.k), true, false)
    requires !g.structural && !g.dirty
    ensures CycleAt(es, l, g, true, true).Compared?
  {
  }

  lemma {:induction false} FirstDeltaIsTrusted(d: GT.Delta, l: GT.Limits, at: Gate.Sight)
    requires d.perSeq == 1
    ensures var es := [GT.Applied(d, at)];
            && GT.LifeOf(es).deltas == [d]
            && GT.Run(es, l) == GT.Step(GT.Inst(Gate.COLD, GT.Empty(l)), es[0], l)
            && GT.Run(es, l).track.seqs == Gate.Seqs(Some(1), true, false)
  {
    var es := [GT.Applied(d, at)];
    assert es[..0] == [] && [] + [d] == [d];
  }

  // ---- deltas and groups of one instrument, in any interleaving -------------

  /** The market-data port brings something, or a completed group is judged.
      `life` says in which lifecycle of the publisher it was sent. */
  datatype Turn = Heard(e: GT.Event, life: nat) | Judged(g: MG.Group, known: bool, gapless: bool, life: nat)

  predicate EndsLife(t: Turn) {
    t.Heard? && (t.e.InstrReset? || t.e.Wiped?)
  }

  function HeardIn(ts: seq<Turn>): seq<GT.Event> {
    if ts == [] then []
    else HeardIn(ts[..|ts| - 1]) + (if ts[|ts| - 1].Heard? then [ts[|ts| - 1].e] else [])
  }

  /** How many lifecycles the checker has seen end. */
  function LivesIn(ts: seq<Turn>): nat {
    if ts == [] then 0 else LivesIn(ts[..|ts| - 1]) + (if EndsLife(ts[|ts| - 1]) then 1 else 0)
  }

  /** What a turn means to the oracle's memory: a reset or a wipe clears it. */
  ghost function CyclesOf(past: seq<Turn>, t: Turn, l: GT.Limits): seq<Cycle> {
    match t
    case Heard(_, _) => if EndsLife(t) then [Forgotten] else []
    case Judged(g, known, gapless, _) => [CycleAt(HeardIn(past), l, g, known, gapless)]
  }

  ghost function CyclesIn(ts: seq<Turn>, l: GT.Limits): seq<Cycle> {
    if ts == [] then []
    else CyclesIn(ts[..|ts| - 1], l) + CyclesOf(ts[..|ts| - 1], ts[|ts| - 1], l)
  }

  ghost function ReportOn(past: seq<Turn>, t: Turn, l: GT.Limits, confirmCycles: int): seq<Finding> {
    if t.Judged? then Report(Run(CyclesIn(past, l)), CyclesOf(past, t, l)[0], confirmCycles) else []
  }

  /** The oracle's findings over the turns. */
  ghost function ReportsIn(ts: seq<Turn>, l: GT.Limits, confirmCycles: int): seq<Finding> {
    if ts == [] then []
    else
      ReportsIn(ts[..|ts| - 1], l, confirmCycles) + ReportOn(ts[..|ts| - 1], ts[|ts| - 1], l, confirmCycles)
  }

  predicate TrueTurn(t: Turn, pub: nat -> Career) {
    match t
    case Heard(e, life) => e.Applied? ==> pub(life).Sends(e.delta)
    case Judged(g, _, _, life) => g.structural || TrueOf(g, pub(life))
  }

  /** Every group that is well-formed lists the publisher's book in the lifecycle in
      which it was captured. */
  predicate GroupsTold(ts: seq<Turn>, pub: nat -> Career) {
    forall i :: 0 <= i < |ts| && ts[i].Judged? ==> TrueTurn(ts[i], pub)
  }

  /** And every delta is its own. */
  predicate Told(ts: seq<Turn>, pub: nat -> Career) {
    forall i :: 0 <= i < |ts| ==> TrueTurn(ts[i], pub)
  }

  lemma LifeStep(es: seq<GT.Event>, e: GT.Event)
    ensures GT.LifeOf(es + [e]) == GT.LifeAfter(GT.LifeOf(es), e)
  {
    assert (es + [e])[..|es|] == es;
  }

  /** Where a group is compared, its own book is what the deltas taken in since the
      last reset or wipe give from an empty one. */
  ghost predicate Meets(past: seq<Turn>, t: Turn, pub: nat -> Career, l: GT.Limits) {
    t.Judged? && CycleAt(HeardIn(past), l, t.g, t.known, t.gapless).Compared? ==>
      var k, own := t.g.head.k, pub(t.life);
      && own.Has(k)
      && forall id: u64 ::
           Alike(own.BookAt(k), Rests(map[], GT.Msgs(GT.LifeOf(HeardIn(past)).deltas)), t.g.orders, id)
  }

  ghost predicate AllMeet(ts: seq<Turn>, pub: nat -> Career, l: GT.Limits) {
    ts == [] || (AllMeet(ts[..|ts| - 1], pub, l) && Meets(ts[..|ts| - 1], ts[|ts| - 1], pub, l))
  }

  lemma {:induction false} MatchesExactly(past: seq<Turn>, t: Turn, pub: nat -> Career, l: GT.Limits)
    requires TrueTurn(t, pub) && t.Judged?
    ensures var cycle := CycleAt(HeardIn(past), l, t.g, t.known, t.gapless);
            Meets(past, t, pub, l) <==> cycle.Skipped? || cycle == Compared({})
  {
    if CycleAt(HeardIn(past), l, t.g, t.known, t.gapless).Compared? {
      HeldBookIs(HeardIn(past), l);
      TruthAgreesExactly(t.g.orders, pub(t.life).BookAt(t.g.head.k), GT.Run(HeardIn(past), l).book.live);
    }
  }

  predicate Quiet(fs: seq<Finding>) {
    forall f :: f in fs ==> f.status == Pass || f.status == Unverifiable
  }

  predicate NoneDiverges(cs: seq<Cycle>) {
    forall i :: 0 <= i < |cs| && cs[i].Compared? ==> cs[i].sig == {}
  }

  lemma {:induction false} MatchesLeaveNoSuspect(cs: seq<Cycle>)
    requires NoneDiverges(cs)
    ensures Run(cs).None?
  {
    if cs != [] {
      MatchesLeaveNoSuspect(cs[..|cs| - 1]);
      assert cs[|cs| - 1].Compared? ==> cs[|cs| - 1].sig == {};
    }
  }

  lemma {:induction false} QuietExactly(c: Cycle, s: Option<Suspect>, confirmCycles: int)
    ensures Quiet(Report(s, c, confirmCycles)) <==> (c.Compared? ==> c.sig == {})
  {
    var fs := Report(s, c, confirmCycles);
    if c.Compared? { assert fs[0] in fs; }
  }

  lemma QuietAppend(a: seq<Finding>, b: seq<Finding>)
    ensures Quiet(a + b) <==> Quiet(a) && Quiet(b)
  {
    assert forall f :: f in a + b <==> f in a || f in b;
  }

  /** However deltas, resets and groups interleave, whatever is lost or repeated,
      and whichever lifecycle a delta is from: a publisher whose groups tell the
      truth is only passed or left unverifiable if and only if each group that is
      compared lists just what the deltas taken in since the last reset or wipe
      give from an empty book. */
  lemma {:induction false} SuspectedExactly(ts: seq<Turn>, pub: nat -> Career, l: GT.Limits, confirmCycles: int)
    requires GroupsTold(ts, pub)
    ensures Quiet(ReportsIn(ts, l, confirmCycles)) <==> AllMeet(ts, pub, l)
  {
    if ts != [] {
      var init, t := ts[..|ts| - 1], ts[|ts| - 1];
      assert forall i :: 0 <= i < |init| ==> init[i] == ts[i];
      SuspectedExactly(init, pub, l, confirmCycles);
      QuietAppend(ReportsIn(init, l, confirmCycles), ReportOn(init, t, l, confirmCycles));
      if t.Judged? {
        assert TrueTurn(t, pub);
        MatchesExactly(init, t, pub, l);
        QuietExactly(CyclesOf(init, t, l)[0], Run(CyclesIn(init, l)), confirmCycles);
      }
    }
  }

  // ---- what the interleaving may do -------------------------------------------

  /** No delta of a left lifecycle is the next one due of a count that began at 1
      after the reset or wipe. */
  predicate DeltasInTime(ts: seq<Turn>) {
    forall i :: 0 <= i < |ts| && ts[i].Heard? && ts[i].e.Applied? ==>
      ts[i].life == LivesIn(ts[..i]) || !GT.Whole(GT.LifeAfter(GT.LifeOf(HeardIn(ts[..i])), ts[i].e))
  }

  /** No group of a left lifecycle is judged while the deltas start over at 1.
      After an InstrumentReset they do not, and nothing is asked. */
  predicate GroupsInTime(ts: seq<Turn>, pub: nat -> Career) {
    forall i :: 0 <= i < |ts| && ts[i].Judged? ==> ts[i].life == LivesIn(ts[..i]) || pub(LivesIn(ts[..i])).from > 0
  }

  /** Every lifecycle whose deltas start at 1 opens with no visible order. */
  ghost predicate AllClear(pub: nat -> Career) {
    forall n :: pub(n).from == 0 ==> pub(n).OpensClear()
  }

  lemma PrefixInTime(ts: seq<Turn>, pub: nat -> Career)
    requires ts != [] && Told(ts, pub) && DeltasInTime(ts)
    ensures Told(ts[..|ts| - 1], pub) && DeltasInTime(ts[..|ts| - 1])
  {
    var init := ts[..|ts| - 1];
    assert forall i :: 0 <= i < |init| ==> init[i] == ts[i] && init[..i] == ts[..i];
  }

  /** An unbroken count is of the current lifecycle alone. */
  lemma {:induction false} WholeLifeIsSent(ts: seq<Turn>, pub: nat -> Career)
    requires Told(ts, pub) && DeltasInTime(ts) && GT.Whole(GT.LifeOf(HeardIn(ts)))
    ensures AllSent(GT.LifeOf(HeardIn(ts)).deltas, pub(LivesIn(ts)))
  {
    if ts != [] {
      var init, t := ts[..|ts| - 1], ts[|ts| - 1];
      PrefixInTime(ts, pub);
      if t.Heard? {
        LifeStep(HeardIn(init), t.e);
        LastTurnInTime(ts);
        assert TrueTurn(t, pub);
        WholeBefore(GT.LifeOf(HeardIn(init)), t.e);
        if GT.Whole(GT.LifeOf(HeardIn(init))) { WholeLifeIsSent(init, pub); }
        SentStep(GT.LifeOf(HeardIn(init)), t.e, pub(LivesIn(init)), pub(LivesIn(ts)));
      } else {
        assert HeardIn(ts) == HeardIn(init);
        WholeLifeIsSent(init, pub);
      }
    }
  }

  lemma LastTurnInTime(ts: seq<Turn>)
    requires ts != [] && DeltasInTime(ts)
    ensures var init, t := ts[..|ts| - 1], ts[|ts| - 1];
            t.Heard? && t.e.Applied? ==>
              t.life == LivesIn(init) || !GT.Whole(GT.LifeAfter(GT.LifeOf(HeardIn(init)), t.e))
  {
  }

  lemma WholeBefore(h: GT.Life, e: GT.Event)
    requires GT.Whole(GT.LifeAfter(h, e))
    ensures h.deltas == [] || GT.Whole(h) || e.InstrReset? || e.Wiped?
  {
    if e.Applied? { GT.WholeStep(h, e.delta); }
  }

  lemma {:induction false} SentStep(h: GT.Life, e: GT.Event, was: Career, now: Career)
    requires AllSent(h.deltas, was) && (e.Applied? ==> was.Sends(e.delta))
    requires !e.InstrReset? && !e.Wiped? ==> now == was
    ensures AllSent(GT.LifeAfter(h, e).deltas, now)
  {
  }

  lemma {:induction false} ComparedLifeIsSent(
    ts: seq<Turn>, pub: nat -> Career, l: GT.Limits, g: MG.Group, known: bool, gapless: bool)
    requires Told(ts, pub) && DeltasInTime(ts) && CycleAt(HeardIn(ts), l, g, known, gapless).Compared?
    ensures AllSent(GT.LifeOf(HeardIn(ts)).deltas, pub(LivesIn(ts)))
  {
    GT.TrustIsEarnedExactly(HeardIn(ts), l);
    WholeLifeIsSent(ts, pub);
  }

  lemma {:induction false} InTimeMeets(past: seq<Turn>, t: Turn, pub: nat -> Career, l: GT.Limits)
    requires Told(past, pub) && DeltasInTime(past) && TrueTurn(t, pub) && AllClear(pub) && t.Judged?
    requires t.life == LivesIn(past) || pub(LivesIn(past)).from > 0
    ensures Meets(past, t, pub, l)
  {
    MatchesExactly(past, t, pub, l);
    if CycleAt(HeardIn(past), l, t.g, t.known, t.gapless).Compared? {
      ComparedLifeIsSent(past, pub, l, t.g, t.known, t.gapless);
      ComparedBookIs(HeardIn(past), l, pub(LivesIn(past)), t.g, t.known, t.gapless);
      ClearStartSuffices(pub(t.life), t.g.head.k);
      TruthMatchesExactly(HeardIn(past), l, pub(t.life), t.g, t.known, t.gapless);
    }
  }

  /** In particular such a publisher is never even suspected, if its lifecycles
      open clear, no group outlives its own, and no delta of a left one opens or
      continues the new count. */
  lemma {:induction false} TruthIsNeverSuspected(
    ts: seq<Turn>, pub: nat -> Career, l: GT.Limits, confirmCycles: int)
    requires Told(ts, pub) && DeltasInTime(ts) && GroupsInTime(ts, pub) && AllClear(pub)
    ensures Quiet(ReportsIn(ts, l, confirmCycles))
  {
    AllInTimeMeet(ts, pub, l);
    SuspectedExactly(ts, pub, l, confirmCycles);
  }

  lemma {:induction false} AllInTimeMeet(ts: seq<Turn>, pub: nat -> Career, l: GT.Limits)
    requires Told(ts, pub) && DeltasInTime(ts) && GroupsInTime(ts, pub) && AllClear(pub)
    ensures AllMeet(ts, pub, l)
  {
    if ts != [] {
      var init, t := ts[..|ts| - 1], ts[|ts| - 1];
      PrefixInTime(ts, pub);
      assert forall i :: 0 <= i < |init| ==> init[i] == ts[i] && init[..i] == ts[..i];
      AllInTimeMeet(init, pub, l);
      assert TrueTurn(t, pub);
      if t.Judged? { InTimeMeets(init, t, pub, l); }
    }
  }

  /** A group captured in a lifecycle that was left in the meantime matches, where
      it is compared, exactly when the new lifecycle's deltas happen to give, from
      an empty book, the one the group lists. */
  lemma {:induction false} LeftGroupMatchesExactly(
    es: seq<GT.Event>, l: GT.Limits, now: Career, left: Career, g: MG.Group, known: bool, gapless: bool)
    requires AllSent(GT.LifeOf(es).deltas, now) && TrueOf(g, left)
    requires CycleAt(es, l, g, known, gapless).Compared?
    ensures now.from == 0 && g.head.k <= |now.ops|
    ensures CycleAt(es, l, g, known, gapless) == Compared({})
      <==> forall id: u64 :: Alike(left.BookAt(g.head.k), Rests(map[], now.ops[..g.head.k]), g.orders, id)
  {
    ComparedBookIs(es, l, now, g, known, gapless);
    TruthAgreesExactly(g.orders, left.BookAt(g.head.k), Rests(map[], now.ops[..g.head.k]));
  }

  /** The wiped tracker first took in deltas of the left lifecycle, `m` of them,
      then the new one's. */
  predicate TookLeftFirst(ds: seq<GT.Delta>, m: nat, left: Career, now: Career) {
    && m <= |ds|
    && (forall i :: 0 <= i < m ==> left.Sends(ds[i]))
    && (forall i :: m <= i < |ds| ==> now.Sends(ds[i]))
  }

  /** Then a truthful group of the new lifecycle is compared only if those were its
      predecessor's deltas 1 to `m` and the new one's first `m` were not taken in;
      and it matches exactly if that makes no difference to the book. */
  lemma {:induction false} LeftDeltasMatchExactly(
    es: seq<GT.Event>, l: GT.Limits, left: Career, now: Career, m: nat, g: MG.Group, known: bool, gapless: bool)
    requires left.from == now.from == 0 && TookLeftFirst(GT.LifeOf(es).deltas, m, left, now) && TrueOf(g, now)
    requires CycleAt(es, l, g, known, gapless).Compared?
    ensures m <= |left.ops| && m <= g.head.k <= |now.ops|
    ensures GT.Msgs(GT.LifeOf(es).deltas) == left.ops[..m] + now.ops[m..g.head.k]
    ensures CycleAt(es, l, g, known, gapless) == Compared({})
      <==> forall id: u64 :: Alike(now.BookAt(g.head.k), Rests(map[], left.ops[..m] + now.ops[m..g.head.k]),
                               g.orders, id)
  {
    var ds := GT.LifeOf(es).deltas;
    GT.TrustIsEarnedExactly(es, l);
    assert forall i :: 0 <= i < |ds| ==> if i < m then left.Sends(ds[i]) else now.Sends(ds[i]);
    CountBeforeWrap(ds);
    GT.TrustedBookIsAsOfLast(es, l);
    assert m > 0 ==> left.Sends(ds[m - 1]);
    TwoParts(ds, m, left, now, g.head.k);
    HeldBookIs(es, l);
    TruthAgreesExactly(g.orders, now.BookAt(g.head.k), GT.Run(es, l).book.live);
  }

  lemma TwoParts(ds: seq<GT.Delta>, m: nat, left: Career, now: Career, k: nat)
    requires left.from == now.from == 0 && TookLeftFirst(ds, m, left, now) && k == |ds| <= |now.ops|
    requires forall i :: 0 <= i < |ds| ==> ds[i].perSeq == i + 1
    ensures m <= |left.ops| && GT.Msgs(ds) == left.ops[..m] + now.ops[m..k]
  {
    assert m > 0 ==> left.Sends(ds[m - 1]);
    var ms := left.ops[..m] + now.ops[m..k];
    forall i | 0 <= i < |ds| ensures GT.Msgs(ds)[i] == ms[i] {
      assert if i < m then left.Sends(ds[i]) else now.Sends(ds[i]);
    }
  }

  /** After an InstrumentReset the numbers go on, so trust does not return and no
      group of any lifecycle is compared before the next wipe. */
  lemma {:induction false} ResetEndsComparison(
    es: seq<GT.Event>, l: GT.Limits, c: Career, g: MG.Group, known: bool, gapless: bool)
    requires AllSent(GT.LifeOf(es).deltas, c) && c.from > 0
    ensures CycleAt(es, l, g, known, gapless).Skipped?
  {
    if CycleAt(es, l, g, known, gapless).Compared? {
      ComparedBookIs(es, l, c, g, known, gapless);
    }
  }
}
