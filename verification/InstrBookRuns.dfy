/** What the market-by-order book guarantees over any sequence of messages:
    quantities are conserved through every order's life, and the bounded ID
    windows never turn into a verdict that unbounded sets would not give. */
module InstrBookRuns {
  import opened Core
  import opened IdWindow
  import opened InstrBook

  function Run(b: Book, ms: seq<Msg>): Book {
    if ms == [] then b else Step(Run(b, ms[..|ms| - 1]), ms[|ms| - 1])
  }

  function Empty(maxRemoved: int, maxHidden: int, maxTrades: int): Book {
    Book(map[], EmptyIds(maxRemoved), EmptyIds(maxHidden), EmptyIds(maxTrades))
  }

  // ---- the life of one order ----------------------------------------------

  /** What the messages say about one order ID: its entry quantity and the fills
      applied since its latest visible add, or that it left the book. */
  datatype Life = Never | Standing(entry: u64, filled: nat) | Gone

  function LifeAfter(l: Life, m: Msg, id: u64): Life {
    match m
    case OrderAdd(i, _, _, _, qty, flags, _) => if i == id && !IsHidden(flags) then Standing(qty, 0) else l
    case OrderCancel(i, _) => if i == id && l.Standing? then Gone else l
    case OrderExecute(i, _, flags, _, _, qty) =>
      if i != id || !l.Standing? then l
      else if IsFullFill(flags) then Gone
      else if l.filled + qty > l.entry then l
      else if l.filled + qty == l.entry then Gone
      else Standing(l.entry, l.filled + qty)
    case Trade(_) => l
  }

  function LifeOf(ms: seq<Msg>, id: u64): Life {
    if ms == [] then Never else LifeAfter(LifeOf(ms[..|ms| - 1], id), ms[|ms| - 1], id)
  }

  /** The book agrees with the order's life: live exactly while it stands, with
      the entry quantity split into what remains and what was filled; removed
      exactly once it is gone; never hidden. */
  predicate Agrees(b: Book, id: u64, l: Life) {
    && (id in b.live <==> l.Standing?)
    && (l.Standing? ==>
          l.filled <= l.entry && b.live[id].remaining + l.filled == l.entry && !IsHidden(b.live[id].flags))
    && (l.Standing? && l.entry > 0 ==> l.filled < l.entry)
    && (id in b.removed.added <==> l.Gone?)
  }

  lemma LifeStep(b: Book, m: Msg, id: u64, l: Life)
    requires Agrees(b, id, l)
    ensures Agrees(Step(b, m), id, LifeAfter(l, m, id))
  {
  }

  /** Conservation over any message sequence: no underflow, live and removed
      disjoint, no hidden order live. */
  lemma {:induction false} QuantityIsConserved(ms: seq<Msg>, id: u64, r: int, h: int, t: int)
    ensures Agrees(Run(Empty(r, h, t), ms), id, LifeOf(ms, id))
  {
    if ms != [] {
      QuantityIsConserved(ms[..|ms| - 1], id, r, h, t);
      LifeStep(Run(Empty(r, h, t), ms[..|ms| - 1]), ms[|ms| - 1], id, LifeOf(ms[..|ms| - 1], id));
    }
  }

  /** What a BatchBoundary reports: live orders with nothing remaining. */
  predicate Orphan(b: Book, id: u64) {
    id in b.live && b.live[id].remaining == 0
  }

  /** An orphan is exactly an order that was added with quantity 0 and has not
      left the book; executions never leave one behind. */
  lemma OrphansWereAddedEmpty(ms: seq<Msg>, id: u64, r: int, h: int, t: int)
    ensures Orphan(Run(Empty(r, h, t), ms), id) <==> LifeOf(ms, id) == Standing(0, 0)
  {
    QuantityIsConserved(ms, id, r, h, t);
  }

  lemma {:induction false} PositiveAddsStayPositive(ms: seq<Msg>, id: u64)
    requires forall m :: m in ms && m.OrderAdd? && m.id == id && !IsHidden(m.flags) ==> m.qty > 0
    ensures LifeOf(ms, id).Standing? ==> LifeOf(ms, id).entry > 0
  {
    if ms != [] {
      assert ms[|ms| - 1] in ms && forall m :: m in ms[..|ms| - 1] ==> m in ms;
      PositiveAddsStayPositive(ms[..|ms| - 1], id);
    }
  }

  /** Hence the atomicity rule is silent for a publisher that adds no empty
      visible order. */
  lemma NoOrphanWithoutEmptyAdds(ms: seq<Msg>, id: u64, r: int, h: int, t: int)
    requires forall m :: m in ms && m.OrderAdd? && m.id == id && !IsHidden(m.flags) ==> m.qty > 0
    ensures !Orphan(Run(Empty(r, h, t), ms), id)
  {
    PositiveAddsStayPositive(ms, id);
    OrphansWereAddedEmpty(ms, id, r, h, t);
  }

  // ---- beside a checker with unbounded sets --------------------------------

  /** The same book with sets that never forget. */
  datatype Ideal = Ideal(live: map<u64, LiveOrder>, removed: set<u64>, hidden: set<u64>, trades: set<u64>)

  function IdealStep(u: Ideal, m: Msg): Ideal {
    match m
    case OrderAdd(id, sourceID, side, price, qty, flags, enterTS) =>
      if IsHidden(flags) then u.(hidden := u.hidden + {id})
      else u.(live := u.live[id := LiveOrder(side, sourceID, price, qty, flags, enterTS)], removed := u.removed - {id})
    case OrderCancel(id, _) =>
      if id in u.live then u.(live := u.live - {id}, removed := u.removed + {id}) else u
    case OrderExecute(id, _, flags, _, tradeID, qty) =>
      var u1 := if tradeID != 0 then u.(trades := u.trades + {tradeID}) else u;
      if id !in u.live then u1
      else
        var f := Fill(u.live[id], qty, IsFullFill(flags));
        if f.rest.Some? then u1.(live := u.live[id := f.rest.value])
        else u1.(live := u.live - {id}, removed := u.removed + {id})
    case Trade(_) => u
  }

  function IdealMiss(u: Ideal, id: u64, dangling: Rule, gated: bool): seq<Finding> {
    if id in u.hidden then []
    else [Finding(if id in u.removed then AfterRemoval else dangling, StatusFor(gated), NoReason)]
  }

  /** The verdicts with full knowledge: no ID is ever merely forgotten. */
  function IdealFindings(u: Ideal, m: Msg, gated: bool): seq<Finding> {
    match m
    case OrderAdd(id, _, _, _, _, flags, _) =>
      if !IsHidden(flags) && id in u.live then [Finding(DuplicateLive, StatusFor(gated), NoReason)] else []
    case OrderCancel(id, sourceID) =>
      if id in u.live then SourceFinding(u.live[id], sourceID, gated) else IdealMiss(u, id, CancelDangling, gated)
    case OrderExecute(id, aggressor, flags, sourceID, _, qty) =>
      if id in u.live then
        SourceFinding(u.live[id], sourceID, gated) + SideFinding(u.live[id], aggressor, gated)
        + ErrorFinding(Fill(u.live[id], qty, IsFullFill(flags)).error, gated)
      else IdealMiss(u, id, ExecDangling, gated)
    case Trade(tradeID) =>
      if tradeID == 0 || tradeID in u.trades then [] else [Finding(ExecGrouping, StatusFor(gated), NoReason)]
  }

  function IdealRun(ms: seq<Msg>): Ideal {
    if ms == [] then Ideal(map[], {}, {}, {}) else IdealStep(IdealRun(ms[..|ms| - 1]), ms[|ms| - 1])
  }

  predicate Simulates(b: Book, u: Ideal) {
    && b.live == u.live
    && b.removed.added == u.removed && b.hidden.added == u.hidden && b.trades.added == u.trades
    && b.removed.Ok() && b.hidden.Ok() && b.trades.Ok()
  }

  lemma SimulatesStep(b: Book, u: Ideal, m: Msg)
    requires Simulates(b, u)
    ensures Simulates(Step(b, m), IdealStep(u, m))
  {
    match m
    case OrderAdd(id, _, _, _, _, _, _) => IdsKeep(b.removed, id); IdsKeep(b.hidden, id);
    case OrderCancel(id, _) => IdsKeep(b.removed, id);
    case OrderExecute(id, _, _, _, tradeID, _) => IdsKeep(b.removed, id); IdsKeep(b.trades, tradeID);
    case Trade(_) =>
  }

  lemma {:induction false} BothRun(ms: seq<Msg>, r: int, h: int, t: int)
    ensures Simulates(Run(Empty(r, h, t), ms), IdealRun(ms))
  {
    if ms != [] {
      BothRun(ms[..|ms| - 1], r, h, t);
      SimulatesStep(Run(Empty(r, h, t), ms[..|ms| - 1]), IdealRun(ms[..|ms| - 1]), ms[|ms| - 1]);
    }
  }

  /** Some message added the ID as a hidden order. */
  predicate AddedHidden(ms: seq<Msg>, id: u64) {
    exists i :: 0 <= i < |ms| && ms[i].OrderAdd? && ms[i].id == id && IsHidden(ms[i].flags)
  }

  lemma {:induction false} HiddenAreTheAdded(ms: seq<Msg>, id: u64)
    ensures id in IdealRun(ms).hidden <==> AddedHidden(ms, id)
  {
    if ms != [] {
      var init, m := ms[..|ms| - 1], ms[|ms| - 1];
      HiddenAreTheAdded(init, id);
      if AddedHidden(init, id) {
        var i :| 0 <= i < |init| && init[i].OrderAdd? && init[i].id == id && IsHidden(init[i].flags);
        assert ms[i] == init[i];
      }
      if AddedHidden(ms, id) && !(m.OrderAdd? && m.id == id && IsHidden(m.flags)) {
        var i :| 0 <= i < |ms| && ms[i].OrderAdd? && ms[i].id == id && IsHidden(ms[i].flags);
        assert init[i] == ms[i];
      }
    }
  }

  predicate Reports(fs: seq<Finding>, r: Rule) {
    exists i :: 0 <= i < |fs| && fs[i].rule == r
  }

  lemma IdealAgrees(ms: seq<Msg>, id: u64)
    ensures var u, l := IdealRun(ms), LifeOf(ms, id);
            && (id in u.live <==> l.Standing?)
            && (l.Standing? ==> u.live[id].remaining + l.filled == l.entry && !IsHidden(u.live[id].flags))
            && (id in u.removed <==> l.Gone?)
  {
    BothRun(ms, 1, 1, 1);
    QuantityIsConserved(ms, id, 1, 1, 1);
  }

  /** With full knowledge the verdict on an execute follows the life of its
      order: never added, already gone, or standing with that much left to
      fill. */
  lemma ExecuteVerdictFollowsLife(ms: seq<Msg>, m: Msg)
    requires m.OrderExecute? && !AddedHidden(ms, m.id)
    ensures var fs, l := IdealFindings(IdealRun(ms), m, true), LifeOf(ms, m.id);
            && (Reports(fs, ExecDangling) <==> l.Never?)
            && (Reports(fs, AfterRemoval) <==> l.Gone?)
            && (Reports(fs, Overfill) <==> l.Standing? && l.filled + m.qty > l.entry)
            && (Reports(fs, FullFillDisagreement)
                <==> l.Standing? && IsFullFill(m.execFlags) && l.filled + m.qty < l.entry)
  {
    var u, l := IdealRun(ms), LifeOf(ms, m.id);
    IdealAgrees(ms, m.id);
    HiddenAreTheAdded(ms, m.id);
    var fs := IdealFindings(u, m, true);
    if l.Standing? {
      var lo := u.live[m.id];
      LiveExecute(lo, m, fs);
    } else {
      assert |fs| == 1 && fs[0].rule == if l.Gone? then AfterRemoval else ExecDangling;
    }
  }

  lemma LiveExecute(lo: LiveOrder, m: Msg, fs: seq<Finding>)
    requires m.OrderExecute? && !IsHidden(lo.flags)
    requires fs == SourceFinding(lo, m.sourceID, true) + SideFinding(lo, m.aggressor, true)
                   + ErrorFinding(Fill(lo, m.qty, IsFullFill(m.execFlags)).error, true)
    ensures !Reports(fs, ExecDangling) && !Reports(fs, AfterRemoval)
    ensures Reports(fs, Overfill) <==> m.qty > lo.remaining
    ensures Reports(fs, FullFillDisagreement) <==> IsFullFill(m.execFlags) && m.qty < lo.remaining
  {
    var head := SourceFinding(lo, m.sourceID, true) + SideFinding(lo, m.aggressor, true);
    var error := ErrorFinding(Fill(lo, m.qty, IsFullFill(m.execFlags)).error, true);
    assert fs == head + error;
    assert forall i :: 0 <= i < |head| ==> fs[i].rule == SourceId || fs[i].rule == SidePrice;
    assert error != [] ==> fs[|head|] == error[0];
  }

  /** The same for a cancel. */
  lemma CancelVerdictFollowsLife(ms: seq<Msg>, m: Msg)
    requires m.OrderCancel? && !AddedHidden(ms, m.id)
    ensures var fs, l := IdealFindings(IdealRun(ms), m, true), LifeOf(ms, m.id);
            && (Reports(fs, CancelDangling) <==> l.Never?)
            && (Reports(fs, AfterRemoval) <==> l.Gone?)
  {
    IdealAgrees(ms, m.id);
    HiddenAreTheAdded(ms, m.id);
    var fs := IdealFindings(IdealRun(ms), m, true);
    assert !LifeOf(ms, m.id).Standing? ==> |fs| == 1 && fs[0] == fs[|fs| - 1];
  }

  // ---- the other rules, in terms of the messages --------------------------------

  /** The latest visible add of the order. */
  function LatestAdd(ms: seq<Msg>, id: u64): Option<Msg> {
    if ms == [] then None
    else
      var m := ms[|ms| - 1];
      if m.OrderAdd? && m.id == id && !IsHidden(m.flags) then Some(m) else LatestAdd(ms[..|ms| - 1], id)
  }

  lemma {:induction false} LatestAddIsOne(ms: seq<Msg>, id: u64)
    ensures LatestAdd(ms, id).Some? ==> LatestAdd(ms, id).value.OrderAdd?
  {
    if ms != [] { LatestAddIsOne(ms[..|ms| - 1], id); }
  }

  /** Fills and repeats aside, a live order is as its latest add said. */
  predicate AsAdded(u: Ideal, add: Option<Msg>, id: u64) {
    id in u.live ==>
      && add.Some? && add.value.OrderAdd?
      && u.live[id].side == add.value.side && u.live[id].sourceID == add.value.sourceID
      && u.live[id].price == add.value.price && u.live[id].enterTS == add.value.enterTS
      && u.live[id].flags == add.value.flags
  }

  lemma AsAddedStep(u: Ideal, m: Msg, add: Option<Msg>, id: u64)
    requires AsAdded(u, add, id)
    ensures AsAdded(IdealStep(u, m), if m.OrderAdd? && m.id == id && !IsHidden(m.flags) then Some(m) else add, id)
  {
  }

  lemma {:induction false} LiveAsAdded(ms: seq<Msg>, id: u64)
    ensures AsAdded(IdealRun(ms), LatestAdd(ms, id), id)
  {
    if ms != [] {
      LiveAsAdded(ms[..|ms| - 1], id);
      AsAddedStep(IdealRun(ms[..|ms| - 1]), ms[|ms| - 1], LatestAdd(ms[..|ms| - 1], id), id);
    }
  }

  lemma ReportsOfParts(a: seq<Finding>, b: seq<Finding>, r: Rule)
    ensures Reports(a + b, r) <==> Reports(a, r) || Reports(b, r)
  {
    assert forall i :: 0 <= i < |a| ==> (a + b)[i] == a[i];
    assert forall i :: 0 <= i < |b| ==> (a + b)[|a| + i] == b[i];
  }

  lemma OneReports(fs: seq<Finding>, r: Rule)
    requires |fs| <= 1
    ensures Reports(fs, r) <==> |fs| == 1 && fs[0].rule == r
  {
  }

  lemma LiveExecuteReports(lo: LiveOrder, m: Msg, r: Rule)
    requires m.OrderExecute? && (r == SourceId || r == SidePrice)
    ensures var fs := SourceFinding(lo, m.sourceID, true) + SideFinding(lo, m.aggressor, true)
                      + ErrorFinding(Fill(lo, m.qty, IsFullFill(m.execFlags)).error, true);
            Reports(fs, r) <==> if r == SourceId then SourceFinding(lo, m.sourceID, true) != []
                                else SideFinding(lo, m.aggressor, true) != []
  {
    var a, b := SourceFinding(lo, m.sourceID, true), SideFinding(lo, m.aggressor, true);
    var c := ErrorFinding(Fill(lo, m.qty, IsFullFill(m.execFlags)).error, true);
    ReportsOfParts(a + b, c, r);
    ReportsOfParts(a, b, r);
    OneReports(a, r);
    OneReports(b, r);
    OneReports(c, r);
  }

  /** An execute is charged with its side if and only if its order stands and a buy
      aggressor (1) meets one that was not added as an ask (1), or a sell aggressor
      (2) one that was not added as a bid (0). */
  lemma {:induction false} SideChargedExactly(ms: seq<Msg>, m: Msg)
    requires m.OrderExecute?
    ensures LatestAdd(ms, m.id).Some? ==> LatestAdd(ms, m.id).value.OrderAdd?
    ensures Reports(IdealFindings(IdealRun(ms), m, true), SidePrice)
      <==> && LifeOf(ms, m.id).Standing? && LatestAdd(ms, m.id).Some?
           && ((m.aggressor == 1 && LatestAdd(ms, m.id).value.side != 1)
               || (m.aggressor == 2 && LatestAdd(ms, m.id).value.side != 0))
  {
    IdealAgrees(ms, m.id);
    LiveAsAdded(ms, m.id);
    LatestAddIsOne(ms, m.id);
    var u := IdealRun(ms);
    if m.id in u.live { LiveExecuteReports(u.live[m.id], m, SidePrice); }
  }

  /** A cancel or execute is charged with its source if and only if its order stands,
      both name a source, and not the same one. */
  lemma {:induction false} SourceChargedExactly(ms: seq<Msg>, m: Msg)
    requires m.OrderExecute? || m.OrderCancel?
    ensures LatestAdd(ms, m.id).Some? ==> LatestAdd(ms, m.id).value.OrderAdd?
    ensures Reports(IdealFindings(IdealRun(ms), m, true), SourceId)
      <==> && LifeOf(ms, m.id).Standing? && LatestAdd(ms, m.id).Some?
           && m.sourceID != 0 && LatestAdd(ms, m.id).value.sourceID != 0
           && m.sourceID != LatestAdd(ms, m.id).value.sourceID
  {
    IdealAgrees(ms, m.id);
    LiveAsAdded(ms, m.id);
    LatestAddIsOne(ms, m.id);
    var u := IdealRun(ms);
    if m.id in u.live {
      if m.OrderExecute? { LiveExecuteReports(u.live[m.id], m, SourceId); }
      else { OneReports(SourceFinding(u.live[m.id], m.sourceID, true), SourceId); }
    }
  }

  /** An add is charged as a duplicate if and only if it is visible and its order
      stands. */
  lemma {:induction false} DuplicateChargedExactly(ms: seq<Msg>, m: Msg)
    requires m.OrderAdd?
    ensures Reports(IdealFindings(IdealRun(ms), m, true), DuplicateLive)
      <==> !IsHidden(m.flags) && LifeOf(ms, m.id).Standing?
  {
    IdealAgrees(ms, m.id);
    OneReports(IdealFindings(IdealRun(ms), m, true), DuplicateLive);
  }

  predicate Executed(ms: seq<Msg>, tradeID: u64) {
    exists i :: 0 <= i < |ms| && ms[i].OrderExecute? && ms[i].tradeID == tradeID
  }

  lemma {:induction false} TradesAreTheExecuted(ms: seq<Msg>, tradeID: u64)
    requires tradeID != 0
    ensures tradeID in IdealRun(ms).trades <==> Executed(ms, tradeID)
  {
    if ms != [] {
      var init, m := ms[..|ms| - 1], ms[|ms| - 1];
      TradesAreTheExecuted(init, tradeID);
      if Executed(init, tradeID) {
        var i :| 0 <= i < |init| && init[i].OrderExecute? && init[i].tradeID == tradeID;
        assert ms[i] == init[i];
      }
      if Executed(ms, tradeID) && !(m.OrderExecute? && m.tradeID == tradeID) {
        var i :| 0 <= i < |ms| && ms[i].OrderExecute? && ms[i].tradeID == tradeID;
        assert init[i] == ms[i];
      }
    }
  }

  /** A trade is charged if and only if it names an ID that no execute named. */
  lemma {:induction false} TradeChargedExactly(ms: seq<Msg>, m: Msg)
    requires m.Trade?
    ensures Reports(IdealFindings(IdealRun(ms), m, true), ExecGrouping)
      <==> m.tradeID != 0 && !Executed(ms, m.tradeID)
  {
    if m.tradeID != 0 { TradesAreTheExecuted(ms, m.tradeID); }
    OneReports(IdealFindings(IdealRun(ms), m, true), ExecGrouping);
  }

  /** An operation on an order that was added hidden and does not stand is let be. */
  lemma {:induction false} HiddenOrdersAreLetBe(ms: seq<Msg>, m: Msg)
    requires (m.OrderExecute? || m.OrderCancel?) && AddedHidden(ms, m.id) && !LifeOf(ms, m.id).Standing?
    ensures IdealFindings(IdealRun(ms), m, true) == []
  {
    IdealAgrees(ms, m.id);
    HiddenAreTheAdded(ms, m.id);
  }

  /** Behind the gate nothing is a violation, and in front of it everything is one or
      undecided for overflow. */
  lemma {:induction false} GateDecidesStatus(b: Book, m: Msg, gated: bool)
    ensures forall f :: f in Findings(b, m, gated) ==>
              if gated then f.status == Violation || (f.status == Unverifiable && f.reason == Overflow)
              else f.status == Unverifiable
  {
    if m.OrderExecute? && m.id in b.live {
      var lo := b.live[m.id];
      var a, c := SourceFinding(lo, m.sourceID, gated), SideFinding(lo, m.aggressor, gated);
      var e := ErrorFinding(Fill(lo, m.qty, IsFullFill(m.execFlags)).error, gated);
      assert forall f :: f in a + c + e ==> f in a || f in c || f in e;
    }
  }

  /** Bit 2 of the order flags hides an order; bit 0 of the execute flags fills it. */
  lemma FlagBits(high: nat, low: nat)
    requires low < 4 && 8 * high + 4 + low < 0x100
    ensures IsHidden(8 * high + 4 + low) && !IsHidden(8 * high + low)
    ensures IsFullFill(2 * high + 1) && !IsFullFill(2 * high)
  {
  }

  /** All that the bounded checker says in place of a verdict. */
  predicate OnlyOverflow(fs: seq<Finding>) {
    fs != [] && forall f :: f in fs ==> f.status == Unverifiable && f.reason == Overflow
  }

  /** The one ID this message makes the checker look up. */
  function Subject(m: Msg): u64 {
    if m.Trade? then m.tradeID else m.id
  }

  predicate MayBeForgotten(b: Book, m: Msg) {
    match m
    case OrderAdd(_, _, _, _, _, _, _) => false
    case Trade(id) => b.trades.range.Covers(id)
    case OrderCancel(id, _) => b.removed.range.Covers(id) || b.hidden.range.Covers(id)
    case OrderExecute(id, _, _, _, _, _) => b.removed.range.Covers(id) || b.hidden.range.Covers(id)
  }

  /** Under the gate, the bounded checker either gives exactly the verdict of the
      unbounded one or says it cannot decide for overflow, and the latter only
      for an ID inside a range it has evicted from. So every Violation it
      reports, the unbounded checker reports as well. */
  lemma {:induction false} BoundedNeverMisjudges(ms: seq<Msg>, m: Msg, r: int, h: int, t: int)
    ensures var b := Run(Empty(r, h, t), ms);
            var fs := Findings(b, m, true);
            || fs == IdealFindings(IdealRun(ms), m, true)
            || (OnlyOverflow(fs) && MayBeForgotten(b, m))
  {
    var b, u := Run(Empty(r, h, t), ms), IdealRun(ms);
    BothRun(ms, r, h, t);
    assert Subject(m) in b.removed.order ==> Subject(m) in u.removed;
  }
}
