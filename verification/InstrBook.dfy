/** One instrument's market-by-order book (`engine/book.go`) and the referential
    checks over it (`engine/gate.go`): live orders with their remaining
    quantity, and bounded windows of removed, hidden and trade IDs. */
module InstrBook {
  import opened Core
  import opened IdWindow

  datatype LiveOrder = LiveOrder(side: u8, sourceID: u16, price: i64, remaining: u64, flags: u8, enterTS: u64)

  datatype Msg =
    | OrderAdd(id: u64, sourceID: u16, side: u8, price: i64, qty: u64, flags: u8, enterTS: u64)
    | OrderCancel(id: u64, sourceID: u16)
    | OrderExecute(id: u64, aggressor: u8, execFlags: u8, sourceID: u16, tradeID: u64, qty: u64)
    | Trade(tradeID: u64)

  predicate IsHidden(flags: u8) { (flags / 4) % 2 == 1 }

  predicate IsFullFill(flags: u8) { flags % 2 == 1 }

  datatype Rule =
    | DuplicateLive | CancelDangling | ExecDangling | AfterRemoval
    | SidePrice | SourceId | Overfill | FullFillDisagreement | ExecGrouping | Atomicity

  datatype Finding = Finding(rule: Rule, status: Status, reason: Reason)

  // ---- a bounded window and the set it stands in for -----------------------

  datatype Ids = Ids(order: seq<u64>, range: Range, limit: nat, added: set<u64>)
  {
    predicate Ok() { Covered(added, order, range) }

    function Add(id: u64): Ids {
      Ids(Added(order, id, limit), RangeAfter(range, order, id, limit), limit, added + {id})
    }

    function Remove(id: u64): Ids {
      Ids(Without(order, id), range, limit, added - {id})
    }

    predicate Has(id: u64) { id in order }
  }

  lemma IdsKeep(s: Ids, id: u64)
    requires s.Ok()
    ensures s.Add(id).Ok() && s.Remove(id).Ok()
  {
    AddCovers(s.added, s.order, s.range, id, s.limit);
    RemoveCovers(s.added, s.order, s.range, id);
  }

  // ---- the book -----------------------------------------------------------

  datatype Book = Book(live: map<u64, LiveOrder>, removed: Ids, hidden: Ids, trades: Ids)

  datatype ExecError = NoError | OverfillError | DisagreeError

  /** What an execute leaves of a live order, if anything. */
  datatype Filled = Filled(rest: Option<LiveOrder>, error: ExecError)

  function Fill(lo: LiveOrder, qty: u64, full: bool): Filled {
    if IsHidden(lo.flags) then Filled(if full then None else Some(lo), NoError)
    else if qty > lo.remaining then Filled(if full then None else Some(lo), OverfillError)
    else if full && qty != lo.remaining then Filled(None, DisagreeError)
    else if full || qty == lo.remaining then Filled(None, NoError)
    else Filled(Some(lo.(remaining := lo.remaining - qty)), NoError)
  }

  function ApplyAdd(b: Book, m: Msg): Book
    requires m.OrderAdd?
  {
    if IsHidden(m.flags) then b.(hidden := b.hidden.Add(m.id))
    else b.(live := b.live[m.id := LiveOrder(m.side, m.sourceID, m.price, m.qty, m.flags, m.enterTS)],
            removed := b.removed.Remove(m.id))
  }

  function ApplyFill(b: Book, id: u64, f: Filled): Book {
    if f.rest.Some? then b.(live := b.live[id := f.rest.value])
    else b.(live := b.live - {id}, removed := b.removed.Add(id))
  }

  /** A full fill of a hidden order, which is never live. The checks above the
      book handle such an execute before they reach it. */
  function ApplyHiddenFill(b: Book, id: u64, full: bool): Book {
    if b.hidden.Has(id) && full then b.(removed := b.removed.Add(id)) else b
  }

  function ApplyCancel(b: Book, id: u64): Book {
    if id in b.live then b.(live := b.live - {id}, removed := b.removed.Add(id)) else b
  }

  /** An execute's trade ID, remembered for the Trade message that names it. */
  function Noted(b: Book, tradeID: u64): Book {
    if tradeID != 0 then b.(trades := b.trades.Add(tradeID)) else b
  }

  function Step(b: Book, m: Msg): Book {
    match m
    case OrderAdd(_, _, _, _, _, _, _) => ApplyAdd(b, m)
    case OrderCancel(id, _) => ApplyCancel(b, id)
    case OrderExecute(id, _, flags, _, tradeID, qty) =>
      var b1 := Noted(b, tradeID);
      if id in b.live then ApplyFill(b1, id, Fill(b.live[id], qty, IsFullFill(flags))) else b1
    case Trade(_) => b
  }

  // ---- the verdicts -------------------------------------------------------

  function SourceFinding(lo: LiveOrder, sourceID: u16, gated: bool): seq<Finding> {
    if sourceID != 0 && lo.sourceID != 0 && sourceID != lo.sourceID
    then [Finding(SourceId, StatusFor(gated), NoReason)] else []
  }

  function SideFinding(lo: LiveOrder, aggressor: u8, gated: bool): seq<Finding> {
    if (aggressor == 1 && lo.side != 1) || (aggressor == 2 && lo.side != 0)
    then [Finding(SidePrice, StatusFor(gated), NoReason)] else []
  }

  function ErrorFinding(e: ExecError, gated: bool): seq<Finding> {
    match e
    case NoError => []
    case OverfillError => [Finding(Overfill, StatusFor(gated), NoReason)]
    case DisagreeError => [Finding(FullFillDisagreement, StatusFor(gated), NoReason)]
  }

  function Undecided(dangling: Rule): seq<Finding> {
    [Finding(AfterRemoval, Unverifiable, Overflow), Finding(dangling, Unverifiable, Overflow)]
  }

  /** The verdict on an operation whose order is not live. */
  function MissFindings(b: Book, id: u64, dangling: Rule, gated: bool): seq<Finding> {
    if b.hidden.Has(id) then []
    else if gated && b.hidden.range.Covers(id) then Undecided(dangling)
    else if b.removed.Has(id) then [Finding(AfterRemoval, StatusFor(gated), NoReason)]
    else if gated && (b.removed.range.Covers(id) || b.hidden.range.Covers(id)) then Undecided(dangling)
    else [Finding(dangling, StatusFor(gated), NoReason)]
  }

  function Findings(b: Book, m: Msg, gated: bool): seq<Finding> {
    match m
    case OrderAdd(id, _, _, _, _, flags, _) =>
      if !IsHidden(flags) && id in b.live then [Finding(DuplicateLive, StatusFor(gated), NoReason)] else []
    case OrderCancel(id, sourceID) =>
      if id in b.live then SourceFinding(b.live[id], sourceID, gated)
      else MissFindings(b, id, CancelDangling, gated)
    case OrderExecute(id, aggressor, flags, sourceID, _, qty) =>
      if id in b.live then
        SourceFinding(b.live[id], sourceID, gated) + SideFinding(b.live[id], aggressor, gated)
        + ErrorFinding(Fill(b.live[id], qty, IsFullFill(flags)).error, gated)
      else MissFindings(b, id, ExecDangling, gated)
    case Trade(tradeID) =>
      if tradeID == 0 || b.trades.Has(tradeID) then []
      else if gated && b.trades.range.Covers(tradeID) then [Finding(ExecGrouping, Unverifiable, Overflow)]
      else [Finding(ExecGrouping, StatusFor(gated), NoReason)]
  }

  // ---- the book as the engine holds it ------------------------------------

  class Tracker {
    var live: map<u64, LiveOrder>
    const removed: Window
    const hiddenIDs: Window
    const execTradeIDs: Window

    ghost predicate Valid()
      reads this, removed, hiddenIDs, execTradeIDs
    {
      && removed != hiddenIDs && removed != execTradeIDs && hiddenIDs != execTradeIDs
      && removed.Valid() && hiddenIDs.Valid() && execTradeIDs.Valid()
    }

    static ghost function IdsOf(w: Window): Ids
      reads w
    {
      Ids(Order(w.view), w.Forgotten(), w.limit, w.added)
    }

    ghost function View(): Book
      reads this, removed, hiddenIDs, execTradeIDs
    {
      Book(live, IdsOf(removed), IdsOf(hiddenIDs), IdsOf(execTradeIDs))
    }

    constructor (maxRemoved: int, maxHidden: int, maxTrades: int)
      ensures Valid() && fresh(removed) && fresh(hiddenIDs) && fresh(execTradeIDs)
      ensures View() == Book(map[], EmptyIds(maxRemoved), EmptyIds(maxHidden), EmptyIds(maxTrades))
    {
      live := map[];
      removed := new Window(maxRemoved);
      hiddenIDs := new Window(maxHidden);
      execTradeIDs := new Window(maxTrades);
    }

    method ApplyOrderAddFull(m: Msg)
      requires Valid() && m.OrderAdd?
      modifies this, removed, hiddenIDs
      ensures Valid() && View() == ApplyAdd(old(View()), m)
    {
      if IsHidden(m.flags) {
        hiddenIDs.Add(m.id);
        return;
      }
      live := live[m.id := LiveOrder(m.side, m.sourceID, m.price, m.qty, m.flags, m.enterTS)];
      removed.Remove(m.id);
    }

    method Drop(id: u64)
      requires Valid()
      modifies this`live, removed
      ensures Valid() && View() == old(View()).(live := old(live) - {id}, removed := old(View()).removed.Add(id))
    {
      live := live - {id};
      removed.Add(id);
    }

    /** Decrements a live order, or removes it on a full fill or when nothing is
        left; a mismatched full fill still removes it. */
    method ApplyOrderExecute(id: u64, execQty: u64, fullFill: bool) returns (error: ExecError)
      requires Valid()
      modifies this`live, removed
      ensures Valid()
      ensures id in old(live) ==>
                && View() == ApplyFill(old(View()), id, Fill(old(live)[id], execQty, fullFill))
                && error == Fill(old(live)[id], execQty, fullFill).error
      ensures id !in old(live) ==>
                && View() == ApplyHiddenFill(old(View()), id, fullFill)
                && error == NoError
    {
      if id !in live {
        var hid := hiddenIDs.Has(id);
        if hid && fullFill {
          removed.Add(id);
        }
        return NoError;
      }
      var lo := live[id];
      if IsHidden(lo.flags) {
        if fullFill { Drop(id); } else { assert live[id := lo] == live; }
        return NoError;
      }
      if execQty > lo.remaining {
        if fullFill { Drop(id); } else { assert live[id := lo] == live; }
        return OverfillError;
      }
      if fullFill && execQty != lo.remaining {
        Drop(id);
        return DisagreeError;
      }
      var left := lo.remaining - execQty;
      if fullFill || left == 0 {
        Drop(id);
        return NoError;
      }
      live := live[id := lo.(remaining := left)];
      return NoError;
    }

    method ApplyOrderCancel(id: u64)
      requires Valid()
      modifies this`live, removed
      ensures Valid() && View() == ApplyCancel(old(View()), id)
    {
      if id in live {
        Drop(id);
      }
    }

    /** Judges an operation on an ID that is not live. */
    method Miss(id: u64, dangling: Rule, gated: bool) returns (fs: seq<Finding>)
      requires Valid()
      ensures fs == MissFindings(View(), id, dangling, gated)
    {
      var hid := hiddenIDs.Has(id);
      if hid {
        return [];
      }
      var maybeHidden := hiddenIDs.MayHaveEvicted(id);
      if gated && maybeHidden {
        return Undecided(dangling);
      }
      var rem := removed.Has(id);
      if rem {
        return [Finding(AfterRemoval, StatusFor(gated), NoReason)];
      }
      var maybeRemoved := removed.MayHaveEvicted(id);
      if gated && (maybeRemoved || maybeHidden) {
        return Undecided(dangling);
      }
      return [Finding(dangling, StatusFor(gated), NoReason)];
    }

    method CheckOrderAdd(m: Msg, gated: bool) returns (fs: seq<Finding>)
      requires Valid() && m.OrderAdd?
      modifies this, removed, hiddenIDs
      ensures Valid() && View() == Step(old(View()), m) && fs == Findings(old(View()), m, gated)
    {
      fs := [];
      if IsHidden(m.flags) {
        ApplyOrderAddFull(m);
        return;
      }
      if m.id in live {
        fs := [Finding(DuplicateLive, StatusFor(gated), NoReason)];
      }
      ApplyOrderAddFull(m);
    }

    method CheckOrderCancel(m: Msg, gated: bool) returns (fs: seq<Finding>)
      requires Valid() && m.OrderCancel?
      modifies this, removed
      ensures Valid() && View() == Step(old(View()), m) && fs == Findings(old(View()), m, gated)
    {
      if m.id in live {
        fs := SourceFinding(live[m.id], m.sourceID, gated);
        ApplyOrderCancel(m.id);
        return;
      }
      fs := Miss(m.id, CancelDangling, gated);
    }

    method NoteTrade(tradeID: u64)
      requires Valid()
      modifies execTradeIDs
      ensures Valid() && View() == Noted(old(View()), tradeID)
    {
      if tradeID != 0 {
        execTradeIDs.Add(tradeID);
      }
    }

    method CheckOrderExecute(m: Msg, gated: bool) returns (fs: seq<Finding>)
      requires Valid() && m.OrderExecute?
      modifies this, removed, execTradeIDs
      ensures Valid() && View() == Step(old(View()), m) && fs == Findings(old(View()), m, gated)
    {
      NoteTrade(m.tradeID);
      if m.id in live {
        fs := ExecuteLive(m, gated);
        return;
      }
      fs := Miss(m.id, ExecDangling, gated);
    }

    method ExecuteLive(m: Msg, gated: bool) returns (fs: seq<Finding>)
      requires Valid() && m.OrderExecute? && m.id in live
      modifies this`live, removed
      ensures Valid()
      ensures View() == ApplyFill(old(View()), m.id, Fill(old(live)[m.id], m.qty, IsFullFill(m.execFlags)))
      ensures fs == Findings(old(View()), m, gated)
    {
      var lo := live[m.id];
      fs := SourceFinding(lo, m.sourceID, gated) + SideFinding(lo, m.aggressor, gated);
      var error := ApplyOrderExecute(m.id, m.qty, IsFullFill(m.execFlags));
      fs := fs + ErrorFinding(error, gated);
    }

    method CheckTrade(m: Msg, gated: bool) returns (fs: seq<Finding>)
      requires Valid() && m.Trade?
      ensures fs == Findings(View(), m, gated)
    {
      if m.tradeID == 0 {
        return [];
      }
      var known := execTradeIDs.Has(m.tradeID);
      if known {
        return [];
      }
      var maybe := execTradeIDs.MayHaveEvicted(m.tradeID);
      if gated && maybe {
        return [Finding(ExecGrouping, Unverifiable, Overflow)];
      }
      return [Finding(ExecGrouping, StatusFor(gated), NoReason)];
    }
  }

  function EmptyIds(limit: int): Ids {
    Ids([], Nothing, if limit < 1 then 1 else limit, {})
  }
}
