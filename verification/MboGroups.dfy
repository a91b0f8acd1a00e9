/** Snapshot groups of a market-by-order feed: accumulation and grading of
    Begin, Order and End (`handleSnapBegin`, `handleSnapOrder`, `handleSnapEnd`
    and the frame check of `checkMBOSnapshot` in `engine/gate.go`). */
module MboGroups {
  import opened Core

  datatype Head = Head(instr: u32, anchor: u64, id: u32, total: u32, k: u32)

  datatype SnapOrder = SnapOrder(side: u8, flags: u8, enterTS: u64, price: i64, qty: u64)

  datatype Msg =
    | Begin(head: Head)
    | Order(id: u32, orderID: u64, order: SnapOrder)
    | End(instr: u32, anchor: u64, snapID: u32)

  datatype Rule = Grouping | OrderSnapshotId | EmptyBook | NoDupOrderId | EndFields | CountMatch

  datatype Finding = Finding(rule: Rule, status: Status, reason: Reason)

  /** One group in progress; `portSeq` is the last frame processed for it. */
  datatype Group = Group(
    head: Head, received: nat, orders: map<u64, SnapOrder>, dirty: bool, structural: bool, portSeq: u64)

  // ---- the specification ---------------------------------------------------

  function Opened(h: Head, portSeq: u64): Group {
    Group(h, 0, map[], false, false, portSeq)
  }

  /** A frame arriving while a group is open. A group opened in frame 0 is left
      alone, as the source reads 0 as "no frame yet". */
  function Arrive(g: Group, seqNo: u64): Group {
    if g.portSeq == 0 then g
    else Group(g.head, g.received, g.orders, g.dirty || seqNo > (g.portSeq + 1) % U64_MOD, g.structural, seqNo)
  }

  function OrderFindings(g: Group, m: Msg): seq<Finding>
    requires m.Order?
  {
    If(m.id != g.head.id, Finding(OrderSnapshotId, StatusFor(!g.dirty), NoReason))
    + If(g.head.total == 0, Finding(EmptyBook, StatusFor(!g.dirty), NoReason))
    + If(m.orderID in g.orders, Finding(NoDupOrderId, StatusFor(!g.dirty), NoReason))
  }

  function OnOrder(g: Group, m: Msg): Group
    requires m.Order?
  {
    Group(g.head, g.received + 1,
          if m.orderID in g.orders then g.orders else g.orders[m.orderID := m.order],
          g.dirty,
          g.structural || m.id != g.head.id || g.head.total == 0 || m.orderID in g.orders,
          g.portSeq)
  }

  predicate EndMatches(h: Head, m: Msg)
    requires m.End?
  {
    m.instr == h.instr && m.anchor == h.anchor && m.snapID == h.id
  }

  function EndFindings(g: Group, m: Msg, portClean: bool): seq<Finding>
    requires m.End?
  {
    If(!EndMatches(g.head, m), Finding(EndFields, StatusFor(!g.dirty), NoReason))
    + If(g.received > g.head.total, Finding(CountMatch, Violation, NoReason))
    + If(g.received < g.head.total,
         Finding(CountMatch, StatusFor(!g.dirty && portClean), if g.dirty || !portClean then Loss else NoReason))
  }

  /** The group as it is handed on when its End has been graded. */
  function OnEnd(g: Group, m: Msg): Group
    requires m.End?
  {
    Group(g.head, g.received, g.orders, g.dirty,
          g.structural || !EndMatches(g.head, m) || g.received != g.head.total, g.portSeq)
  }

  function NextOpen(open: Option<Group>, m: Msg, seqNo: u64): Option<Group> {
    match m
    case Begin(h) => Some(Opened(h, seqNo))
    case Order(_, _, _) => if open.None? then None else Some(OnOrder(open.value, m))
    case End(_, _, _) => None
  }

  function MsgFindings(open: Option<Group>, m: Msg, portClean: bool): seq<Finding> {
    match m
    case Begin(_) => If(open.Some?, Finding(Grouping, StatusFor(open.Some? && !open.value.dirty), NoReason))
    case Order(_, _, _) =>
      if open.None? then [Finding(Grouping, StatusFor(portClean), NoReason)] else OrderFindings(open.value, m)
    case End(_, _, _) =>
      if open.None? then [Finding(Grouping, StatusFor(portClean), NoReason)] else EndFindings(open.value, m, portClean)
  }

  // ---- the group as the engine holds it -----------------------------------

  class OpenSnapshot {
    const head: Head
    var received: nat
    var orders: map<u64, SnapOrder>
    var dirty: bool
    var structuralViolation: bool
    var lastSnapPortSeq: u64

    ghost function View(): Group
      reads this
    {
      Group(head, received, orders, dirty, structuralViolation, lastSnapPortSeq)
    }

    constructor (h: Head, portSeq: u64)
      ensures View() == Opened(h, portSeq)
    {
      head, received, orders := h, 0, map[];
      dirty, structuralViolation, lastSnapPortSeq := false, false, portSeq;
    }

    method FrameArrives(seqNo: u64)
      modifies this
      ensures View() == Arrive(old(View()), seqNo)
    {
      if lastSnapPortSeq != 0 {
        if seqNo > (lastSnapPortSeq + 1) % U64_MOD {
          dirty := true;
        }
        lastSnapPortSeq := seqNo;
      }
    }

    method TakeOrder(m: Msg) returns (fs: seq<Finding>)
      requires m.Order?
      modifies this
      ensures View() == OnOrder(old(View()), m) && fs == OrderFindings(old(View()), m)
    {
      fs := [];
      if m.id != head.id {
        structuralViolation := true;
        fs := [Finding(OrderSnapshotId, StatusFor(!dirty), NoReason)];
      }
      if head.total == 0 {
        structuralViolation := true;
        fs := fs + [Finding(EmptyBook, StatusFor(!dirty), NoReason)];
      }
      if m.orderID in orders {
        structuralViolation := true;
        fs := fs + [Finding(NoDupOrderId, StatusFor(!dirty), NoReason)];
      } else {
        orders := orders[m.orderID := m.order];
      }
      received := received + 1;
    }

    method GradeEnd(m: Msg, portClean: bool) returns (fs: seq<Finding>)
      requires m.End?
      modifies this
      ensures View() == OnEnd(old(View()), m) && fs == EndFindings(old(View()), m, portClean)
    {
      fs := [];
      if m.instr != head.instr || m.anchor != head.anchor || m.snapID != head.id {
        structuralViolation := true;
        fs := [Finding(EndFields, StatusFor(!dirty), NoReason)];
      }
      if received != head.total {
        structuralViolation := true;
        if received > head.total {
          fs := fs + [Finding(CountMatch, Violation, NoReason)];
        } else if dirty || !portClean {
          fs := fs + [Finding(CountMatch, Unverifiable, Loss)];
        } else {
          fs := fs + [Finding(CountMatch, Violation, NoReason)];
        }
      }
    }
  }

  /** A channel's snapshot port, with at most one group open. */
  class Channel {
    var open: OpenSnapshot?

    ghost predicate Holds(g: Option<Group>)
      reads this, open
    {
      g == if open == null then None else Some(open.View())
    }

    constructor ()
      ensures Holds(None)
    {
      open := null;
    }

    method TakeBegin(h: Head, seqNo: u64, ghost was: Option<Group>) returns (fs: seq<Finding>)
      requires Holds(was)
      modifies this
      ensures Holds(NextOpen(was, Begin(h), seqNo)) && fresh(open)
      ensures fs == MsgFindings(was, Begin(h), true)
    {
      fs := [];
      if open != null {
        fs := [Finding(Grouping, StatusFor(!open.dirty), NoReason)];
      }
      open := new OpenSnapshot(h, seqNo);
    }

    method TakeOrder(m: Msg, portClean: bool, ghost was: Option<Group>) returns (fs: seq<Finding>)
      requires m.Order? && Holds(was)
      modifies open
      ensures open == old(open) && Holds(NextOpen(was, m, 0)) && fs == MsgFindings(was, m, portClean)
    {
      if open == null {
        return [Finding(Grouping, StatusFor(portClean), NoReason)];
      }
      fs := open.TakeOrder(m);
    }

    /** Grades and closes the open group, and hands it on. */
    method TakeEnd(m: Msg, portClean: bool, ghost was: Option<Group>)
      returns (fs: seq<Finding>, done: OpenSnapshot?)
      requires m.End? && Holds(was)
      modifies this, open
      ensures open == null && fs == MsgFindings(was, m, portClean)
      ensures (done == null <==> was.None?) && (done != null ==> done.View() == OnEnd(was.value, m))
    {
      done := open;
      if open == null {
        return [Finding(Grouping, StatusFor(portClean), NoReason)], null;
      }
      fs := open.GradeEnd(m, portClean);
      open := null;
    }
  }

  // ---- what an unflagged group is -----------------------------------------

  function Take(g: Group, ms: seq<Msg>): Group
    requires forall m :: m in ms ==> m.Order?
  {
    if ms == [] then g else OnOrder(Take(g, ms[..|ms| - 1]), ms[|ms| - 1])
  }

  /** The orders all carry the group's ID and distinct order IDs. */
  predicate Regular(id: u32, ms: seq<Msg>)
    requires forall m :: m in ms ==> m.Order?
  {
    && (forall i :: 0 <= i < |ms| ==> ms[i].id == id)
    && (forall i, j :: 0 <= i < j < |ms| ==> ms[i].orderID != ms[j].orderID)
  }

  predicate Names(ms: seq<Msg>, o: u64)
    requires forall m :: m in ms ==> m.Order?
  {
    exists i :: 0 <= i < |ms| && ms[i].orderID == o
  }

  lemma RegularPrefix(id: u32, ms: seq<Msg>)
    requires ms != [] && forall m :: m in ms ==> m.Order?
    ensures forall m :: m in ms[..|ms| - 1] ==> m.Order?
    ensures Regular(id, ms) <==>
      && Regular(id, ms[..|ms| - 1]) && ms[|ms| - 1].id == id
      && !Names(ms[..|ms| - 1], ms[|ms| - 1].orderID)
  {
    var init, m := ms[..|ms| - 1], ms[|ms| - 1];
    assert forall i :: 0 <= i < |init| ==> init[i] == ms[i];
    if Names(init, m.orderID) {
      var i :| 0 <= i < |init| && init[i].orderID == m.orderID;
      assert ms[i].orderID == ms[|ms| - 1].orderID;
    }
  }

  /** What the orders say: the first record of every order ID. */
  function OrdersOf(ms: seq<Msg>): map<u64, SnapOrder>
    requires forall m :: m in ms ==> m.Order?
  {
    if ms == [] then map[]
    else
      var init, m := OrdersOf(ms[..|ms| - 1]), ms[|ms| - 1];
      if m.orderID in init then init else init[m.orderID := m.order]
  }

  lemma {:induction false} OrdersOfNames(ms: seq<Msg>, o: u64)
    requires forall m :: m in ms ==> m.Order?
    ensures o in OrdersOf(ms) <==> Names(ms, o)
  {
    if ms != [] {
      var init, m := ms[..|ms| - 1], ms[|ms| - 1];
      OrdersOfNames(init, o);
      if Names(init, o) {
        var i :| 0 <= i < |init| && init[i].orderID == o;
        assert ms[i].orderID == o;
      }
      assert m.orderID == o ==> Names(ms, o);
      if Names(ms, o) && m.orderID != o {
        var i :| 0 <= i < |ms| && ms[i].orderID == o;
        assert init[i].orderID == o;
      }
    }
  }

  lemma {:induction false} TakeCollects(h: Head, portSeq: u64, ms: seq<Msg>)
    requires forall m :: m in ms ==> m.Order?
    ensures var g := Take(Opened(h, portSeq), ms);
            && g.head == h && g.received == |ms| && g.orders == OrdersOf(ms)
            && (!g.structural <==> Regular(h.id, ms) && (h.total == 0 ==> ms == []))
  {
    if ms != [] {
      var init, m := ms[..|ms| - 1], ms[|ms| - 1];
      TakeCollects(h, portSeq, init);
      OrdersOfNames(init, m.orderID);
      RegularPrefix(h.id, ms);
    }
  }

  /** A group reaches the oracle without a structural flag exactly when its End
      matches its Begin, it carried as many orders as announced, each under the
      group's ID and none twice; and its orders are then those sent. */
  lemma UnflaggedGroupIsWhatWasSent(h: Head, portSeq: u64, ms: seq<Msg>, end: Msg)
    requires end.End? && forall m :: m in ms ==> m.Order?
    ensures var g := OnEnd(Take(Opened(h, portSeq), ms), end);
            && (!g.structural <==> EndMatches(h, end) && |ms| == h.total && Regular(h.id, ms))
            && g.orders == OrdersOf(ms)
  {
    TakeCollects(h, portSeq, ms);
  }

  // ---- when the rules are charged -------------------------------------------------

  predicate Draws(fs: seq<Finding>, rule: Rule, status: Status) {
    exists i :: 0 <= i < |fs| && fs[i].rule == rule && fs[i].status == status
  }

  lemma DrawsAppend(a: seq<Finding>, b: seq<Finding>, rule: Rule, st: Status)
    ensures Draws(a + b, rule, st) <==> Draws(a, rule, st) || Draws(b, rule, st)
  {
    assert forall i :: 0 <= i < |a| ==> (a + b)[i] == a[i];
    assert forall i :: 0 <= i < |b| ==> (a + b)[|a| + i] == b[i];
  }

  lemma OneDraws(c: bool, f: Finding, rule: Rule, st: Status)
    ensures Draws(If(c, f), rule, st) <==> c && f.rule == rule && f.status == st
  {
    assert c ==> If(c, f)[0] == f;
  }

  /** A group that carried these orders, with a gap or without one. */
  predicate Carries(g: Group, h: Head, ms: seq<Msg>, dirty: bool)
    requires forall m :: m in ms ==> m.Order?
  {
    g.head == h && g.received == |ms| && g.orders == OrdersOf(ms) && g.dirty == dirty
  }

  /** Orders and gaps in any order leave a group that carries what was sent. */
  lemma {:induction false} TakenCarries(h: Head, portSeq: u64, ms: seq<Msg>)
    requires forall m :: m in ms ==> m.Order?
    ensures Carries(Take(Opened(h, portSeq), ms), h, ms, false)
  {
    TakeCollects(h, portSeq, ms);
    TakeKeepsClean(h, portSeq, ms);
  }

  lemma {:induction false} TakeKeepsClean(h: Head, portSeq: u64, ms: seq<Msg>)
    requires forall m :: m in ms ==> m.Order?
    ensures !Take(Opened(h, portSeq), ms).dirty
  {
    if ms != [] { TakeKeepsClean(h, portSeq, ms[..|ms| - 1]); }
  }

  lemma CarriesOn(g: Group, h: Head, ms: seq<Msg>, dirty: bool, m: Msg, seqNo: u64)
    requires (forall m :: m in ms ==> m.Order?) && m.Order? && Carries(g, h, ms, dirty)
    ensures (forall x :: x in ms + [m] ==> x.Order?) && Carries(OnOrder(g, m), h, ms + [m], dirty)
    ensures Carries(Arrive(g, seqNo), h, ms,
                    dirty || (g.portSeq != 0 && seqNo > if g.portSeq == U64_MOD - 1 then 0 else g.portSeq + 1))
  {
    assert (ms + [m])[..|ms|] == ms;
  }

  /** An order of a group is charged with its ID if and only if that is not the
      group's, as an order of an empty book if and only if none were announced, and as
      a repetition if and only if the group carried its order ID: as a violation if and
      only if the group shows no gap. */
  lemma {:induction false} OrderChargedExactly(g: Group, h: Head, ms: seq<Msg>, dirty: bool, m: Msg)
    requires (forall m :: m in ms ==> m.Order?) && m.Order? && Carries(g, h, ms, dirty)
    ensures var fs, st := OrderFindings(g, m), if dirty then Unverifiable else Violation;
            && (Draws(fs, OrderSnapshotId, st) <==> m.id != h.id)
            && (Draws(fs, EmptyBook, st) <==> h.total == 0)
            && (Draws(fs, NoDupOrderId, st) <==> Names(ms, m.orderID))
            && (dirty ==> forall r :: !Draws(fs, r, Violation))
  {
    OrdersOfNames(ms, m.orderID);
    forall r, st
      ensures Draws(OrderFindings(g, m), r, st)
        <==> st == StatusFor(!dirty)
             && ((r == OrderSnapshotId && m.id != h.id) || (r == EmptyBook && h.total == 0)
                 || (r == NoDupOrderId && m.orderID in g.orders))
    {
      OrderFindingsAre(g, m, r, st);
    }
  }

  lemma OrderFindingsAre(g: Group, m: Msg, r: Rule, st: Status)
    requires m.Order?
    ensures Draws(OrderFindings(g, m), r, st)
      <==> st == StatusFor(!g.dirty)
           && ((r == OrderSnapshotId && m.id != g.head.id) || (r == EmptyBook && g.head.total == 0)
               || (r == NoDupOrderId && m.orderID in g.orders))
  {
    var a := If(m.id != g.head.id, Finding(OrderSnapshotId, StatusFor(!g.dirty), NoReason));
    var b := If(g.head.total == 0, Finding(EmptyBook, StatusFor(!g.dirty), NoReason));
    var c := If(m.orderID in g.orders, Finding(NoDupOrderId, StatusFor(!g.dirty), NoReason));
    DrawsAppend(a + b, c, r, st);
    DrawsAppend(a, b, r, st);
    OneDraws(m.id != g.head.id, Finding(OrderSnapshotId, StatusFor(!g.dirty), NoReason), r, st);
    OneDraws(g.head.total == 0, Finding(EmptyBook, StatusFor(!g.dirty), NoReason), r, st);
    OneDraws(m.orderID in g.orders, Finding(NoDupOrderId, StatusFor(!g.dirty), NoReason), r, st);
  }

  /** An End is charged with its fields if and only if one is not its Begin's and the
      group shows no gap; with the count, if and only if more orders came than
      announced, or fewer in a group and on a port that show none. Otherwise fewer
      are put down to loss. */
  lemma {:induction false} EndChargedExactly(
    g: Group, h: Head, ms: seq<Msg>, dirty: bool, m: Msg, portClean: bool)
    requires (forall m :: m in ms ==> m.Order?) && m.End? && Carries(g, h, ms, dirty)
    ensures var fs := EndFindings(g, m, portClean);
            && (Draws(fs, EndFields, Violation)
                <==> !dirty && (m.instr != h.instr || m.anchor != h.anchor || m.snapID != h.id))
            && (Draws(fs, CountMatch, Violation)
                <==> |ms| > h.total || (|ms| < h.total && !dirty && portClean))
            && (Draws(fs, CountMatch, Unverifiable) <==> |ms| < h.total && (dirty || !portClean))
  {
    EndFindingsAre(g, m, portClean, EndFields, Violation);
    EndFindingsAre(g, m, portClean, CountMatch, Violation);
    EndFindingsAre(g, m, portClean, CountMatch, Unverifiable);
  }

  lemma EndFindingsAre(g: Group, m: Msg, portClean: bool, r: Rule, st: Status)
    requires m.End?
    ensures Draws(EndFindings(g, m, portClean), r, st)
      <==> || (r == EndFields && !EndMatches(g.head, m) && st == StatusFor(!g.dirty))
           || (r == CountMatch && g.received > g.head.total && st == Violation)
           || (r == CountMatch && g.received < g.head.total && st == StatusFor(!g.dirty && portClean))
  {
    var f1 := Finding(EndFields, StatusFor(!g.dirty), NoReason);
    var f2 := Finding(CountMatch, Violation, NoReason);
    var f3 := Finding(CountMatch, StatusFor(!g.dirty && portClean), if g.dirty || !portClean then Loss else NoReason);
    var c1, c2, c3 := !EndMatches(g.head, m), g.received > g.head.total, g.received < g.head.total;
    DrawsAppend(If(c1, f1) + If(c2, f2), If(c3, f3), r, st);
    DrawsAppend(If(c1, f1), If(c2, f2), r, st);
    OneDraws(c1, f1, r, st);
    OneDraws(c2, f2, r, st);
    OneDraws(c3, f3, r, st);
  }

  /** Grouping is charged to a Begin if and only if a group without a gap is open, and
      to an order or End if and only if none is and the port shows no loss. */
  lemma GroupingIsCharged(open: Option<Group>, m: Msg, portClean: bool)
    ensures Draws(MsgFindings(open, m, portClean), Grouping, Violation)
      <==> if m.Begin? then open.Some? && !open.value.dirty else open.None? && portClean
  {
    match m
    case Begin(_) =>
      var f := Finding(Grouping, StatusFor(open.Some? && !open.value.dirty), NoReason);
      OneDraws(open.Some?, f, Grouping, Violation);
    case Order(_, _, _) =>
      if open.Some? { OrderFindingsAre(open.value, m, Grouping, Violation); }
      else { assert MsgFindings(open, m, portClean)[0].rule == Grouping; }
    case End(_, _, _) =>
      if open.Some? { EndFindingsAre(open.value, m, portClean, Grouping, Violation); }
      else { assert MsgFindings(open, m, portClean)[0].rule == Grouping; }
  }
}
