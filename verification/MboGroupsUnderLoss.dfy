/** Market-by-order snapshot groups when datagrams are lost or cut short: what a
    conforming publisher can still be charged with, and exactly when. */
module MboGroupsUnderLoss {
  import opened Core
  import opened MboGroups

  // ---- the publisher -------------------------------------------------------

  /** The group the publisher is in the middle of: its head and what it sent. */
  datatype Sending = Sending(head: Head, orders: map<u64, SnapOrder>, sent: nat)

  /** `lastId` holds the latest Snapshot ID minted for each instrument. */
  datatype Publisher = Publisher(cur: Option<Sending>, lastId: map<u32, u32>)
  {
    predicate Valid() {
      cur.Some? ==>
        && cur.value.head.instr in lastId && lastId[cur.value.head.instr] == cur.value.head.id
        && |cur.value.orders| == cur.value.sent <= cur.value.head.total
    }

    /** Well-formed and not interleaved: a Begin with a fresh ID, the announced
        number of distinct orders under it, and an End that repeats the Begin. */
    predicate Emits(m: Msg) {
      match m
      case Begin(h) => cur.None? && (h.instr in lastId ==> lastId[h.instr] < h.id)
      case Order(id, orderID, _) =>
        && cur.Some? && id == cur.value.head.id && orderID !in cur.value.orders
        && cur.value.sent < cur.value.head.total
      case End(_, _, _) => cur.Some? && cur.value.sent == cur.value.head.total && EndMatches(cur.value.head, m)
    }

    function Emit(m: Msg): Publisher
      requires Emits(m)
    {
      match m
      case Begin(h) => Publisher(Some(Sending(h, map[], 0)), lastId[h.instr := h.id])
      case Order(_, o, rec) =>
        Publisher(Some(Sending(cur.value.head, cur.value.orders[o := rec], cur.value.sent + 1)), lastId)
      case End(_, _, _) => Publisher(None, lastId)
    }
  }

  predicate EmitsAll(p: Publisher, ms: seq<Msg>)
    decreases |ms|
  {
    ms == [] || (p.Emits(ms[0]) && EmitsAll(p.Emit(ms[0]), ms[1..]))
  }

  function EmitAll(p: Publisher, ms: seq<Msg>): Publisher
    requires EmitsAll(p, ms)
    decreases |ms|
  {
    if ms == [] then p else EmitAll(p.Emit(ms[0]), ms[1..])
  }

  lemma {:induction false} EmitsSplit(p: Publisher, ms: seq<Msg>, n: nat)
    requires EmitsAll(p, ms) && n <= |ms|
    ensures EmitsAll(p, ms[..n]) && EmitsAll(EmitAll(p, ms[..n]), ms[n..])
    ensures EmitAll(EmitAll(p, ms[..n]), ms[n..]) == EmitAll(p, ms)
    decreases |ms|
  {
    if n == 0 {
      assert ms[..0] == [] && ms[0..] == ms;
    } else {
      EmitsSplit(p.Emit(ms[0]), ms[1..], n - 1);
      assert ms[..n][1..] == ms[1..][..n - 1] && ms[1..][n - 1..] == ms[n..];
    }
  }

  lemma EmitKeepsValid(p: Publisher, m: Msg)
    requires p.Valid() && p.Emits(m)
    ensures p.Emit(m).Valid()
  {
    if m.Order? {
      var orders := p.cur.value.orders;
      assert orders[m.orderID := m.order].Keys == orders.Keys + {m.orderID};
      assert |orders[m.orderID := m.order]| == |orders| + 1;
    }
  }

  // ---- the checker on a channel's snapshot port -----------------------------

  /** The open group, the port's gap-or-corruption taint and its last number. */
  datatype Chk = Chk(open: Option<Group>, tainted: bool, last: Option<u64>)

  const START := Chk(None, false, None)

  function Soil(open: Option<Group>): Option<Group> {
    if open.None? then None
    else
      var g := open.value;
      Some(Group(g.head, g.received, g.orders, true, g.structural, g.portSeq))
  }

  /** What a frame does before its messages are read. */
  function Arrived(c: Chk, seqNo: u64, cut: bool): Chk {
    var open := if cut then Soil(c.open) else c.open;
    Chk(if open.None? then None else Some(Arrive(open.value, seqNo)),
        c.tainted || cut || (c.last.Some? && seqNo > c.last.value + 1),
        Some(seqNo))
  }

  function AfterMsg(c: Chk, m: Msg, seqNo: u64): Chk {
    Chk(NextOpen(c.open, m, seqNo), c.tainted, c.last)
  }

  function AfterMsgs(c: Chk, ms: seq<Msg>, seqNo: u64): Chk
    decreases |ms|
  {
    if ms == [] then c else AfterMsgs(AfterMsg(c, ms[0], seqNo), ms[1..], seqNo)
  }

  function Judged(c: Chk, m: Msg): seq<Finding> { MsgFindings(c.open, m, !c.tainted) }

  function FindingsOf(c: Chk, ms: seq<Msg>, seqNo: u64): seq<Finding>
    decreases |ms|
  {
    if ms == [] then [] else Judged(c, ms[0]) + FindingsOf(AfterMsg(c, ms[0], seqNo), ms[1..], seqNo)
  }

  /** The group an End closes, as it is handed on. */
  function Done(open: Option<Group>, m: Msg): seq<Group> {
    if m.End? && open.Some? then [OnEnd(open.value, m)] else []
  }

  function DoneIn(c: Chk, ms: seq<Msg>, seqNo: u64): seq<Group>
    decreases |ms|
  {
    if ms == [] then [] else Done(c.open, ms[0]) + DoneIn(AfterMsg(c, ms[0], seqNo), ms[1..], seqNo)
  }

  // ---- what happens on the port ---------------------------------------------

  datatype Fate = Lost | Whole | Cut(kept: nat)

  /** The publisher sends a datagram; one without a whole header reaches the
      port; or an InstrumentReset on the market-data port drops the group open on
      the channel, whichever instrument it is for. */
  datatype Event = Sends(msgs: seq<Msg>, fate: Fate) | Scrap | Drop

  function Seen(e: Event): (ms: seq<Msg>)
    ensures e.Sends? ==> ms <= e.msgs
  {
    match e
    case Sends(msgs, fate) =>
      (match fate
       case Lost => []
       case Whole => msgs
       case Cut(n) => if n < |msgs| then msgs[..n] else msgs)
    case _ => []
  }

  function Unseen(e: Event): seq<Msg> {
    if e.Sends? then e.msgs[|Seen(e)|..] else []
  }

  predicate Arrives(e: Event) { e.Sends? && !e.fate.Lost? }

  /** Datagrams carry consecutive numbers; `next` is the coming one. */
  datatype System = System(p: Publisher, c: Chk, next: nat)

  function Start(p: Publisher, first: nat): System { System(p, START, first) }

  predicate CanTake(y: System, e: Event) {
    e.Sends? ==> y.next + 1 < U64_MOD && EmitsAll(y.p, e.msgs)
  }

  /** The checker as the messages of an arriving datagram find it. */
  function Entered(y: System, e: Event): Chk
    requires y.next < U64_MOD && e.Sends?
  {
    Arrived(y.c, y.next, e.fate.Cut?)
  }

  function Step(y: System, e: Event): System
    requires CanTake(y, e)
  {
    match e
    case Sends(msgs, fate) =>
      System(EmitAll(y.p, msgs),
             if fate.Lost? then y.c else AfterMsgs(Entered(y, e), Seen(e), y.next),
             y.next + 1)
    case Scrap => System(y.p, Chk(Soil(y.c.open), true, y.c.last), y.next)
    case Drop => System(y.p, Chk(None, y.c.tainted, y.c.last), y.next)
  }

  function Reported(y: System, e: Event): seq<Finding>
    requires CanTake(y, e)
  {
    if Arrives(e) then FindingsOf(Entered(y, e), Seen(e), y.next) else []
  }

  function HandedOn(y: System, e: Event): seq<Group>
    requires CanTake(y, e)
  {
    if Arrives(e) then DoneIn(Entered(y, e), Seen(e), y.next) else []
  }

  predicate CanRun(y: System, es: seq<Event>)
    decreases |es|, 0
  {
    es == [] || (CanRun(y, es[..|es| - 1]) && CanTake(Run(y, es[..|es| - 1]), es[|es| - 1]))
  }

  function Run(y: System, es: seq<Event>): System
    requires CanRun(y, es)
    decreases |es|, 1
  {
    if es == [] then y else Step(Run(y, es[..|es| - 1]), es[|es| - 1])
  }

  function RunFindings(y: System, es: seq<Event>): seq<Finding>
    requires CanRun(y, es)
  {
    if es == [] then []
    else RunFindings(y, es[..|es| - 1]) + Reported(Run(y, es[..|es| - 1]), es[|es| - 1])
  }

  function RunDone(y: System, es: seq<Event>): seq<Group>
    requires CanRun(y, es)
  {
    if es == [] then []
    else RunDone(y, es[..|es| - 1]) + HandedOn(Run(y, es[..|es| - 1]), es[|es| - 1])
  }

  // ---- what holds whatever happens ------------------------------------------

  predicate Within(orders: map<u64, SnapOrder>, all: map<u64, SnapOrder>) {
    orders.Keys <= all.Keys && forall o :: o in orders ==> orders[o] == all[o]
  }

  /** The publisher is still in the group the checker holds. */
  predicate InGroup(p: Publisher, g: Group) {
    && p.cur.Some? && p.cur.value.head == g.head
    && g.received == |g.orders| && Within(g.orders, p.cur.value.orders)
  }

  /** It left that group, and no later group of the instrument has its ID. */
  predicate Past(p: Publisher, g: Group) {
    && g.head.instr in p.lastId && p.lastId[g.head.instr] >= g.head.id
    && (p.cur.Some? && p.cur.value.head.instr == g.head.instr ==> p.cur.value.head.id > g.head.id)
  }

  predicate Inv(p: Publisher, c: Chk) {
    && p.Valid()
    && (c.open.Some? ==>
          && c.last.Some? && (c.open.value.portSeq == 0 || c.last == Some(c.open.value.portSeq))
          && (InGroup(p, c.open.value) || Past(p, c.open.value))
          && (c.open.value.dirty ==> c.tainted))
  }

  predicate SysInv(y: System) {
    Inv(y.p, y.c) && (y.c.last.Some? ==> y.c.last.value < y.next)
  }

  lemma WithinIsSmaller(a: map<u64, SnapOrder>, b: map<u64, SnapOrder>)
    requires Within(a, b)
    ensures |a| <= |b|
    ensures |a| == |b| ==> a == b
  {
    var rest := b.Keys - a.Keys;
    assert a.Keys + rest == b.Keys;
    assert |a.Keys + rest| == |a.Keys| + |rest|;
    if |a| == |b| { assert rest == {}; }
  }

  lemma InGroupOrder(p: Publisher, g: Group, m: Msg)
    requires m.Order? && p.Valid() && p.Emits(m) && InGroup(p, g)
    ensures InGroup(p.Emit(m), OnOrder(g, m)) && InGroup(p.Emit(m), g)
  {
    assert m.orderID !in g.orders;
    assert g.orders[m.orderID := m.order].Keys == g.orders.Keys + {m.orderID};
  }

  lemma {:induction false} MsgKeeps(p: Publisher, c: Chk, m: Msg, seqNo: u64)
    requires Inv(p, c) && p.Emits(m) && c.last == Some(seqNo)
    ensures Inv(p.Emit(m), AfterMsg(c, m, seqNo))
  {
    EmitKeepsValid(p, m);
    if m.Order? && c.open.Some? && InGroup(p, c.open.value) {
      InGroupOrder(p, c.open.value, m);
    }
  }

  lemma {:induction false} MsgsKeep(p: Publisher, c: Chk, ms: seq<Msg>, seqNo: u64)
    requires Inv(p, c) && EmitsAll(p, ms) && c.last == Some(seqNo)
    ensures Inv(EmitAll(p, ms), AfterMsgs(c, ms, seqNo))
    ensures AfterMsgs(c, ms, seqNo).last == Some(seqNo) && AfterMsgs(c, ms, seqNo).tainted == c.tainted
    decreases |ms|
  {
    if ms != [] {
      MsgKeeps(p, c, ms[0], seqNo);
      MsgsKeep(p.Emit(ms[0]), AfterMsg(c, ms[0], seqNo), ms[1..], seqNo);
    }
  }

  /** A message that nobody sees moves only the publisher. */
  lemma {:induction false} UnseenKeeps(p: Publisher, c: Chk, ms: seq<Msg>)
    requires Inv(p, c) && EmitsAll(p, ms)
    ensures Inv(EmitAll(p, ms), c)
    ensures c.open.Some? && ms != [] ==> Beyond(EmitAll(p, ms), c.open.value)
    decreases |ms|
  {
    if ms != [] {
      UnseenMsg(p, c, ms[0]);
      UnseenKeeps(p.Emit(ms[0]), c, ms[1..]);
      assert c.open.Some? && ms[1..] == [] ==> EmitAll(p, ms) == p.Emit(ms[0]);
    }
  }

  /** The publisher has sent more than the group holds, or has left it. */
  predicate Beyond(p: Publisher, g: Group) {
    (InGroup(p, g) && p.cur.value.sent > g.received) || Past(p, g)
  }

  lemma UnseenMsg(p: Publisher, c: Chk, m: Msg)
    requires Inv(p, c) && p.Emits(m)
    ensures Inv(p.Emit(m), c)
    ensures c.open.Some? ==> Beyond(p.Emit(m), c.open.value)
  {
    EmitKeepsValid(p, m);
    if c.open.Some? && InGroup(p, c.open.value) && m.Order? {
      InGroupOrder(p, c.open.value, m);
      WithinIsSmaller(c.open.value.orders, p.cur.value.orders);
    }
  }

  lemma EnteredKeeps(y: System, e: Event)
    requires SysInv(y) && y.next < U64_MOD && e.Sends?
    ensures Inv(y.p, Entered(y, e)) && Entered(y, e).last == Some(y.next)
  {
  }

  lemma {:induction false} SentKeeps(y: System, e: Event)
    requires SysInv(y) && CanTake(y, e) && e.Sends?
    ensures SysInv(Step(y, e))
  {
    var n := |Seen(e)|;
    assert Seen(e) == e.msgs[..n];
    EmitsSplit(y.p, e.msgs, n);
    if e.fate.Lost? {
      UnseenKeeps(y.p, y.c, e.msgs);
    } else {
      EnteredKeeps(y, e);
      MsgsKeep(y.p, Entered(y, e), Seen(e), y.next);
      UnseenKeeps(EmitAll(y.p, Seen(e)), Step(y, e).c, e.msgs[n..]);
    }
  }

  lemma {:induction false} StepKeeps(y: System, e: Event)
    requires SysInv(y) && CanTake(y, e)
    ensures SysInv(Step(y, e))
  {
    if e.Sends? { SentKeeps(y, e); }
  }

  lemma {:induction false} RunKeeps(y: System, es: seq<Event>)
    requires SysInv(y) && CanRun(y, es)
    ensures SysInv(Run(y, es))
  {
    if es != [] {
      RunKeeps(y, es[..|es| - 1]);
      StepKeeps(Run(y, es[..|es| - 1]), es[|es| - 1]);
    }
  }

  // ---- what is handed to the oracle -----------------------------------------

  /** The groups the publisher finishes. */
  function Ended(p: Publisher, m: Msg): seq<Sending> {
    if m.End? && p.cur.Some? then [p.cur.value] else []
  }

  function EndedIn(p: Publisher, ms: seq<Msg>): seq<Sending>
    requires EmitsAll(p, ms)
    decreases |ms|
  {
    if ms == [] then [] else Ended(p, ms[0]) + EndedIn(p.Emit(ms[0]), ms[1..])
  }

  function RunEnded(y: System, es: seq<Event>): seq<Sending>
    requires CanRun(y, es)
  {
    if es == [] then []
    else
      var init, e := es[..|es| - 1], es[|es| - 1];
      RunEnded(y, init) + (if e.Sends? then EndedIn(Run(y, init).p, e.msgs) else [])
  }

  predicate Same(g: Group, s: Sending) { g.head == s.head && g.orders == s.orders }

  /** The group is flagged as ill-formed, or is one the publisher sent. */
  predicate Accounted(g: Group, ss: seq<Sending>) {
    g.structural || exists s :: s in ss && Same(g, s)
  }

  predicate AllAccounted(gs: seq<Group>, ss: seq<Sending>) {
    forall g :: g in gs ==> Accounted(g, ss)
  }

  lemma AccountedAppend(a: seq<Group>, b: seq<Group>, x: seq<Sending>, y: seq<Sending>)
    requires AllAccounted(a, x) && AllAccounted(b, y)
    ensures AllAccounted(a + b, x + y)
  {
    forall g | g in a + b ensures Accounted(g, x + y) {
      if !g.structural {
        assert g in a ==> Accounted(g, x);
        assert g in b ==> Accounted(g, y);
        var s :| (s in x || s in y) && Same(g, s);
        assert s in x + y;
      }
    }
  }

  /** An End that matches the held group is that group's own, whatever was lost;
      and if no order is then missing, none is foreign. */
  lemma DoneAccounted(p: Publisher, c: Chk, m: Msg)
    requires Inv(p, c) && p.Emits(m)
    ensures AllAccounted(Done(c.open, m), Ended(p, m))
  {
    if m.End? && c.open.Some? && !OnEnd(c.open.value, m).structural {
      var g := c.open.value;
      assert InGroup(p, g);
      WithinIsSmaller(g.orders, p.cur.value.orders);
      assert p.cur.value in Ended(p, m) && Same(OnEnd(g, m), p.cur.value);
    }
  }

  lemma {:induction false} DoneInAccounted(p: Publisher, c: Chk, ms: seq<Msg>, seqNo: u64)
    requires Inv(p, c) && EmitsAll(p, ms) && c.last == Some(seqNo)
    ensures AllAccounted(DoneIn(c, ms, seqNo), EndedIn(p, ms))
    decreases |ms|
  {
    if ms != [] {
      MsgKeeps(p, c, ms[0], seqNo);
      DoneAccounted(p, c, ms[0]);
      DoneInAccounted(p.Emit(ms[0]), AfterMsg(c, ms[0], seqNo), ms[1..], seqNo);
      AccountedAppend(Done(c.open, ms[0]), DoneIn(AfterMsg(c, ms[0], seqNo), ms[1..], seqNo),
                      Ended(p, ms[0]), EndedIn(p.Emit(ms[0]), ms[1..]));
    }
  }

  lemma {:induction false} EndedSplit(p: Publisher, ms: seq<Msg>, n: nat, s: Sending)
    requires EmitsAll(p, ms) && n <= |ms|
    ensures EmitsAll(p, ms[..n]) && (s in EndedIn(p, ms[..n]) ==> s in EndedIn(p, ms))
    decreases |ms|
  {
    if n == 0 {
      assert ms[..0] == [];
    } else {
      EndedSplit(p.Emit(ms[0]), ms[1..], n - 1, s);
      assert ms[..n][1..] == ms[1..][..n - 1];
    }
  }

  lemma {:induction false} HandedOnAccounted(y: System, e: Event)
    requires SysInv(y) && CanTake(y, e) && e.Sends?
    ensures AllAccounted(HandedOn(y, e), EndedIn(y.p, e.msgs))
  {
    if Arrives(e) {
      var n := |Seen(e)|;
      assert Seen(e) == e.msgs[..n];
      EmitsSplit(y.p, e.msgs, n);
      EnteredKeeps(y, e);
      DoneInAccounted(y.p, Entered(y, e), Seen(e), y.next);
      forall g | g in HandedOn(y, e) ensures Accounted(g, EndedIn(y.p, e.msgs)) {
        if !g.structural {
          assert Accounted(g, EndedIn(y.p, Seen(e)));
          var s :| s in EndedIn(y.p, Seen(e)) && Same(g, s);
          EndedSplit(y.p, e.msgs, n, s);
        }
      }
    }
  }

  /** From any point of a conforming rotation and whatever is lost, cut or
      dropped, every group handed to the oracle is flagged as ill-formed or is,
      head and orders, one that the publisher sent. */
  lemma {:induction false} CompletedGroupsAreSent(y: System, es: seq<Event>)
    requires SysInv(y) && CanRun(y, es)
    ensures AllAccounted(RunDone(y, es), RunEnded(y, es))
  {
    if es != [] {
      var init, e := es[..|es| - 1], es[|es| - 1];
      CompletedGroupsAreSent(y, init);
      RunKeeps(y, init);
      var y1 := Run(y, init);
      if e.Sends? { HandedOnAccounted(y1, e); }
      AccountedAppend(RunDone(y, init), HandedOn(y1, e),
                      RunEnded(y, init), if e.Sends? then EndedIn(y1.p, e.msgs) else []);
    }
  }

  // ---- when the publisher is charged ----------------------------------------

  /** The checker holds exactly what the publisher has sent of its group. */
  predicate Synced(g: Group, p: Publisher) {
    && p.cur.Some? && !g.structural
    && g.head == p.cur.value.head && g.received == p.cur.value.sent && g.orders == p.cur.value.orders
  }

  /** The checker is where the publisher is, or knows that something is missing. */
  predicate InTouch(c: Chk, p: Publisher) {
    match c.open
    case None => c.tainted || p.cur.None?
    case Some(g) => g.dirty || Synced(g, p)
  }

  /** The one charge that a loss which shows does not excuse. */
  predicate OverCount(f: Finding) { f == Finding(CountMatch, Violation, NoReason) }

  predicate Excused(fs: seq<Finding>) {
    forall f :: f in fs && f.status == Violation ==> OverCount(f)
  }

  predicate Accuses(c: Chk, m: Msg) {
    exists f :: f in Judged(c, m) && f.status == Violation
  }

  /** A Grouping violation is reported exactly when the checker is out of touch
      and meets an order or End while it holds no group, or a Begin while it
      holds one: when it missed the publisher's Begin or End and does not know. */
  lemma {:induction false} GroupingChargedExactly(p: Publisher, c: Chk, m: Msg)
    requires Inv(p, c) && p.Emits(m)
    ensures Finding(Grouping, Violation, NoReason) in Judged(c, m)
      <==> !InTouch(c, p) && (c.open.None? || m.Begin?)
  {
  }

  lemma {:induction false} TouchMsg(p: Publisher, c: Chk, m: Msg, seqNo: u64)
    requires Inv(p, c) && InTouch(c, p) && p.Emits(m)
    ensures InTouch(AfterMsg(c, m, seqNo), p.Emit(m))
    ensures Excused(Judged(c, m))
    ensures c.open.Some? && Synced(c.open.value, p) ==> Judged(c, m) == []
    ensures c.open.None? && p.cur.None? ==> Judged(c, m) == []
  {
  }

  /** While the checker is in touch, the one message that draws a violation is an
      End that finds more orders than were announced. */
  lemma {:induction false} AccusesExactlyOnOverCount(p: Publisher, c: Chk, m: Msg)
    requires Inv(p, c) && InTouch(c, p) && p.Emits(m)
    ensures Accuses(c, m) <==> m.End? && c.open.Some? && c.open.value.received > c.open.value.head.total
  {
    TouchMsg(p, c, m, 0);
    if m.End? && c.open.Some? && c.open.value.received > c.open.value.head.total {
      assert Finding(CountMatch, Violation, NoReason) in EndFindings(c.open.value, m, !c.tainted);
    }
  }

  lemma {:induction false} TouchMsgs(p: Publisher, c: Chk, ms: seq<Msg>, seqNo: u64)
    requires Inv(p, c) && InTouch(c, p) && EmitsAll(p, ms) && c.last == Some(seqNo)
    ensures InTouch(AfterMsgs(c, ms, seqNo), EmitAll(p, ms))
    ensures Excused(FindingsOf(c, ms, seqNo))
    decreases |ms|
  {
    if ms != [] {
      TouchMsg(p, c, ms[0], seqNo);
      MsgKeeps(p, c, ms[0], seqNo);
      TouchMsgs(p.Emit(ms[0]), AfterMsg(c, ms[0], seqNo), ms[1..], seqNo);
    }
  }

  /** The checker as the next whole datagram would find it. */
  function Next(y: System): Chk
    requires y.next < U64_MOD
  {
    Arrived(y.c, y.next, false)
  }

  /** In touch when the next datagram comes: what was lost will show by then. */
  predicate Touch(y: System) {
    y.next < U64_MOD && InTouch(Next(y), y.p)
  }

  /** What the four ways of losing touch avoid. Before the first datagram, or if
      loss cannot show, the publisher must be between groups; a group opened in
      frame 0 must not lose a message; a cut must not follow a Begin that it
      leaves open; and a group must not be dropped on a port that shows no loss. */
  predicate Fair(y: System, e: Event)
    requires CanTake(y, e) && y.next < U64_MOD
  {
    match e
    case Scrap => true
    case Drop => Next(y).tainted || y.p.cur.None?
    case Sends(msgs, fate) =>
      match fate
      case Whole => true
      case Lost =>
        if y.c.last.None? then y.c.tainted || EmitAll(y.p, msgs).cur.None?
        else y.c.open.Some? && y.c.open.value.portSeq == 0 && !y.c.open.value.dirty ==> msgs == []
      case Cut(_) =>
        var open := AfterMsgs(Entered(y, e), Seen(e), y.next).open;
        open.Some? && !open.value.dirty ==> Unseen(e) == []
  }

  lemma StartsInTouch(p: Publisher, first: nat)
    requires first < U64_MOD
    ensures Touch(Start(p, first)) <==> p.cur.None?
  {
  }

  lemma NoGapAhead(c: Chk, p: Publisher, seqNo: u64)
    requires Inv(p, c) && c.last == Some(seqNo) && seqNo + 1 < U64_MOD
    ensures InTouch(Arrived(c, seqNo + 1, false), p) <==> InTouch(c, p)
  {
  }

  lemma {:induction false} WholeKeepsTouch(y: System, e: Event)
    requires SysInv(y) && CanTake(y, e) && e.Sends? && e.fate.Whole? && Touch(y)
    ensures Touch(Step(y, e)) && Excused(Reported(y, e))
  {
    EnteredKeeps(y, e);
    TouchMsgs(y.p, Entered(y, e), e.msgs, y.next);
    MsgsKeep(y.p, Entered(y, e), e.msgs, y.next);
    NoGapAhead(Step(y, e).c, Step(y, e).p, y.next);
  }

  /** Once the publisher has moved past what the checker holds, it is out of step. */
  lemma BeyondIsNotSynced(p: Publisher, g: Group)
    requires Beyond(p, g)
    ensures !Synced(g, p)
  {
  }

  lemma {:induction false} LostKeepsTouchExactly(y: System, e: Event)
    requires SysInv(y) && CanTake(y, e) && e.Sends? && e.fate.Lost? && Touch(y)
    ensures Touch(Step(y, e)) <==> Fair(y, e)
  {
    UnseenKeeps(y.p, y.c, e.msgs);
    if y.c.open.Some? && y.c.open.value.portSeq == 0 {
      if e.msgs == [] {
        assert EmitAll(y.p, e.msgs) == y.p;
      } else {
        BeyondIsNotSynced(EmitAll(y.p, e.msgs), y.c.open.value);
      }
    }
  }

  lemma {:induction false} CutKeepsTouchExactly(y: System, e: Event)
    requires SysInv(y) && CanTake(y, e) && e.Sends? && e.fate.Cut?
    ensures Touch(Step(y, e)) <==> Fair(y, e)
    ensures Excused(Reported(y, e))
  {
    var n := |Seen(e)|;
    assert Seen(e) == e.msgs[..n];
    EmitsSplit(y.p, e.msgs, n);
    EnteredKeeps(y, e);
    TouchMsgs(y.p, Entered(y, e), Seen(e), y.next);
    MsgsKeep(y.p, Entered(y, e), Seen(e), y.next);
    TailKeepsTouchExactly(EmitAll(y.p, Seen(e)), Step(y, e).c, Unseen(e), y.next);
  }

  lemma {:induction false} TailKeepsTouchExactly(p: Publisher, c: Chk, ms: seq<Msg>, seqNo: u64)
    requires Inv(p, c) && InTouch(c, p) && c.tainted && EmitsAll(p, ms)
    requires c.last == Some(seqNo) && seqNo + 1 < U64_MOD
    ensures InTouch(Arrived(c, seqNo + 1, false), EmitAll(p, ms))
      <==> (c.open.Some? && !c.open.value.dirty ==> ms == [])
  {
    UnseenKeeps(p, c, ms);
    NoGapAhead(c, EmitAll(p, ms), seqNo);
    if c.open.Some? && ms != [] {
      BeyondIsNotSynced(EmitAll(p, ms), c.open.value);
    }
  }

  /** Touch is lost in these four ways and in no other. */
  lemma {:induction false} TouchIsLostExactly(y: System, e: Event)
    requires SysInv(y) && CanTake(y, e) && Touch(y)
    ensures Touch(Step(y, e)) <==> Fair(y, e)
    ensures Excused(Reported(y, e))
  {
    match e
    case Scrap =>
    case Drop =>
    case Sends(_, fate) =>
      match fate
      case Whole => WholeKeepsTouch(y, e);
      case Lost => LostKeepsTouchExactly(y, e);
      case Cut(_) => CutKeepsTouchExactly(y, e);
  }

  predicate AllFair(y: System, es: seq<Event>)
    requires CanRun(y, es)
  {
    es == [] ||
    var init, e := es[..|es| - 1], es[|es| - 1];
    AllFair(y, init) && Run(y, init).next < U64_MOD && Fair(Run(y, init), e)
  }

  lemma {:induction false} FairRunsKeepTouch(y: System, es: seq<Event>)
    requires SysInv(y) && Touch(y) && CanRun(y, es) && AllFair(y, es)
    ensures SysInv(Run(y, es)) && Touch(Run(y, es)) && Excused(RunFindings(y, es))
  {
    if es != [] {
      var init, e := es[..|es| - 1], es[|es| - 1];
      FairRunsKeepTouch(y, init);
      TouchIsLostExactly(Run(y, init), e);
      StepKeeps(Run(y, init), e);
    }
  }

  /** A capture that starts between two groups, whatever is lost, cut or dropped
      afterwards except in the four unfair ways: a publisher of well-formed groups
      is never charged with a grouping, identifier, duplicate, empty-book or
      under-count violation; the one charge left is a count above the total. */
  lemma {:induction false} OnlyOverCountsAccuse(p: Publisher, first: nat, es: seq<Event>)
    requires p.Valid() && p.cur.None? && first < U64_MOD
    requires CanRun(Start(p, first), es) && AllFair(Start(p, first), es)
    ensures Excused(RunFindings(Start(p, first), es))
  {
    StartsInTouch(p, first);
    FairRunsKeepTouch(Start(p, first), es);
  }

  // ---- when not even a count accuses ----------------------------------------

  predicate NoBegin(ms: seq<Msg>) {
    forall i :: 0 <= i < |ms| ==> !ms[i].Begin?
  }

  /** While the checker holds a group, no Begin goes unseen. */
  predicate Spares(y: System, e: Event)
    requires CanTake(y, e)
  {
    Step(y, e).c.open.Some? ==> NoBegin(Unseen(e))
  }

  predicate AllSpare(y: System, es: seq<Event>)
    requires CanRun(y, es)
  {
    es == [] || (AllSpare(y, es[..|es| - 1]) && Spares(Run(y, es[..|es| - 1]), es[|es| - 1]))
  }

  /** The held group is the publisher's, or the publisher is between groups: no
      foreign order can reach it. */
  predicate Own(p: Publisher, c: Chk) {
    c.open.Some? ==> c.open.value.received <= c.open.value.head.total && (InGroup(p, c.open.value) || p.cur.None?)
  }

  lemma {:induction false} OwnMsg(p: Publisher, c: Chk, m: Msg, seqNo: u64)
    requires Inv(p, c) && Own(p, c) && p.Emits(m)
    ensures Own(p.Emit(m), AfterMsg(c, m, seqNo))
    ensures forall f :: f in Judged(c, m) ==> !OverCount(f) || !InTouch(c, p)
  {
    if c.open.Some? && InGroup(p, c.open.value) && m.Order? {
      InGroupOrder(p, c.open.value, m);
      WithinIsSmaller(c.open.value.orders, p.cur.value.orders);
    }
  }

  predicate Silent(fs: seq<Finding>) {
    forall f :: f in fs ==> f.status != Violation
  }

  lemma {:induction false} OwnMsgs(p: Publisher, c: Chk, ms: seq<Msg>, seqNo: u64)
    requires Inv(p, c) && Own(p, c) && EmitsAll(p, ms) && c.last == Some(seqNo)
    ensures Own(EmitAll(p, ms), AfterMsgs(c, ms, seqNo))
    ensures InTouch(c, p) ==> Silent(FindingsOf(c, ms, seqNo))
    decreases |ms|
  {
    if ms != [] {
      OwnMsg(p, c, ms[0], seqNo);
      MsgKeeps(p, c, ms[0], seqNo);
      if InTouch(c, p) { TouchMsg(p, c, ms[0], seqNo); }
      OwnMsgs(p.Emit(ms[0]), AfterMsg(c, ms[0], seqNo), ms[1..], seqNo);
    }
  }

  lemma {:induction false} OwnUnseen(p: Publisher, c: Chk, ms: seq<Msg>)
    requires Inv(p, c) && Own(p, c) && EmitsAll(p, ms) && (c.open.Some? ==> NoBegin(ms))
    ensures Own(EmitAll(p, ms), c)
    decreases |ms|
  {
    if ms != [] {
      assert c.open.Some? ==> !ms[0].Begin?;
      UnseenMsg(p, c, ms[0]);
      assert NoBegin(ms) ==> NoBegin(ms[1..]) by {
        assert forall i :: 0 <= i < |ms| - 1 ==> ms[1..][i] == ms[i + 1];
      }
      if c.open.Some? && InGroup(p, c.open.value) && ms[0].Order? {
        InGroupOrder(p, c.open.value, ms[0]);
      }
      OwnUnseen(p.Emit(ms[0]), c, ms[1..]);
    }
  }

  lemma {:induction false} OwnStep(y: System, e: Event)
    requires SysInv(y) && CanTake(y, e) && Own(y.p, y.c) && Spares(y, e)
    ensures Own(Step(y, e).p, Step(y, e).c)
    ensures Arrives(e) && InTouch(Entered(y, e), y.p) ==> Silent(Reported(y, e))
  {
    if e.Sends? {
      var n := |Seen(e)|;
      assert Seen(e) == e.msgs[..n];
      EmitsSplit(y.p, e.msgs, n);
      if e.fate.Lost? {
        assert e.msgs[0..] == e.msgs;
        OwnUnseen(y.p, y.c, e.msgs);
      } else {
        EnteredKeeps(y, e);
        OwnMsgs(y.p, Entered(y, e), Seen(e), y.next);
        MsgsKeep(y.p, Entered(y, e), Seen(e), y.next);
        OwnUnseen(EmitAll(y.p, Seen(e)), Step(y, e).c, Unseen(e));
      }
    }
  }

  lemma {:induction false} SparedRun(y: System, es: seq<Event>)
    requires SysInv(y) && Touch(y) && Own(y.p, y.c)
    requires CanRun(y, es) && AllFair(y, es) && AllSpare(y, es)
    ensures Own(Run(y, es).p, Run(y, es).c) && Silent(RunFindings(y, es))
  {
    if es != [] {
      var init, e := es[..|es| - 1], es[|es| - 1];
      SparedRun(y, init);
      FairRunsKeepTouch(y, init);
      OwnStep(Run(y, init), e);
      CutIsInTouch(Run(y, init), e);
    }
  }

  lemma CutIsInTouch(y: System, e: Event)
    requires y.next < U64_MOD && Touch(y)
    ensures Arrives(e) ==> InTouch(Entered(y, e), y.p)
  {
  }

  /** If besides no Begin goes unseen while a group is held, loss merges nothing
      and the publisher is never charged at all. */
  lemma {:induction false} SparedBeginsAccuseNobody(p: Publisher, first: nat, es: seq<Event>)
    requires p.Valid() && p.cur.None? && first < U64_MOD
    requires CanRun(Start(p, first), es) && AllFair(Start(p, first), es) && AllSpare(Start(p, first), es)
    ensures Silent(RunFindings(Start(p, first), es))
  {
    StartsInTouch(p, first);
    SparedRun(Start(p, first), es);
  }

  // ---- without loss ---------------------------------------------------------

  predicate AllWhole(es: seq<Event>) {
    forall i :: 0 <= i < |es| ==> es[i].Sends? && es[i].fate.Whole?
  }

  /** In step with the publisher, with nothing missed. */
  predicate InStep(c: Chk, p: Publisher) {
    match c.open
    case None => p.cur.None?
    case Some(g) => Synced(g, p)
  }

  lemma {:induction false} SilentMsgs(p: Publisher, c: Chk, ms: seq<Msg>, seqNo: u64)
    requires Inv(p, c) && InStep(c, p) && EmitsAll(p, ms) && c.last == Some(seqNo)
    ensures FindingsOf(c, ms, seqNo) == [] && InStep(AfterMsgs(c, ms, seqNo), EmitAll(p, ms))
    decreases |ms|
  {
    if ms != [] {
      TouchMsg(p, c, ms[0], seqNo);
      MsgKeeps(p, c, ms[0], seqNo);
      SilentMsgs(p.Emit(ms[0]), AfterMsg(c, ms[0], seqNo), ms[1..], seqNo);
    }
  }

  /** In step, and the next number is the one due. */
  predicate Abreast(y: System) {
    SysInv(y) && InStep(y.c, y.p) && (y.c.last.Some? ==> y.c.last.value + 1 == y.next)
  }

  lemma {:induction false} AbreastStep(y: System, e: Event)
    requires Abreast(y) && CanTake(y, e) && e.Sends? && e.fate.Whole?
    ensures Abreast(Step(y, e)) && Reported(y, e) == []
  {
    EnteredKeeps(y, e);
    SilentMsgs(y.p, Entered(y, e), e.msgs, y.next);
    MsgsKeep(y.p, Entered(y, e), e.msgs, y.next);
    StepKeeps(y, e);
  }

  /** From any state in step, in the middle of a group or not, nothing at all is
      reported while nothing is lost. */
  lemma {:induction false} LosslessIsSilent(y: System, es: seq<Event>)
    requires Abreast(y) && AllWhole(es) && CanRun(y, es)
    ensures RunFindings(y, es) == [] && Abreast(Run(y, es))
  {
    if es != [] {
      var init, e := es[..|es| - 1], es[|es| - 1];
      assert AllWhole(init) && e.Sends?;
      LosslessIsSilent(y, init);
      AbreastStep(Run(y, init), e);
    }
  }

  /** A capture that starts between two groups, whatever its first number, is in
      step from the start. */
  lemma LosslessFromTheStart(p: Publisher, first: nat, es: seq<Event>)
    requires p.Valid() && p.cur.None? && AllWhole(es) && CanRun(Start(p, first), es)
    ensures RunFindings(Start(p, first), es) == []
  {
    LosslessIsSilent(Start(p, first), es);
  }

  // ---- when the first message seen is charged --------------------------------

  /** With no group held, or before a Begin, the first message of a whole datagram
      is charged exactly when the checker is out of touch. */
  lemma {:induction false} FirstMessageChargedExactly(y: System, e: Event)
    requires SysInv(y) && CanTake(y, e) && e.Sends? && e.fate.Whole? && e.msgs != []
    requires y.c.open.None? || e.msgs[0].Begin?
    ensures Finding(Grouping, Violation, NoReason) in Judged(Entered(y, e), e.msgs[0]) <==> !Touch(y)
  {
    EnteredKeeps(y, e);
    GroupingChargedExactly(y.p, Entered(y, e), e.msgs[0]);
  }

  /** At the join: the first message seen is charged exactly when the capture
      starts in the middle of a group. */
  lemma {:induction false} JoinChargedExactly(p: Publisher, first: nat, e: Event)
    requires p.Valid() && CanTake(Start(p, first), e) && e.Sends? && e.fate.Whole? && e.msgs != []
    ensures Finding(Grouping, Violation, NoReason) in Judged(Entered(Start(p, first), e), e.msgs[0])
      <==> p.cur.Some?
  {
    FirstMessageChargedExactly(Start(p, first), e);
    StartsInTouch(p, first);
  }

  /** After an InstrumentReset has dropped the open group, the next message is
      charged exactly when the publisher is in the middle of a group and neither
      a gap nor corruption shows on the port. */
  lemma {:induction false} DropChargedExactly(y: System, e: Event)
    requires SysInv(y) && CanTake(y, e) && e.Sends? && e.fate.Whole? && e.msgs != []
    requires CanTake(Step(y, Drop), e)
    ensures Finding(Grouping, Violation, NoReason) in Judged(Entered(Step(y, Drop), e), e.msgs[0])
      <==> y.p.cur.Some? && !Next(y).tainted
  {
    StepKeeps(y, Drop);
    FirstMessageChargedExactly(Step(y, Drop), e);
  }
}
