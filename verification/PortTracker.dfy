/** One channel instance on one port (`portTracker` in `engine/state.go` and the
    intake half of `Process` in `engine/engine.go`): the reorder buffer, the era
    it belongs to, and the order of eras it shares with the channel's other ports. */
module PortTracker {
  import opened Core
  import opened Reorder
  import Eras
  import Series

  /** The decision on a datagram, and the port once it is taken. A reset is only
      decided here; `AdvanceEra` carries it out. */
  datatype Admission = Admission(decision: Eras.Decision, p: Eras.PortEra)

  function Admitted(was: Eras.PortEra, log: Eras.Log, inEra: u8, window: nat): Admission
    requires was.seen
  {
    var o := Eras.Decide(was, log, inEra, window);
    Admission(o.decision, if o.decision.Advance? then was else o.p)
  }

  /** What a decision does to the buffer: what it drains and releases, and what
      is left. */
  datatype Handling = Handling(drained: seq<Item>, released: seq<Item>, left: set<Item>)

  ghost function HandledBy(decision: Eras.Decision, was: seq<Item>, item: Item, window: nat): Handling {
    match decision
    case Advance(_) => Handling(Drained(Elements(was)), [], {})
    case Quarantine => Handling([], [], Elements(was))
    case Accept => Handling([], ReleasedBy(Elements(was), item, window), Reorder.Kept(Elements(was), item, window))
  }

  class Port {
    const order: Eras.EraOrder
    const series: Series.Tracker
    var era: u8
    var eraInitialized: bool
    var eraPos: nat
    var floorPos: nat
    var stragglers: nat
    var buf: seq<Item>
    var arrivalCounter: nat

    ghost function View(): Eras.PortEra
      reads this
    {
      Eras.PortEra(era, eraInitialized, eraPos, floorPos, stragglers)
    }

    ghost predicate BufferOk(window: nat)
      reads this
    {
      && |buf| <= window
      && (forall i, j :: 0 <= i < j < |buf| ==> buf[i].arrival != buf[j].arrival)
      && (forall i :: 0 <= i < |buf| ==> buf[i].arrival <= arrivalCounter && buf[i].era == era)
    }

    constructor (order: Eras.EraOrder, window: nat)
      ensures View() == Eras.UNSEEN && buf == [] && BufferOk(window)
      ensures this.order == order && fresh(series) && fresh(series.hashRing)
      ensures series.Valid() && series.View() == Series.START
    {
      this.order := order;
      series := new Series.Tracker(window);
      era, eraInitialized, eraPos, floorPos, stragglers := 0, false, 0, 0, 0;
      buf, arrivalCounter := [], 0;
    }

    method PopMin() returns (m: Item)
      requires buf != []
      requires forall i, j :: 0 <= i < j < |buf| ==> buf[i].arrival != buf[j].arrival
      modifies this`buf
      ensures m in Elements(old(buf)) && m == Least(Elements(old(buf)))
      ensures Elements(buf) == Elements(old(buf)) - {m} && |buf| == |old(buf)| - 1
      ensures forall i, j :: 0 <= i < j < |buf| ==> buf[i].arrival != buf[j].arrival
    {
      var at, i := 0, 1;
      while i < |buf|
        invariant 0 <= at < i <= |buf|
        invariant forall j :: 0 <= j < i ==> !Less(buf[j], buf[at])
      {
        if Less(buf[i], buf[at]) {
          at := i;
        }
        i := i + 1;
      }
      m := buf[at];
      LeastIs(Elements(buf), m);
      RemoveAt(buf, at);
      buf := buf[..at] + buf[at + 1..];
    }

    /** Empties the buffer in sequence order. */
    method DrainAll() returns (out: seq<Item>)
      requires forall i, j :: 0 <= i < j < |buf| ==> buf[i].arrival != buf[j].arrival
      modifies this`buf
      ensures out == Drained(Elements(old(buf))) && buf == []
    {
      out := [];
      while |buf| > 0
        invariant forall i, j :: 0 <= i < j < |buf| ==> buf[i].arrival != buf[j].arrival
        invariant out + Drained(Elements(buf)) == Drained(Elements(old(buf)))
        decreases |buf|
      {
        ghost var was := Elements(buf);
        assert buf[0] in was;
        var m := PopMin();
        out := out + [m];
      }
      assert Elements(buf) == {};
    }

    method Push(inEra: u8, inSeq: u64, frame: nat, window: nat) returns (item: Item)
      requires BufferOk(window) && inEra == era
      modifies this`buf, this`arrivalCounter
      ensures item == Item(inEra, inSeq, arrivalCounter, frame) && arrivalCounter == old(arrivalCounter) + 1
      ensures buf == old(buf) + [item]
      ensures item !in Elements(old(buf))
      ensures BufferOk(window + 1)
    {
      arrivalCounter := arrivalCounter + 1;
      item := Item(inEra, inSeq, arrivalCounter, frame);
      buf := buf + [item];
    }

    /** Pushes one datagram of the current era and releases the least buffered
        one once the window is exceeded. */
    method PushAndPop(inEra: u8, inSeq: u64, frame: nat, window: nat) returns (item: Item, out: seq<Item>)
      requires BufferOk(window) && inEra == era
      modifies this`buf, this`arrivalCounter
      ensures item == Item(inEra, inSeq, old(arrivalCounter) + 1, frame)
      ensures out == ReleasedBy(Elements(old(buf)), item, window)
      ensures Elements(buf) == Reorder.Kept(Elements(old(buf)), item, window)
      ensures BufferOk(window)
    {
      item := Push(inEra, inSeq, frame, window);
      PushedElements(old(buf), item, buf);
      out := [];
      if |buf| > window {
        ghost var all := Elements(buf);
        out := PopLeast(window);
        assert all == Elements(old(buf)) + {item};
      }
    }

    method PopLeast(window: nat) returns (out: seq<Item>)
      requires BufferOk(window + 1) && Elements(buf) != {}
      modifies this`buf
      ensures out == [Least(Elements(old(buf)))]
      ensures Elements(buf) == Elements(old(buf)) - {Least(Elements(old(buf)))}
      ensures BufferOk(window)
    {
      assert buf != [];
      var m := PopMin();
      assert forall i :: 0 <= i < |buf| ==> buf[i] in Elements(buf);
      out := [m];
    }

    /** Seeds the era from the first datagram, joining one another port entered. */
    method SeedEra(inEra: u8)
      requires order.Valid()
      modifies this`era, this`eraInitialized, this`eraPos, this`floorPos, order
      ensures order.Valid() && eraInitialized
      ensures Eras.Outcome(View(), order.log, Eras.Accept) == Eras.Seed(old(View()), old(order.log), inEra)
    {
      if !eraInitialized {
        JoinEra(inEra);
      }
    }

    method JoinEra(inEra: u8)
      requires order.Valid()
      modifies this`era, this`eraInitialized, this`eraPos, this`floorPos, order
      ensures order.Valid()
      ensures var e := Eras.Entered(old(order.log), inEra, 0);
              order.log == e.log && View() == Eras.PortEra(inEra, true, e.ordinal, e.ordinal - 1, old(stragglers))
    {
      era := inEra;
      eraInitialized := true;
      eraPos := order.Enter(inEra, 0);
      floorPos := eraPos - 1;
    }

    /** Tells a current datagram from a reset and from a straggler. */
    method Admit(inEra: u8, window: nat) returns (decision: Eras.Decision)
      requires order.Valid() && eraInitialized
      modifies this`stragglers
      ensures Admission(decision, View()) == Admitted(old(View()), old(order.log), inEra, window)
      ensures decision.Accept? ==> inEra == era
    {
      var p := order.Last(inEra);
      if inEra != era || p > eraPos {
        var late := inEra != era && p > 0 && p >= floorPos && p < eraPos;
        if late && stragglers < (if window > 1 then window else 1) {
          stragglers := stragglers + 1;
          return Eras.Quarantine;
        }
        return Eras.Advance(late);
      }
      stragglers := 0;
      return Eras.Accept;
    }

    /** What an admitted datagram does to the buffer: on a reset the old era's
        items come back for classification before `AdvanceEra`, a current
        datagram is buffered, a straggler is dropped. */
    method Enqueue(inEra: u8, inSeq: u64, frame: nat, window: nat)
      returns (decision: Eras.Decision, drained: seq<Item>, released: seq<Item>)
      requires order.Valid() && BufferOk(window) && eraInitialized
      modifies this`stragglers, this`buf, this`arrivalCounter
      ensures Admission(decision, View()) == Admitted(old(View()), old(order.log), inEra, window)
      ensures Handling(drained, released, Elements(buf))
           == HandledBy(decision, old(buf), Item(inEra, inSeq, old(arrivalCounter) + 1, frame), window)
      ensures decision.Quarantine? ==> buf == old(buf)
      ensures BufferOk(window)
    {
      decision := Admit(inEra, window);
      drained, released := Handle(decision, inEra, inSeq, frame, window);
    }

    method Handle(decision: Eras.Decision, inEra: u8, inSeq: u64, frame: nat, window: nat)
      returns (drained: seq<Item>, released: seq<Item>)
      requires BufferOk(window) && (decision.Accept? ==> inEra == era)
      modifies this`buf, this`arrivalCounter
      ensures View() == old(View())
      ensures Handling(drained, released, Elements(buf))
           == HandledBy(decision, old(buf), Item(inEra, inSeq, old(arrivalCounter) + 1, frame), window)
      ensures decision.Quarantine? ==> buf == old(buf)
      ensures BufferOk(window)
    {
      drained, released := [], [];
      if decision.Advance? {
        drained := DrainAll();
      } else if decision.Accept? {
        var item;
        item, released := PushAndPop(inEra, inSeq, frame, window);
      }
    }

    method EnterEra(newEra: u8)
      requires order.Valid()
      modifies this`era, this`eraPos, this`floorPos, this`stragglers, order
      ensures order.Valid()
      ensures var e := Eras.Entered(old(order.log), newEra, old(eraPos));
              && order.log == e.log
              && View() == Eras.PortEra(newEra, eraInitialized, e.ordinal, old(eraPos), 0)
    {
      floorPos := eraPos;
      eraPos := order.Enter(newEra, eraPos);
      stragglers := 0;
      era := newEra;
    }

    /** Moves to the era `newEra` once the old era's items are classified. */
    method AdvanceEra(newEra: u8)
      requires order.Valid() && eraInitialized && buf == []
      requires 0 < series.hashRing.Length
      modifies this`era, this`eraPos, this`floorPos, this`stragglers, order, series, series.hashRing
      ensures order.Valid() && buf == []
      ensures var e := Eras.Entered(old(order.log), newEra, old(eraPos));
              && order.log == e.log
              && View() == Eras.PortEra(newEra, true, e.ordinal, old(eraPos), 0)
      ensures series.Valid() && series.View() == Series.State([], None, false, old(series.taints))
    {
      EnterEra(newEra);
      series.Clear();
    }
  }

  lemma {:induction false} PushedElements(was: seq<Item>, item: Item, now: seq<Item>)
    requires now == was + [item] && forall i, j :: 0 <= i < j < |now| ==> now[i].arrival != now[j].arrival
    ensures Elements(now) == Elements(was) + {item} && |Elements(now)| == |now|
  {
    ElementsAppend(was, [item]);
    ElementsCount(now);
  }

  lemma RemoveAt(s: seq<Item>, at: nat)
    requires at < |s| && forall i, j :: 0 <= i < j < |s| ==> s[i].arrival != s[j].arrival
    ensures var t := s[..at] + s[at + 1..];
            && Elements(t) == Elements(s) - {s[at]}
            && forall i, j :: 0 <= i < j < |t| ==> t[i].arrival != t[j].arrival
  {
    var t := s[..at] + s[at + 1..];
    forall x | x in Elements(s) - {s[at]} ensures x in Elements(t) {
      var i :| 0 <= i < |s| && s[i] == x;
      assert t[if i < at then i else i - 1] == x;
    }
  }

  lemma {:induction false} ElementsCount(s: seq<Item>)
    requires forall i, j :: 0 <= i < j < |s| ==> s[i].arrival != s[j].arrival
    ensures |Elements(s)| == |s|
  {
    if s != [] {
      var n := |s| - 1;
      ElementsCount(s[..n]);
      assert Elements(s) == Elements(s[..n]) + {s[n]};
    }
  }

  // ---- nothing is lost between arrival and classification -----------------

  /** A datagram with the decision taken on it. */
  datatype Intake = Intake(decision: Eras.Decision, item: Item)

  ghost function Take(f: Flow, t: Intake, window: nat): Flow {
    match t.decision
    case Quarantine => f
    case Accept => PassThrough(f, t.item, window)
    case Advance(_) => PassThrough(Flow({}, f.out + Drained(f.held)), t.item, window)
  }

  ghost function TakeAll(ts: seq<Intake>, window: nat): Flow {
    if ts == [] then Flow({}, []) else Take(TakeAll(ts[..|ts| - 1], window), ts[|ts| - 1], window)
  }

  /** The datagrams that were not dropped as stragglers, in order of arrival. */
  function Buffered(ts: seq<Intake>): seq<Item> {
    if ts == [] then []
    else Buffered(ts[..|ts| - 1]) + (if ts[|ts| - 1].decision.Quarantine? then [] else [ts[|ts| - 1].item])
  }

  function Dropped(ts: seq<Intake>): nat {
    if ts == [] then 0
    else Dropped(ts[..|ts| - 1]) + (if ts[|ts| - 1].decision.Quarantine? then 1 else 0)
  }

  predicate DistinctArrivals(s: seq<Item>) {
    forall i, j :: 0 <= i < j < |s| ==> s[i].arrival != s[j].arrival
  }

  ghost predicate Conserves(f: Flow, all: seq<Item>, window: nat) {
    && f.held + Elements(f.out) == Elements(all)
    && f.held !! Elements(f.out)
    && |f.held| + |f.out| == |all|
    && |f.held| <= window
  }

  lemma {:induction false} DrainConserves(f: Flow, all: seq<Item>, window: nat)
    requires Conserves(f, all, window) && Distinct(f.held)
    ensures Conserves(Flow({}, f.out + Drained(f.held)), all, window)
  {
    DrainedIsSorted(f.held);
    ElementsAppend(f.out, Drained(f.held));
  }

  lemma PassConserves(f: Flow, all: seq<Item>, x: Item, window: nat)
    requires Conserves(f, all, window) && x !in Elements(all)
    ensures Conserves(PassThrough(f, x, window), all + [x], window)
  {
    PushConserves(f.held, x, window);
    Passed(f, all, x, window, Reorder.Kept(f.held, x, window), ReleasedBy(f.held, x, window));
  }

  lemma {:induction false} Passed(f: Flow, all: seq<Item>, x: Item, window: nat, held: set<Item>, r: seq<Item>)
    requires Conserves(f, all, window) && x !in Elements(all)
    requires f.held + {x} == held + Elements(r) && held !! Elements(r)
    requires |held| + |r| == |f.held| + 1 && |held| <= window
    ensures Conserves(Flow(held, f.out + r), all + [x], window)
  {
    ElementsAppend(f.out, r);
    ElementsAppend(all, [x]);
    Reshuffle(f.held, x, Elements(f.out), Elements(all), held, Elements(r));
  }

  lemma HeldIsDistinct(f: Flow, all: seq<Item>, window: nat)
    requires Conserves(f, all, window) && DistinctArrivals(all)
    ensures Distinct(f.held)
  {
    forall x, y | x in f.held && y in f.held && x.arrival == y.arrival ensures x == y {
      assert x in Elements(all) && y in Elements(all);
      var i :| 0 <= i < |all| && all[i] == x;
      var j :| 0 <= j < |all| && all[j] == y;
    }
  }

  /** Whatever decisions the resets force, every datagram is at any time either
      released to the classifier, in the buffer, or dropped as a straggler, and
      the buffer never exceeds the window. */
  lemma {:induction false} NothingIsLost(ts: seq<Intake>, window: nat)
    requires DistinctArrivals(Buffered(ts))
    ensures Conserves(TakeAll(ts, window), Buffered(ts), window)
    ensures |TakeAll(ts, window).out| + |TakeAll(ts, window).held| + Dropped(ts) == |ts|
  {
    if ts != [] {
      var init, t := ts[..|ts| - 1], ts[|ts| - 1];
      var b := Buffered(init);
      assert Buffered(ts)[..|b|] == b;
      assert DistinctArrivals(b) by {
        forall i, j | 0 <= i < j < |b| ensures b[i].arrival != b[j].arrival {
          assert Buffered(ts)[i] == b[i] && Buffered(ts)[j] == b[j];
        }
      }
      NothingIsLost(init, window);
      NothingIsLostStep(ts, window);
    }
  }

  lemma {:induction false} NothingIsLostStep(ts: seq<Intake>, window: nat)
    requires ts != [] && DistinctArrivals(Buffered(ts))
    requires var init := ts[..|ts| - 1];
             Conserves(TakeAll(init, window), Buffered(init), window) && DistinctArrivals(Buffered(init))
    ensures Conserves(TakeAll(ts, window), Buffered(ts), window)
  {
    var init, t := ts[..|ts| - 1], ts[|ts| - 1];
    var f, b := TakeAll(init, window), Buffered(init);
    if !t.decision.Quarantine? {
      var all := Buffered(ts);
      assert all == b + [t.item];
      assert t.item !in Elements(b) by {
        forall i | 0 <= i < |b| ensures b[i] != t.item { assert all[i] == b[i] && all[|b|] == t.item; }
      }
      HeldIsDistinct(f, b, window);
      if t.decision.Accept? {
        PassConserves(f, b, t.item, window);
      } else {
        DrainConserves(f, b, window);
        PassConserves(Flow({}, f.out + Drained(f.held)), b, t.item, window);
      }
    } else {
      assert Buffered(ts) == b;
    }
  }

  // ---- one era at a time --------------------------------------------------

  /** A datagram at one of the three ports of a channel. */
  datatype Arrival = Arrival(port: Core.Port, item: Item)

  function DatagramOf(x: Arrival): Eras.Datagram { Eras.Datagram(x.port, x.item.era) }

  /** The eras of the channel once all of them have arrived. */
  function ErasAfter(xs: seq<Arrival>, window: nat): Eras.Channel {
    if xs == [] then Eras.SILENT
    else Eras.Step(ErasAfter(xs[..|xs| - 1], window), DatagramOf(xs[|xs| - 1]), window)
  }

  /** What one port takes in, each datagram decided on as the port then stands. */
  function Intakes(xs: seq<Arrival>, port: Core.Port, window: nat): seq<Intake> {
    if xs == [] then []
    else
      var init, x := xs[..|xs| - 1], xs[|xs| - 1];
      var ts := Intakes(init, port, window);
      if x.port != port then ts
      else ts + [Intake(Eras.DecisionOn(ErasAfter(init, window), DatagramOf(x), window), x.item)]
  }

  ghost predicate AllOf(held: set<Item>, p: Eras.PortEra) {
    forall x :: x in held ==> p.seen && x.era == p.era
  }

  lemma {:induction false} AllOfStep(f: Flow, p: Eras.PortEra, log: Eras.Log, item: Item, window: nat)
    requires AllOf(f.held, p)
    ensures var o := Eras.OnDatagram(p, log, item.era, window);
            AllOf(Take(f, Intake(o.decision, item), window).held, o.p)
  {
  }

  /** Whatever the three ports of a channel receive, the buffer of each holds
      datagrams of the era the port is in and of no other. */
  lemma {:induction false} BufferHoldsOneEra(xs: seq<Arrival>, port: Core.Port, window: nat)
    ensures AllOf(TakeAll(Intakes(xs, port, window), window).held, ErasAfter(xs, window).At(port))
  {
    if xs != [] {
      var init, x := xs[..|xs| - 1], xs[|xs| - 1];
      BufferHoldsOneEra(init, port, window);
      var ts, c := Intakes(init, port, window), ErasAfter(init, window);
      if x.port == port {
        var t := Intake(Eras.DecisionOn(c, DatagramOf(x), window), x.item);
        AllOfStep(TakeAll(ts, window), c.At(port), c.log, x.item, window);
        assert (ts + [t])[..|ts|] == ts;
      }
    }
  }
}
