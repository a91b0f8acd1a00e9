/** The bounded reorder buffer of `engine/state.go`: a priority queue by
    (sequence number, arrival) that releases its least item once it holds more
    than the window, and exactly which arrival orders it repairs. */
module Reorder {
  import opened Core

  /** `frame` stands for the buffered datagram. */
  datatype Item = Item(era: u8, seqNo: u64, arrival: nat, frame: nat)

  predicate Less(a: Item, b: Item) {
    a.seqNo < b.seqNo || (a.seqNo == b.seqNo && a.arrival < b.arrival)
  }

  /** Arrival numbers are never reused, so the order on a buffer is total. */
  predicate Distinct(b: set<Item>) {
    forall x, y :: x in b && y in b && x.arrival == y.arrival ==> x == y
  }

  predicate IsLeast(b: set<Item>, m: Item) {
    m in b && forall x :: x in b ==> !Less(x, m)
  }

  lemma {:induction false} LeastExists(b: set<Item>)
    requires b != {}
    ensures exists m :: IsLeast(b, m)
    decreases |b|
  {
    var y :| y in b;
    var rest := b - {y};
    assert forall x :: x in b ==> x == y || x in rest;
    if rest == {} {
      assert IsLeast(b, y);
    } else {
      LeastExists(rest);
      var m :| IsLeast(rest, m);
      assert IsLeast(b, if Less(y, m) then y else m);
    }
  }

  ghost function Least(b: set<Item>): (m: Item)
    requires b != {}
    ensures IsLeast(b, m)
  {
    LeastExists(b);
    var m :| IsLeast(b, m);
    m
  }

  lemma LeastIs(b: set<Item>, m: Item)
    requires Distinct(b) && IsLeast(b, m)
    ensures Least(b) == m
  {
    assert Least(b).arrival == m.arrival;
  }

  /** Everything in the buffer, least first. */
  ghost function Drained(b: set<Item>): (out: seq<Item>)
    decreases |b|
  {
    if b == {} then [] else [Least(b)] + Drained(b - {Least(b)})
  }

  /** Pushing `x`, then releasing the least item if the window is exceeded. */
  ghost function Kept(b: set<Item>, x: Item, window: nat): set<Item> {
    var all := b + {x};
    if |all| > window then all - {Least(all)} else all
  }

  ghost function ReleasedBy(b: set<Item>, x: Item, window: nat): seq<Item> {
    var all := b + {x};
    if |all| > window then [Least(all)] else []
  }

  function Elements(s: seq<Item>): set<Item> {
    set x | x in s
  }

  /** One push neither loses nor invents an item. */
  lemma PushConserves(b: set<Item>, x: Item, window: nat)
    requires x !in b
    ensures b + {x} == Kept(b, x, window) + Elements(ReleasedBy(b, x, window))
    ensures Kept(b, x, window) !! Elements(ReleasedBy(b, x, window))
    ensures |Kept(b, x, window)| + |ReleasedBy(b, x, window)| == |b| + 1
    ensures |b| <= window ==> |Kept(b, x, window)| <= window
    ensures |b| < window ==> ReleasedBy(b, x, window) == []
  {
    assert |b + {x}| == |b| + 1;
  }

  // ---- one era, in order of arrival ---------------------------------------

  function ItemAt(a: seq<u64>, i: nat): Item
    requires i < |a|
  {
    Item(0, a[i], i, i)
  }

  /** What the buffer holds and what it has released. */
  datatype Flow = Flow(held: set<Item>, out: seq<Item>)

  ghost function PassThrough(f: Flow, x: Item, window: nat): Flow {
    Flow(Kept(f.held, x, window), f.out + ReleasedBy(f.held, x, window))
  }

  ghost function Flowed(a: seq<u64>, n: nat, window: nat): Flow
    requires n <= |a|
  {
    if n == 0 then Flow({}, []) else PassThrough(Flowed(a, n - 1, window), ItemAt(a, n - 1), window)
  }

  /** What the consumer classifies over the whole era, the final drain included. */
  ghost function Classified(a: seq<u64>, window: nat): seq<Item> {
    Flowed(a, |a|, window).out + Drained(Flowed(a, |a|, window).held)
  }

  predicate Sorted(s: seq<Item>) {
    forall i, j :: 0 <= i < j < |s| ==> Less(s[i], s[j])
  }

  /** The datagrams that overtook number `i`: sent after it, arrived before. */
  function Overtaking(a: seq<u64>, i: nat): set<nat>
    requires i < |a|
  {
    set j: nat | j < i && a[j] > a[i]
  }

  function Arrived(a: seq<u64>, n: nat): set<Item>
    requires n <= |a|
  {
    if n == 0 then {} else Arrived(a, n - 1) + {ItemAt(a, n - 1)}
  }

  lemma {:induction false} ArrivedHas(a: seq<u64>, n: nat, x: Item)
    requires n <= |a|
    ensures x in Arrived(a, n) <==> x.arrival < n && x == ItemAt(a, x.arrival)
  {
    if n > 0 { ArrivedHas(a, n - 1, x); }
  }

  lemma ElementsAppend(s: seq<Item>, t: seq<Item>)
    ensures Elements(s + t) == Elements(s) + Elements(t)
  {
  }

  lemma Reshuffle<T>(held: set<T>, x: T, out: set<T>, arrived: set<T>, held': set<T>, r: set<T>)
    requires held + out == arrived && held !! out && x !in arrived
    requires held + {x} == held' + r && held' !! r
    ensures held' + (out + r) == arrived + {x} && held' !! (out + r)
  {
    assert held' <= held + {x} && r <= held + {x};
  }

  ghost predicate Balanced(a: seq<u64>, n: nat, window: nat, f: Flow)
    requires n <= |a|
  {
    && f.held + Elements(f.out) == Arrived(a, n)
    && f.held !! Elements(f.out)
    && |f.held| == (if n <= window then n else window)
    && |f.out| + |f.held| == n
  }

  lemma BalancedStep(a: seq<u64>, n: nat, window: nat, f: Flow)
    requires n < |a| && Balanced(a, n, window, f)
    ensures Balanced(a, n + 1, window, PassThrough(f, ItemAt(a, n), window))
  {
    var x := ItemAt(a, n);
    ArrivedHas(a, n, x);
    PushConserves(f.held, x, window);
    var r := ReleasedBy(f.held, x, window);
    ElementsAppend(f.out, r);
    Reshuffle(f.held, x, Elements(f.out), Arrived(a, n), Kept(f.held, x, window), Elements(r));
  }

  lemma FlowedNext(a: seq<u64>, n: nat, window: nat)
    requires n < |a|
    ensures Flowed(a, n + 1, window) == PassThrough(Flowed(a, n, window), ItemAt(a, n), window)
  {
  }

  lemma NothingBalanced(a: seq<u64>, window: nat)
    ensures Balanced(a, 0, window, Flow({}, []))
  {
  }

  /** After `n` arrivals every datagram is in the buffer or has been released,
      not both, and the buffer holds the window's worth. */
  lemma {:induction false} Accounted(a: seq<u64>, n: nat, window: nat)
    requires n <= |a|
    ensures Balanced(a, n, window, Flowed(a, n, window))
  {
    if n == 0 {
      NothingBalanced(a, window);
    } else {
      Accounted(a, n - 1, window);
      BalancedStep(a, n - 1, window, Flowed(a, n - 1, window));
      FlowedNext(a, n - 1, window);
    }
  }

  // ---- exactly the orders the window repairs ------------------------------

  function Arrivals(b: set<Item>): set<nat> {
    set x | x in b :: x.arrival
  }

  lemma {:induction false} ArrivalsCount(b: set<Item>)
    requires Distinct(b)
    ensures |Arrivals(b)| == |b|
    decreases |b|
  {
    if b != {} {
      var x :| x in b;
      ArrivalsCount(b - {x});
      assert Arrivals(b) == Arrivals(b - {x}) + {x.arrival};
    }
  }

  lemma {:induction false} SubsetCount<T>(s: set<T>, t: set<T>)
    requires s <= t
    ensures |s| <= |t|
  {
    assert t == s + (t - s);
  }

  lemma ArrivedIsDistinct(a: seq<u64>, n: nat, b: set<Item>)
    requires n <= |a| && b <= Arrived(a, n)
    ensures Distinct(b)
    ensures forall x :: x in b ==> x.arrival < n && x == ItemAt(a, x.arrival)
  {
    forall x | x in b ensures x.arrival < n && x == ItemAt(a, x.arrival) { ArrivedHas(a, n, x); }
  }

  lemma {:induction false} DrainedIsSorted(b: set<Item>)
    requires Distinct(b)
    ensures Sorted(Drained(b)) && Elements(Drained(b)) == b && |Drained(b)| == |b|
    decreases |b|
  {
    if b != {} {
      var m := Least(b);
      var rest := b - {m};
      DrainedIsSorted(rest);
      SortedCons(m, Drained(rest));
      assert Elements([m] + Drained(rest)) == {m} + rest by { ElementsAppend([m], Drained(rest)); }
    }
  }

  lemma SortedCons(m: Item, s: seq<Item>)
    requires Sorted(s)
    requires forall x :: x in Elements(s) ==> !Less(x, m) && x.arrival != m.arrival
    ensures Sorted([m] + s)
  {
    forall i, j | 0 <= i < j < |[m] + s| ensures Less(([m] + s)[i], ([m] + s)[j]) {
      assert s[j - 1] in Elements(s);
    }
  }

  lemma SortedSnoc(s: seq<Item>, m: Item)
    requires Sorted(s) && forall x :: x in Elements(s) ==> Less(x, m)
    ensures Sorted(s + [m])
  {
    forall i, j | 0 <= i < j < |s + [m]| ensures Less((s + [m])[i], (s + [m])[j]) {
      assert s[i] in Elements(s);
    }
  }

  lemma SortedJoin(s: seq<Item>, t: seq<Item>)
    requires Sorted(s) && Sorted(t)
    requires forall x, y :: x in Elements(s) && y in Elements(t) ==> Less(x, y)
    ensures Sorted(s + t)
  {
    forall i, j | 0 <= i < j < |s + t| ensures Less((s + t)[i], (s + t)[j]) {
      if i < |s| <= j {
        assert s[i] in Elements(s) && t[j - |s|] in Elements(t);
      }
    }
  }

  /** Released items are in order and precede everything still buffered. */
  predicate InOrder(f: Flow) {
    Sorted(f.out) && forall x, y :: x in Elements(f.out) && y in f.held ==> Less(x, y)
  }

  /** Had a released item been sent after the newcomer, the whole window would
      have overtaken it as well. */
  lemma NewcomerIsNotLate(a: seq<u64>, n: nat, window: nat, f: Flow, r: Item)
    requires n < |a| && Balanced(a, n, window, f) && InOrder(f)
    requires |Overtaking(a, n)| <= window
    requires r in Elements(f.out)
    ensures Less(r, ItemAt(a, n))
  {
    var late := f.held + {r};
    ArrivedIsDistinct(a, n, late);
    if a[n] < r.seqNo {
      ArrivalsCount(late);
      forall x | x in late ensures x.arrival in Overtaking(a, n) {
        assert x == r || Less(r, x);
      }
      SubsetCount(Arrivals(late), Overtaking(a, n));
    }
  }

  lemma InOrderRelease(out: seq<Item>, all: set<Item>)
    requires all != {} && Distinct(all) && Sorted(out)
    requires forall x, y :: x in Elements(out) && y in all ==> Less(x, y)
    ensures InOrder(Flow(all - {Least(all)}, out + [Least(all)]))
  {
    var m := Least(all);
    SortedSnoc(out, m);
    ElementsAppend(out, [m]);
    forall y | y in all - {m} ensures Less(m, y) { assert !Less(y, m); }
  }

  lemma InOrderStep(a: seq<u64>, n: nat, window: nat, f: Flow)
    requires n < |a| && Balanced(a, n, window, f) && InOrder(f)
    requires |Overtaking(a, n)| <= window
    ensures InOrder(PassThrough(f, ItemAt(a, n), window))
  {
    var x := ItemAt(a, n);
    var all := f.held + {x};
    NewcomerIsLater(a, n, window, f);
    if |all| > window {
      assert all <= Arrived(a, n + 1);
      ArrivedIsDistinct(a, n + 1, all);
      InOrderRelease(f.out, all);
    } else {
      assert f.out + [] == f.out;
    }
  }

  lemma NewcomerIsLater(a: seq<u64>, n: nat, window: nat, f: Flow)
    requires n < |a| && Balanced(a, n, window, f) && InOrder(f)
    requires |Overtaking(a, n)| <= window
    ensures forall r, y :: r in Elements(f.out) && y in f.held + {ItemAt(a, n)} ==> Less(r, y)
  {
    forall r | r in Elements(f.out) ensures Less(r, ItemAt(a, n)) { NewcomerIsNotLate(a, n, window, f, r); }
  }

  lemma {:induction false} InOrderThroughout(a: seq<u64>, n: nat, window: nat)
    requires n <= |a|
    requires forall i: nat :: i < |a| ==> |Overtaking(a, i)| <= window
    ensures InOrder(Flowed(a, n, window))
  {
    if n == 0 {
      NothingFlowed(a, window);
    } else {
      InOrderThroughout(a, n - 1, window);
      FlowedInOrder(a, n - 1, window);
    }
  }

  lemma NothingFlowed(a: seq<u64>, window: nat)
    ensures InOrder(Flowed(a, 0, window))
  {
  }

  lemma FlowedInOrder(a: seq<u64>, n: nat, window: nat)
    requires n < |a| && InOrder(Flowed(a, n, window)) && |Overtaking(a, n)| <= window
    ensures InOrder(Flowed(a, n + 1, window))
  {
    Accounted(a, n, window);
    InOrderStep(a, n, window, Flowed(a, n, window));
  }

  lemma RepairsEnough(a: seq<u64>, window: nat)
    requires forall i: nat :: i < |a| ==> |Overtaking(a, i)| <= window
    ensures Sorted(Classified(a, window))
  {
    var f := Flowed(a, |a|, window);
    InOrderThroughout(a, |a|, window);
    Accounted(a, |a|, window);
    ArrivedIsDistinct(a, |a|, f.held);
    DrainedIsSorted(f.held);
    SortedJoin(f.out, Drained(f.held));
  }

  lemma {:induction false} OutGrows(a: seq<u64>, n: nat, m: nat, window: nat)
    requires n <= m <= |a|
    ensures Flowed(a, n, window).out <= Flowed(a, m, window).out
  {
    if n < m { OutGrows(a, n, m - 1, window); }
  }

  lemma ClassifiedHasAll(a: seq<u64>, window: nat, i: nat)
    requires i < |a|
    ensures ItemAt(a, i) in Elements(Classified(a, window))
  {
    var f := Flowed(a, |a|, window);
    Accounted(a, |a|, window);
    ArrivedHas(a, |a|, ItemAt(a, i));
    ArrivedIsDistinct(a, |a|, f.held);
    DrainedIsSorted(f.held);
    ElementsAppend(f.out, Drained(f.held));
  }

  /** If the output is in order, nothing sent after datagram `i` was released
      before it arrived. */
  lemma OvertakersAreStillHeld(a: seq<u64>, window: nat, i: nat, j: nat)
    requires Sorted(Classified(a, window)) && i < |a| && j in Overtaking(a, i)
    ensures ItemAt(a, j) in Flowed(a, i, window).held
  {
    var f := Flowed(a, i, window);
    var s := Classified(a, window);
    Accounted(a, i, window);
    OutGrows(a, i, |a|, window);
    ArrivedHas(a, i, ItemAt(a, j));
    ArrivedHas(a, i, ItemAt(a, i));
    ClassifiedHasAll(a, window, i);
    var q :| 0 <= q < |s| && s[q] == ItemAt(a, i);
    assert f.out <= s;
    forall p | 0 <= p < |f.out| ensures s[p] != ItemAt(a, i) {
      assert s[p] == f.out[p] && f.out[p] in Elements(f.out);
    }
    assert ItemAt(a, j) !in Elements(f.out) by {
      forall p | 0 <= p < |f.out| ensures f.out[p] != ItemAt(a, j) {
        assert s[p] == f.out[p] && Less(s[p], s[q]);
      }
    }
  }

  lemma RepairsNoMore(a: seq<u64>, window: nat, i: nat)
    requires Sorted(Classified(a, window)) && i < |a|
    ensures |Overtaking(a, i)| <= window
  {
    var held := Flowed(a, i, window).held;
    Accounted(a, i, window);
    ArrivedIsDistinct(a, i, held);
    ArrivalsCount(held);
    forall j | j in Overtaking(a, i) ensures j in Arrivals(held) {
      OvertakersAreStillHeld(a, window, i, j);
      assert ItemAt(a, j).arrival == j;
    }
    SubsetCount(Overtaking(a, i), Arrivals(held));
  }

  /** Sorted means by sequence number, and by arrival under one number. */
  lemma SortedMeans(s: seq<Item>)
    ensures Sorted(s) <==> forall i, j :: 0 <= i < j < |s| ==>
                             s[i].seqNo < s[j].seqNo || (s[i].seqNo == s[j].seqNo && s[i].arrival < s[j].arrival)
  {
  }

  /** The buffer hands an era's datagrams to the classifier in sequence order,
      ties in order of arrival, if and only if none of them was overtaken by
      more datagrams than the window holds. */
  lemma RepairsExactly(a: seq<u64>, window: nat)
    ensures Sorted(Classified(a, window)) <==> forall i: nat :: i < |a| ==> |Overtaking(a, i)| <= window
  {
    if Sorted(Classified(a, window)) {
      forall i: nat | i < |a| ensures |Overtaking(a, i)| <= window { RepairsNoMore(a, window, i); }
    } else if forall i: nat :: i < |a| ==> |Overtaking(a, i)| <= window {
      RepairsEnough(a, window);
    }
  }
}
