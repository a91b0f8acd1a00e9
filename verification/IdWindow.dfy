/** The bounded ID set of `engine/idwindow.go`. It refines a recency list: adding
    a member makes it the newest again, and a full window forgets its oldest. */
module IdWindow {
  import opened Core

  // ---- the list it stands for ---------------------------------------------

  function Without(s: seq<u64>, id: u64): seq<u64> {
    if s == [] then []
    else (if s[0] == id then [] else [s[0]]) + Without(s[1..], id)
  }

  /** The list with `id` made newest, before anything is forgotten. */
  function Renewed(s: seq<u64>, id: u64): seq<u64> {
    Without(s, id) + [id]
  }

  /** Oldest first. */
  function Added(s: seq<u64>, id: u64, limit: nat): seq<u64> {
    var t := Renewed(s, id);
    if |t| > limit then t[1..] else t
  }

  /** `s` lists each of `keys` exactly once. */
  predicate Names(s: seq<u64>, keys: set<u64>) {
    if s == [] then keys == {} else s[0] in keys && Names(s[1..], keys - {s[0]})
  }

  lemma {:induction false} NamesHas(s: seq<u64>, keys: set<u64>, x: u64)
    requires Names(s, keys)
    ensures x in s <==> x in keys
    ensures |s| == |keys|
  {
    if s != [] {
      NamesHas(s[1..], keys - {s[0]}, x);
      assert x in s <==> x == s[0] || x in s[1..];
    }
  }

  lemma {:induction false} NamesWithout(s: seq<u64>, keys: set<u64>, id: u64)
    requires Names(s, keys)
    ensures Names(Without(s, id), keys - {id})
  {
    if s != [] {
      NamesWithout(s[1..], keys - {s[0]}, id);
      if s[0] == id {
        assert keys - {id} - {id} == keys - {id} && [] + Without(s[1..], id) == Without(s[1..], id);
      } else {
        assert ([s[0]] + Without(s[1..], id))[1..] == Without(s[1..], id);
        assert keys - {id} - {s[0]} == keys - {s[0]} - {id};
      }
    }
  }

  lemma {:induction false} NamesAppend(s: seq<u64>, keys: set<u64>, id: u64)
    requires Names(s, keys) && id !in keys
    ensures Names(s + [id], keys + {id})
  {
    if s == [] {
      assert s + [id] == [id] && [id][1..] == [] && keys + {id} - {id} == {};
    } else {
      NamesAppend(s[1..], keys - {s[0]}, id);
      assert (s + [id])[1..] == s[1..] + [id];
      assert keys + {id} - {s[0]} == keys - {s[0]} + {id};
    }
  }

  lemma RenewedNames(s: seq<u64>, keys: set<u64>, id: u64)
    requires Names(s, keys)
    ensures Names(Renewed(s, id), keys + {id})
  {
    NamesWithout(s, keys, id);
    NamesAppend(Without(s, id), keys - {id}, id);
    assert keys - {id} + {id} == keys + {id};
  }

  lemma {:induction false} WithoutHas(s: seq<u64>, id: u64, x: u64)
    ensures x in Without(s, id) <==> x in s && x != id
  {
    if s != [] {
      WithoutHas(s[1..], id, x);
      assert x in s <==> x == s[0] || x in s[1..];
    }
  }

  lemma {:induction false} WithoutAbsent(s: seq<u64>, id: u64)
    requires id !in s
    ensures Without(s, id) == s
  {
    if s != [] { WithoutAbsent(s[1..], id); }
  }

  /** IDs the window once held and dropped for lack of room. */
  datatype Range = Nothing | Between(lo: u64, hi: u64)
  {
    predicate Covers(id: u64) {
      Between? && lo <= id <= hi
    }

    function Widened(id: u64): Range {
      if Nothing? then Between(id, id)
      else Between(if id < lo then id else lo, if id > hi then id else hi)
    }
  }

  // ---- the queue that implements it ---------------------------------------

  datatype Entry = Entry(id: u64, n: nat)

  /** Which number is the newest for each member, and the queued entries from
      the head on. */
  datatype Queue = Queue(members: map<u64, nat>, q: seq<Entry>, next: nat)

  predicate Current(members: map<u64, nat>, e: Entry) {
    e.id in members && members[e.id] == e.n
  }

  /** The entries that are still the newest for their ID, oldest first. */
  function Live(members: map<u64, nat>, q: seq<Entry>): seq<Entry> {
    if q == [] then []
    else (if Current(members, q[0]) then [q[0]] else []) + Live(members, q[1..])
  }

  function Ids(q: seq<Entry>): seq<u64> {
    if q == [] then [] else [q[0].id] + Ids(q[1..])
  }

  function Order(w: Queue): seq<u64> {
    Ids(Live(w.members, w.q))
  }

  function Stamped(w: Queue, id: u64): Queue {
    Queue(w.members[id := w.next + 1], w.q + [Entry(id, w.next + 1)], w.next + 1)
  }

  function Popped(w: Queue): Queue
    requires w.q != []
  {
    Queue(if Current(w.members, w.q[0]) then w.members - {w.q[0].id} else w.members, w.q[1..], w.next)
  }

  function Compacted(w: Queue, limit: nat): Queue {
    if |w.q| <= 2 * limit then w else w.(q := Live(w.members, w.q))
  }

  // ---- the invariant ------------------------------------------------------

  /** Every member has exactly one current entry in the queue, and no entry is
      from the future. */
  predicate Faithful(w: Queue) {
    && (forall e :: e in w.q ==> e.n <= w.next)
    && Names(Order(w), w.members.Keys)
  }

  lemma {:induction false} LiveIn(members: map<u64, nat>, q: seq<Entry>, e: Entry)
    ensures e in Live(members, q) <==> e in q && Current(members, e)
    ensures |Live(members, q)| <= |q|
  {
    if q != [] {
      LiveIn(members, q[1..], e);
      assert e in q <==> e == q[0] || e in q[1..];
    }
  }

  lemma {:induction false} IdsIn(q: seq<Entry>, e: Entry)
    requires e in q
    ensures e.id in Ids(q)
  {
    if e != q[0] { IdsIn(q[1..], e); }
  }

  lemma {:induction false} IdsOf(q: seq<Entry>, id: u64) returns (e: Entry)
    requires id in Ids(q)
    ensures e in q && e.id == id
  {
    if q[0].id == id { e := q[0]; } else { e := IdsOf(q[1..], id); }
  }

  lemma {:induction false} IdsAppend(a: seq<Entry>, b: seq<Entry>)
    ensures Ids(a + b) == Ids(a) + Ids(b)
  {
    if a == [] {
      assert a + b == b;
    } else {
      assert (a + b)[1..] == a[1..] + b;
      IdsAppend(a[1..], b);
    }
  }

  lemma IdsCons(e: Entry, l: seq<Entry>)
    ensures Ids([e] + l) == [e.id] + Ids(l)
  {
    assert ([e] + l)[1..] == l;
  }

  lemma WithoutCons(x: u64, s: seq<u64>, id: u64)
    ensures Without([x] + s, id) == if x == id then Without(s, id) else [x] + Without(s, id)
  {
    assert ([x] + s)[1..] == s;
    assert [] + Without(s, id) == Without(s, id);
  }

  lemma {:induction false} LiveCons(members: map<u64, nat>, q: seq<Entry>)
    requires q != []
    ensures Ids(Live(members, q)) ==
              if Current(members, q[0]) then [q[0].id] + Ids(Live(members, q[1..])) else Ids(Live(members, q[1..]))
  {
    var l := Live(members, q[1..]);
    if Current(members, q[0]) {
      IdsCons(q[0], l);
    } else {
      assert [] + l == l;
    }
  }

  /** Dropping a member takes its one live entry out and moves nothing else. */
  lemma {:induction false} LiveForget(members: map<u64, nat>, q: seq<Entry>, id: u64)
    ensures Ids(Live(members - {id}, q)) == Without(Ids(Live(members, q)), id)
  {
    if q != [] {
      LiveForget(members, q[1..], id);
      LiveCons(members, q);
      LiveCons(members - {id}, q);
      if Current(members, q[0]) {
        WithoutCons(q[0].id, Ids(Live(members, q[1..])), id);
      }
    }
  }

  /** Stamping `id` with a fresh number kills its old entry and appends a new one. */
  lemma {:induction false} LiveStamp(members: map<u64, nat>, q: seq<Entry>, id: u64, n: nat)
    requires forall e :: e in q ==> e.n < n
    ensures Live(members[id := n], q + [Entry(id, n)]) == Live(members - {id}, q) + [Entry(id, n)]
  {
    var e := Entry(id, n);
    if q == [] {
      assert [] + [e] == [e] && [e][1..] == [];
    } else {
      var rest := q[1..];
      assert q[0] in q && forall x :: x in rest ==> x in q;
      LiveStamp(members, rest, id, n);
      assert q + [e] == [q[0]] + (rest + [e]);
      assert Live(members[id := n], q + [e])
        == (if Current(members[id := n], q[0]) then [q[0]] else []) + Live(members[id := n], rest + [e]);
    }
  }

  lemma {:induction false} LiveSelf(members: map<u64, nat>, q: seq<Entry>)
    ensures Live(members, Live(members, q)) == Live(members, q)
  {
    if q != [] {
      LiveSelf(members, q[1..]);
      var l := Live(members, q[1..]);
      if Current(members, q[0]) {
        assert ([q[0]] + l)[1..] == l;
      } else {
        assert [] + l == l;
      }
    }
  }

  // ---- what each step does to the list ------------------------------------

  lemma StampedOrder(w: Queue, id: u64)
    requires Faithful(w)
    ensures Order(Stamped(w, id)) == Renewed(Order(w), id)
    ensures Faithful(Stamped(w, id)) && |Stamped(w, id).members| <= |w.members| + 1
  {
    var e := Entry(id, w.next + 1);
    LiveStamp(w.members, w.q, id, w.next + 1);
    LiveForget(w.members, w.q, id);
    IdsAppend(Live(w.members - {id}, w.q), [e]);
    assert [e][1..] == [] && Ids([e]) == [id];
    RenewedNames(Order(w), w.members.Keys, id);
    assert w.members[id := w.next + 1].Keys == w.members.Keys + {id};
  }

  lemma PoppedOrder(w: Queue)
    requires Faithful(w) && w.q != []
    ensures Faithful(Popped(w))
    ensures if Current(w.members, w.q[0])
            then Order(w) != [] && w.q[0].id == Order(w)[0] && Order(Popped(w)) == Order(w)[1..]
                 && |Popped(w).members| == |w.members| - 1
            else Order(Popped(w)) == Order(w) && Popped(w).members == w.members
  {
    var rest, id := w.q[1..], w.q[0].id;
    var l := Live(w.members, rest);
    assert forall e :: e in rest ==> e in w.q;
    LiveCons(w.members, w.q);
    if Current(w.members, w.q[0]) {
      assert Order(w)[1..] == Ids(l);
      NamesHas(Ids(l), w.members.Keys - {id}, id);
      LiveForget(w.members, rest, id);
      WithoutAbsent(Ids(l), id);
      assert (w.members - {id}).Keys == w.members.Keys - {id};
    }
  }

  lemma CompactedOrder(w: Queue, limit: nat)
    requires Faithful(w) && |w.members| <= limit
    ensures Faithful(Compacted(w, limit)) && Order(Compacted(w, limit)) == Order(w)
    ensures |Compacted(w, limit).q| <= 2 * limit
  {
    LiveSelf(w.members, w.q);
    forall e | e in Live(w.members, w.q) ensures e in w.q { LiveIn(w.members, w.q, e); }
    IdsLength(Live(w.members, w.q));
    NamesHas(Order(w), w.members.Keys, 0);
  }

  lemma {:induction false} IdsLength(q: seq<Entry>)
    ensures |Ids(q)| == |q|
  {
    if q != [] { IdsLength(q[1..]); }
  }

  lemma RemoveRefinesRecency(w: Queue, id: u64)
    requires Faithful(w)
    ensures var w' := w.(members := w.members - {id});
            && Faithful(w') && Order(w') == Without(Order(w), id)
            && |w'.members| <= |w.members|
  {
    LiveForget(w.members, w.q, id);
    NamesWithout(Order(w), w.members.Keys, id);
    assert (w.members - {id}).Keys == w.members.Keys - {id};
    FewerMembers(w.members, id);
  }

  lemma FewerMembers(members: map<u64, nat>, id: u64)
    ensures |members - {id}| <= |members|
  {
    if id in members {
      assert members.Keys == (members - {id}).Keys + {id};
    } else {
      assert members - {id} == members;
    }
  }

  /** No dead entry waits behind the head. */
  predicate Dense(w: Queue) {
    |w.q| == |w.members|
  }

  lemma DenseStep(w: Queue)
    requires Faithful(w) && Dense(w) && w.q != []
    ensures Dense(Popped(w))
  {
    NamesHas(Order(w), w.members.Keys, 0);
    IdsLength(Live(w.members, w.q));
    LiveIn(w.members, w.q[1..], w.q[0]);
    PoppedOrder(w);
  }

  lemma MemberIsQueued(w: Queue)
    requires Faithful(w) && |w.members| > 0
    ensures w.q != []
  {
    NamesHas(Order(w), w.members.Keys, 0);
  }

  /** The evicted range after adding `id` to the list `s`. */
  function RangeAfter(r: Range, s: seq<u64>, id: u64, limit: nat): Range {
    var t := Renewed(s, id);
    if |t| > limit then r.Widened(t[0]) else r
  }

  /** Every ID of `added` is in the list or in the range of forgotten ones. */
  predicate Covered(added: set<u64>, s: seq<u64>, r: Range) {
    && (forall x :: x in s ==> x in added)
    && (forall x :: x in added ==> x in s || r.Covers(x))
  }

  lemma AddCovers(added: set<u64>, s: seq<u64>, r: Range, id: u64, limit: nat)
    requires Covered(added, s, r)
    ensures Covered(added + {id}, Added(s, id, limit), RangeAfter(r, s, id, limit))
  {
    var t := Renewed(s, id);
    forall x ensures x in t <==> x in s || x == id { WithoutHas(s, id, x); }
    forall x | x in t ensures x == t[0] || x in t[1..] {
      var i :| 0 <= i < |t| && t[i] == x;
      assert i > 0 ==> t[1..][i - 1] == x;
    }
    assert forall x :: x in t[1..] ==> x in t;
  }

  lemma RemoveCovers(added: set<u64>, s: seq<u64>, r: Range, id: u64)
    requires Covered(added, s, r)
    ensures Covered(added - {id}, Without(s, id), r)
  {
    forall x ensures x in Without(s, id) <==> x in s && x != id { WithoutHas(s, id, x); }
  }

  // ---- the window as the book holds it ------------------------------------

  class Window {
    const limit: nat
    var members: map<u64, nat>
    var queue: seq<Entry>
    var head: nat
    var next: nat
    var evicted: bool
    var evLo: u64
    var evHi: u64
    /** The queue from the head on, and every ID added and not since removed. */
    ghost var view: Queue
    ghost var added: set<u64>

    ghost function Forgotten(): Range
      reads this
    {
      if evicted then Between(evLo, evHi) else Nothing
    }

    ghost predicate Synced()
      reads this
    {
      head <= |queue| && view == Queue(members, queue[head..], next)
    }

    /** The window holds at most `limit` members, and every ID added and not
        since removed is a member or inside the evicted range. */
    ghost predicate Valid()
      reads this
    {
      && 1 <= limit && Synced()
      && Faithful(view) && |view.members| <= limit
      && Covered(added, Order(view), Forgotten())
    }

    constructor (limit: int)
      ensures Valid() && this.limit == (if limit < 1 then 1 else limit)
      ensures view == Queue(map[], [], 0) && queue == [] && Forgotten() == Nothing && added == {}
    {
      this.limit := if limit < 1 then 1 else limit;
      members, queue, head, next := map[], [], 0, 0;
      evicted, evLo, evHi := false, 0, 0;
      view, added := Queue(map[], [], 0), {};
    }

    method NoteEviction(id: u64)
      modifies this`evicted, this`evLo, this`evHi
      ensures Forgotten() == old(Forgotten()).Widened(id)
    {
      if !evicted {
        evicted, evLo, evHi := true, id, id;
        return;
      }
      evLo := if id < evLo then id else evLo;
      evHi := if id > evHi then id else evHi;
    }

    method Survivors(q: seq<Entry>) returns (kept: seq<Entry>)
      ensures kept == Live(members, q)
    {
      kept := [];
      var i := 0;
      while i < |q|
        invariant 0 <= i <= |q|
        invariant kept + Live(members, q[i..]) == Live(members, q)
      {
        assert q[i..][1..] == q[i + 1..];
        if q[i].id in members && members[q[i].id] == q[i].n {
          kept := kept + [q[i]];
        }
        i := i + 1;
      }
    }

    /** Drops the dead entries once the queue outgrows twice the limit. */
    method Compact()
      requires Synced()
      modifies this`queue, this`head, this`view
      ensures Synced() && view == Compacted(old(view), limit)
      ensures |old(view).q| <= 2 * limit ==> queue == old(queue) && head == old(head)
    {
      if |queue| - head <= 2 * limit {
        return;
      }
      ghost var was := view;
      var kept := Survivors(queue[head..]);
      assert kept == Live(was.members, was.q);
      queue, head := kept, 0;
      view := Queue(members, kept, next);
      assert queue[0..] == kept;
      assert view == Compacted(was, limit);
    }

    /** Takes the oldest entry off; if it is current, its member is forgotten. */
    method PopHead()
      requires Synced() && view.q != []
      modifies this`members, this`head, this`evicted, this`evLo, this`evHi, this`view
      ensures Synced() && view == Popped(old(view)) && |view.q| < |old(view).q|
      ensures Forgotten() == if Current(old(view).members, old(view).q[0])
                             then old(Forgotten()).Widened(old(view).q[0].id) else old(Forgotten())
    {
      var oldest := queue[head];
      view := Popped(view);
      assert queue[head..][1..] == queue[head + 1..];
      head := head + 1;
      if oldest.id in members && members[oldest.id] == oldest.n {
        members := members - {oldest.id};
        NoteEviction(oldest.id);
      }
    }

    /** Pops until the members fit. Every round takes an entry off, and while a
        member is left there is an entry to take; with one member too many, the
        oldest is forgotten and nothing else. */
    method Trim()
      requires Synced() && Faithful(view) && |view.members| <= limit + 1
      modifies this`members, this`head, this`evicted, this`evLo, this`evHi, this`view
      ensures Synced() && Faithful(view) && |view.members| <= limit && |view.q| <= |old(view).q|
      ensures var t := Order(old(view));
              if |t| > limit then Order(view) == t[1..] && Forgotten() == old(Forgotten()).Widened(t[0])
              else Order(view) == t && Forgotten() == old(Forgotten())
      ensures Dense(old(view)) ==> Dense(view)
    {
      ghost var t, r := Order(view), Forgotten();
      NamesHas(t, view.members.Keys, 0);
      while |members| > limit
        invariant Synced() && Faithful(view) && |view.q| <= |old(view).q|
        invariant |view.members| <= limit + 1 && (Dense(old(view)) ==> Dense(view))
        invariant |view.members| > limit ==> |t| > limit && Order(view) == t && Forgotten() == r
        invariant |view.members| <= limit && |t| > limit ==> Order(view) == t[1..] && Forgotten() == r.Widened(t[0])
        invariant |view.members| <= limit && |t| <= limit ==> Order(view) == t && Forgotten() == r
        decreases |queue| - head
      {
        MemberIsQueued(view);
        if Dense(view) { DenseStep(view); }
        PoppedOrder(view);
        PopHead();
      }
    }

    method Stamp(id: u64)
      requires Synced() && Faithful(view)
      modifies this`next, this`members, this`queue, this`view
      ensures Synced() && Faithful(view) && |view.members| <= |old(view).members| + 1
      ensures Order(view) == Renewed(Order(old(view)), id)
      ensures |queue| == old(|queue|) + 1 && |view.q| == |old(view).q| + 1
      ensures id !in old(members) && Dense(old(view)) ==> Dense(view)
    {
      StampedOrder(view, id);
      view := Stamped(view, id);
      next := next + 1;
      members := members[id := next];
      queue := queue + [Entry(id, next)];
      assert queue[head..] == old(queue)[head..] + [Entry(id, next)];
    }

    method StampAndTrim(id: u64)
      requires Synced() && Faithful(view) && |view.members| <= limit
      modifies this`next, this`members, this`queue, this`head, this`view, this`evicted, this`evLo, this`evHi
      ensures Synced() && Faithful(view) && |view.members| <= limit
      ensures Order(view) == Added(Order(old(view)), id, limit)
      ensures Forgotten() == RangeAfter(old(Forgotten()), Order(old(view)), id, limit)
      ensures |view.q| <= |old(view).q| + 1 && |queue| == old(|queue|) + 1
      ensures id !in old(members) && Dense(old(view)) ==> Dense(view)
    {
      Stamp(id);
      Trim();
    }

    method Insert(id: u64)
      requires Synced() && Faithful(view) && |view.members| <= limit
      modifies this`next, this`members, this`queue, this`head, this`view, this`evicted, this`evLo, this`evHi
      ensures Synced() && Faithful(view) && |view.members| <= limit
      ensures Order(view) == Added(Order(old(view)), id, limit)
      ensures Forgotten() == RangeAfter(old(Forgotten()), Order(old(view)), id, limit)
      ensures |view.q| <= 2 * limit
      ensures |old(view).q| < 2 * limit ==> |queue| == old(|queue|) + 1
      ensures |old(view).q| < 2 * limit && id !in old(members) && Dense(old(view)) ==> Dense(view)
    {
      StampAndTrim(id);
      CompactedOrder(view, limit);
      Compact();
    }

    /** Makes `id` the newest member; a window past its limit forgets its oldest. */
    method Add(id: u64)
      requires Valid()
      modifies this
      ensures Valid()
      ensures Order(view) == Added(Order(old(view)), id, limit)
      ensures Forgotten() == RangeAfter(old(Forgotten()), Order(old(view)), id, limit)
      ensures added == old(added) + {id}
      ensures |queue| - head <= 2 * limit
      ensures |old(view).q| < 2 * limit ==> |queue| == old(|queue|) + 1
      ensures |old(view).q| < 2 * limit && id !in old(members) && Dense(old(view)) ==> Dense(view)
    {
      AddCovers(added, Order(view), Forgotten(), id, limit);
      Insert(id);
      added := added + {id};
    }

    /** The caller knows why `id` leaves, so the evicted range stays. */
    method Remove(id: u64)
      requires Valid()
      modifies this`members, this`view, this`added
      ensures Valid()
      ensures Order(view) == Without(Order(old(view)), id)
      ensures Forgotten() == old(Forgotten()) && added == old(added) - {id}
    {
      RemoveRefinesRecency(view, id);
      RemoveCovers(added, Order(view), Forgotten(), id);
      members := members - {id};
      view := view.(members := members);
      added := added - {id};
    }

    method Has(id: u64) returns (b: bool)
      requires Valid()
      ensures b <==> id in Order(view)
    {
      NamesHas(Order(view), view.members.Keys, id);
      return id in members;
    }

    method MayHaveEvicted(id: u64) returns (b: bool)
      ensures b <==> Forgotten().Covers(id)
    {
      return evicted && id >= evLo && id <= evHi;
    }
  }

  /** The bound of twice the limit is on the queue from the head on. Under a
      steady flow of new IDs the slice behind it is never compacted: after `n`
      adds it holds `n` entries, of which all but `limit` are dead. */
  method SteadyEviction(limit: nat, n: nat) returns (w: Window)
    requires 1 <= limit && n < U64_MOD
    ensures w.Valid() && w.limit == limit
    ensures |w.queue| == n && |w.view.members| <= limit
  {
    w := new Window(limit);
    var i := 0;
    while i < n
      invariant 0 <= i <= n
      invariant w.Valid() && fresh(w) && w.limit == limit
      invariant |w.queue| == i && Dense(w.view) && forall x :: x in w.added ==> x < i
    {
      NamesHas(Order(w.view), w.view.members.Keys, i);
      w.Add(i);
      i := i + 1;
    }
  }
}
