/** What a bounded ID window remembers after any sequence of adds, and what its
    evicted range says. */
module IdWindowRuns {
  import opened Core
  import opened IdWindow

  /** The recency list after the adds, bounded and without a bound. */
  function Kept(xs: seq<u64>, limit: nat): seq<u64> {
    if xs == [] then [] else Added(Kept(xs[..|xs| - 1], limit), xs[|xs| - 1], limit)
  }

  function EachOnce(xs: seq<u64>): seq<u64> {
    if xs == [] then [] else Renewed(EachOnce(xs[..|xs| - 1]), xs[|xs| - 1])
  }

  predicate LastOf(b: seq<u64>, s: seq<u64>, n: nat) {
    if |s| <= n then b == s else b == s[|s| - n..]
  }

  lemma {:induction false} WithoutParts(a: seq<u64>, b: seq<u64>, id: u64)
    ensures Without(a + b, id) == Without(a, id) + Without(b, id)
  {
    if a == [] {
      assert a + b == b;
    } else {
      var first := if a[0] == id then [] else [a[0]];
      WithoutParts(a[1..], b, id);
      assert (a + b)[0] == a[0] && (a + b)[1..] == a[1..] + b;
      assert Without(a + b, id) == first + Without(a[1..] + b, id);
      assert first + (Without(a[1..], id) + Without(b, id)) == first + Without(a[1..], id) + Without(b, id);
    }
  }

  predicate NoneTwice(s: seq<u64>) {
    forall i, j :: 0 <= i < j < |s| ==> s[i] != s[j]
  }

  lemma {:induction false} WithoutKeeps(s: seq<u64>, id: u64)
    requires NoneTwice(s)
    ensures NoneTwice(Without(s, id)) && |Without(s, id)| == |s| - if id in s then 1 else 0
  {
    if s != [] {
      assert forall i, j :: 0 <= i < j < |s[1..]| ==> s[1..][i] == s[i + 1] && s[1..][j] == s[j + 1];
      WithoutKeeps(s[1..], id);
      forall x { WithoutHas(s[1..], id, x); }
      assert id in s <==> id == s[0] || id in s[1..];
      assert s[0] !in s[1..];
    }
  }

  lemma {:induction false} OnceEach(xs: seq<u64>)
    ensures NoneTwice(EachOnce(xs))
  {
    if xs != [] {
      var s, id := EachOnce(xs[..|xs| - 1]), xs[|xs| - 1];
      OnceEach(xs[..|xs| - 1]);
      WithoutKeeps(s, id);
      WithoutHas(s, id, id);
    }
  }

  lemma LastOfParts(a: seq<u64>, b: seq<u64>, n: nat)
    requires |b| == n || (|b| < n && a == [])
    ensures LastOf(b, a + b, n)
  {
    assert (a + b)[|a|..] == b;
  }

  lemma LastSplits(b: seq<u64>, s: seq<u64>, n: nat) returns (a: seq<u64>)
    requires LastOf(b, s, n)
    ensures s == a + b && (|b| == n || (|b| < n && a == []))
  {
    a := s[..|s| - |b|];
  }

  lemma HeldOnce(a: seq<u64>, b: seq<u64>, id: u64)
    requires NoneTwice(a + b) && id in b
    ensures id !in a && NoneTwice(b)
  {
    var s := a + b;
    var i :| 0 <= i < |b| && b[i] == id;
    forall k, m | 0 <= k < m < |b| ensures b[k] != b[m] { assert s[|a| + k] != s[|a| + m]; }
    forall k | 0 <= k < |a| ensures a[k] != id { assert s[k] != s[|a| + i]; }
  }

  lemma RenewedBehind(a: seq<u64>, b: seq<u64>, id: u64)
    requires id !in a
    ensures Renewed(a + b, id) == a + Renewed(b, id)
  {
    WithoutParts(a, b, id);
    WithoutAbsent(a, id);
  }

  lemma {:induction false} HeldIsRenewed(a: seq<u64>, b: seq<u64>, id: u64, n: nat)
    requires NoneTwice(a + b) && id in b && (|b| == n || (|b| < n && a == []))
    ensures LastOf(Added(b, id, n), Renewed(a + b, id), n)
  {
    HeldOnce(a, b, id);
    RenewedBehind(a, b, id);
    WithoutKeeps(b, id);
    LastOfParts(a, Renewed(b, id), n);
  }

  lemma {:induction false} NewIsAppended(a: seq<u64>, b: seq<u64>, id: u64, n: nat)
    requires 1 <= n && id !in b && (|b| == n || (|b| < n && a == []))
    ensures LastOf(Added(b, id, n), Renewed(a + b, id), n)
  {
    WithoutParts(a, b, id);
    WithoutAbsent(b, id);
    var t, rest := b + [id], Without(a, id);
    assert Renewed(a + b, id) == rest + t;
    if |b| == n {
      assert rest + t == (rest + [t[0]]) + t[1..];
      LastOfParts(rest + [t[0]], t[1..], n);
    } else {
      LastOfParts(rest, t, n);
    }
  }

  lemma {:induction false} AddedIsLast(b: seq<u64>, s: seq<u64>, id: u64, n: nat)
    requires 1 <= n && LastOf(b, s, n) && NoneTwice(s)
    ensures LastOf(Added(b, id, n), Renewed(s, id), n)
  {
    var a := LastSplits(b, s, n);
    if id in b { HeldIsRenewed(a, b, id, n); } else { NewIsAppended(a, b, id, n); }
  }

  /** After any adds the window holds the last `limit` of the IDs added, each counted
      from its latest add. */
  lemma {:induction false} HoldsTheLatest(xs: seq<u64>, limit: nat)
    requires 1 <= limit
    ensures LastOf(Kept(xs, limit), EachOnce(xs), limit)
  {
    if xs != [] {
      HoldsTheLatest(xs[..|xs| - 1], limit);
      OnceEach(xs[..|xs| - 1]);
      AddedIsLast(Kept(xs[..|xs| - 1], limit), EachOnce(xs[..|xs| - 1]), xs[|xs| - 1], limit);
    }
  }

  // ---- the evicted range -------------------------------------------------------

  function RangeOf(xs: seq<u64>, limit: nat): Range {
    if xs == [] then Nothing
    else RangeAfter(RangeOf(xs[..|xs| - 1], limit), Kept(xs[..|xs| - 1], limit), xs[|xs| - 1], limit)
  }

  /** The IDs dropped for lack of room: those held before an add, other than the one
      added, and not after it. */
  function Dropped(xs: seq<u64>, limit: nat): set<u64> {
    if xs == [] then {}
    else
      var init := xs[..|xs| - 1];
      Dropped(init, limit)
      + set id | id in Kept(init, limit) && id != xs[|xs| - 1] && id !in Kept(xs, limit)
  }

  predicate Hull(r: Range, ids: set<u64>) {
    match r
    case Nothing => ids == {}
    case Between(lo, hi) => lo in ids && hi in ids && forall id :: id in ids ==> lo <= id <= hi
  }

  lemma HullWidens(r: Range, ids: set<u64>, id: u64)
    requires Hull(r, ids)
    ensures Hull(r.Widened(id), ids + {id})
  {
  }

  lemma {:induction false} KeptOnce(xs: seq<u64>, limit: nat)
    requires 1 <= limit
    ensures NoneTwice(Kept(xs, limit)) && |Kept(xs, limit)| <= limit
  {
    HoldsTheLatest(xs, limit);
    OnceEach(xs);
  }

  lemma {:induction false} OneDropped(s: seq<u64>, id: u64, limit: nat)
    requires 1 <= limit && NoneTwice(s) && |s| <= limit
    ensures var t := Renewed(s, id);
            (set x | x in s && x != id && x !in Added(s, id, limit)) == if |t| > limit then {t[0]} else {}
  {
    var t := Renewed(s, id);
    WithoutKeeps(s, id);
    forall x { WithoutHas(s, id, x); }
    assert forall x :: x in t <==> x in Without(s, id) || x == id;
    if |t| > limit {
      assert t[0] == Without(s, id)[0];
      assert t[0] in Without(s, id) && t[0] !in t[1..];
      assert forall x :: x in t ==> x == t[0] || x in t[1..];
    }
  }

  /** The evicted range runs from the least to the greatest ID dropped for lack of
      room, and is empty while none was. */
  lemma {:induction false} RangeIsTheHull(xs: seq<u64>, limit: nat)
    requires 1 <= limit
    ensures Hull(RangeOf(xs, limit), Dropped(xs, limit))
  {
    if xs != [] {
      var init := xs[..|xs| - 1];
      RangeIsTheHull(init, limit);
      KeptOnce(init, limit);
      var s, id := Kept(init, limit), xs[|xs| - 1];
      OneDropped(s, id, limit);
      HullWidens(RangeOf(init, limit), Dropped(init, limit), Renewed(s, id)[0]);
      assert Dropped(init, limit) + {} == Dropped(init, limit);
    }
  }
}
