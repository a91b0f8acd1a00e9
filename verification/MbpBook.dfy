/** The price-keyed ladder of `engine/mbp_book.go`: one instrument's levels,
    mutated in place by absolute updates and bulk clears, and compared level by
    level with a snapshot. */
module MbpBook {
  import opened Core

  const CLEAR_BID: u8 := 0
  const CLEAR_BOTH: u8 := 2
  const SCOPE_FROM_PRICE: u8 := 1

  datatype LevelKey = LevelKey(side: u8, price: i64)

  type Ladder = map<LevelKey, u64>

  /** A delta's effect on the ladder, without its sequence number. */
  datatype Op =
    | LevelUpdate(key: LevelKey, qty: u64)
    | BookClear(side: u8, scope: u8, fromPrice: i64)
  {
    /** One price cannot bound both sides, so this clear has no defined effect. */
    predicate Malformed() {
      BookClear? && scope == SCOPE_FROM_PRICE && side == CLEAR_BOTH
    }
  }

  /** Whether a clear removes the level `k`: the side matches and, for a scoped
      clear, the level lies at `fromPrice` or further out on its own side. */
  predicate Covers(side: u8, scope: u8, fromPrice: i64, k: LevelKey) {
    && (side == CLEAR_BOTH || k.side == side)
    && (scope == SCOPE_FROM_PRICE ==>
          if k.side == CLEAR_BID then k.price <= fromPrice else fromPrice <= k.price)
  }

  function Apply(l: Ladder, op: Op): Ladder {
    match op
    case LevelUpdate(k, qty) => if qty == 0 then l - {k} else l[k := qty]
    case BookClear(side, scope, from) => map k | k in l && !Covers(side, scope, from, k) :: l[k]
  }

  function Replay(base: Ladder, ops: seq<Op>): Ladder {
    if ops == [] then base else Apply(Replay(base, ops[..|ops| - 1]), ops[|ops| - 1])
  }

  /** The quantity resting at one level, 0 for an absent level. */
  function QtyAt(l: Ladder, k: LevelKey): u64 {
    if k in l then l[k] else 0
  }

  /** The quantity a stream leaves at `k`, read backwards from the newest op:
      the last update of `k` decides, unless a later clear covered it. */
  function LastWord(base: Ladder, ops: seq<Op>, k: LevelKey): u64 {
    if ops == [] then QtyAt(base, k)
    else match ops[|ops| - 1]
      case LevelUpdate(k', qty) =>
        if k' == k then qty else LastWord(base, ops[..|ops| - 1], k)
      case BookClear(side, scope, from) =>
        if Covers(side, scope, from, k) then 0 else LastWord(base, ops[..|ops| - 1], k)
  }

  /** Every update is absolute, so replaying forward and reading the last word
      on each level backwards give the same ladder. */
  lemma {:induction false} ReplayIsLastWord(base: Ladder, ops: seq<Op>, k: LevelKey)
    ensures QtyAt(Replay(base, ops), k) == LastWord(base, ops, k)
    ensures (forall j :: j in base ==> base[j] != 0) ==>
              forall j :: j in Replay(base, ops) ==> Replay(base, ops)[j] != 0
  {
    if ops != [] {
      ReplayIsLastWord(base, ops[..|ops| - 1], k);
    }
  }

  lemma {:induction false} ReplayAppend(base: Ladder, xs: seq<Op>, ys: seq<Op>)
    ensures Replay(base, xs + ys) == Replay(Replay(base, xs), ys)
  {
    if ys == [] {
      assert xs + ys == xs;
    } else {
      var zs := ys[..|ys| - 1];
      assert (xs + ys)[..|xs + ys| - 1] == xs + zs;
      ReplayAppend(base, xs, zs);
    }
  }

  // ---- what a clear removes, price by price -------------------------------------

  /** A clear of the bids from a price empties them at that price and below it, keeps
      every bid above it, and touches no ask. */
  lemma BidsClearedExactly(l: Ladder, fromPrice: i64)
    ensures var r := Apply(l, BookClear(0, 1, fromPrice));
            && (forall p: i64 :: p <= fromPrice ==> LevelKey(0, p) !in r)
            && (forall p: i64 :: p > fromPrice ==> QtyAt(r, LevelKey(0, p)) == QtyAt(l, LevelKey(0, p)))
            && (forall p: i64 :: QtyAt(r, LevelKey(1, p)) == QtyAt(l, LevelKey(1, p)))
  {
  }

  /** And of the asks at that price and above it. */
  lemma AsksClearedExactly(l: Ladder, fromPrice: i64)
    ensures var r := Apply(l, BookClear(1, 1, fromPrice));
            && (forall p: i64 :: p >= fromPrice ==> LevelKey(1, p) !in r)
            && (forall p: i64 :: p < fromPrice ==> QtyAt(r, LevelKey(1, p)) == QtyAt(l, LevelKey(1, p)))
            && (forall p: i64 :: QtyAt(r, LevelKey(0, p)) == QtyAt(l, LevelKey(0, p)))
  {
  }

  /** Without a price a clear empties exactly its side, and 2 empties the book. */
  lemma WholeSidesCleared(l: Ladder, scope: u8, fromPrice: i64)
    requires scope != 1
    ensures Apply(l, BookClear(2, scope, fromPrice)) == map[]
    ensures Apply(l, BookClear(0, scope, fromPrice)) == map k | k in l && k.side != 0 :: l[k]
    ensures Apply(l, BookClear(1, scope, fromPrice)) == map k | k in l && k.side != 1 :: l[k]
  {
  }

  /** One price for both sides is the only clear without a meaning. */
  lemma MalformedExactly(op: Op)
    ensures op.Malformed() <==> op.BookClear? && op.side == 2 && op.scope == 1
  {
  }

  class Book {
    var levels: Ladder

    constructor ()
      ensures levels == map[]
    {
      levels := map[];
    }

    method ApplyLevelUpdate(side: u8, price: i64, qty: u64)
      modifies this
      ensures levels == Apply(old(levels), LevelUpdate(LevelKey(side, price), qty))
    {
      var k := LevelKey(side, price);
      if qty == 0 {
        levels := levels - {k};
        return;
      }
      levels := levels[k := qty];
    }

    method ApplyBookClear(clearSide: u8, scope: u8, fromPrice: i64)
      modifies this
      ensures levels == Apply(old(levels), BookClear(clearSide, scope, fromPrice))
    {
      var todo := levels.Keys;
      while todo != {}
        invariant todo <= levels.Keys <= old(levels).Keys
        invariant forall k :: k in levels ==> levels[k] == old(levels)[k]
        invariant forall k :: k in old(levels) && k !in todo ==>
                    (k in levels <==> !Covers(clearSide, scope, fromPrice, k))
        decreases todo
      {
        var k :| k in todo;
        todo := todo - {k};
        if clearSide != CLEAR_BOTH && k.side != clearSide {
          continue;
        }
        if scope == SCOPE_FROM_PRICE {
          if k.side == CLEAR_BID {
            if k.price > fromPrice { continue; }
          } else {
            if k.price < fromPrice { continue; }
          }
        }
        levels := levels - {k};
      }
    }
  }

  /** A level at which two ladders differ; 0 stands for absent. */
  datatype LevelDiff = LevelDiff(key: LevelKey, fromBook: u64, fromSnap: u64)

  predicate Differs(book: Ladder, snap: Ladder, k: LevelKey) {
    (k in book || k in snap) && !(k in book && k in snap && book[k] == snap[k])
  }

  lemma EqualWhenNothingDiffers(book: Ladder, snap: Ladder)
    ensures book == snap <==> forall k :: !Differs(book, snap, k)
  {
    if forall k :: !Differs(book, snap, k) {
      forall k ensures k in book <==> k in snap { assert !Differs(book, snap, k); }
      forall k | k in book ensures book[k] == snap[k] { assert !Differs(book, snap, k); }
    }
  }

  /** Reports each differing level once with both quantities, and nothing
      exactly when the ladders are equal. */
  method DiffLevels(book: Ladder, snap: Ladder) returns (out: seq<LevelDiff>)
    ensures forall d :: d in out ==>
              Differs(book, snap, d.key) && d.fromBook == QtyAt(book, d.key) && d.fromSnap == QtyAt(snap, d.key)
    ensures forall k :: Differs(book, snap, k) ==> LevelDiff(k, QtyAt(book, k), QtyAt(snap, k)) in out
    ensures forall i, j :: 0 <= i < j < |out| ==> out[i].key != out[j].key
    ensures out == [] <==> book == snap
  {
    out := [];
    var todo := book.Keys;
    while todo != {}
      invariant todo <= book.Keys
      invariant forall d :: d in out ==>
                  d.key in book && d.key !in todo && Differs(book, snap, d.key)
                  && d.fromBook == QtyAt(book, d.key) && d.fromSnap == QtyAt(snap, d.key)
      invariant forall k :: k in book && k !in todo && Differs(book, snap, k) ==>
                  LevelDiff(k, QtyAt(book, k), QtyAt(snap, k)) in out
      invariant forall i, j :: 0 <= i < j < |out| ==> out[i].key != out[j].key
      decreases todo
    {
      var k :| k in todo;
      todo := todo - {k};
      if k !in snap || snap[k] != book[k] {
        assert forall d :: d in out ==> d.key != k;
        out := out + [LevelDiff(k, book[k], QtyAt(snap, k))];
      }
    }
    todo := snap.Keys;
    while todo != {}
      invariant todo <= snap.Keys
      invariant forall d :: d in out ==>
                  (d.key in book || d.key !in todo) && Differs(book, snap, d.key)
                  && d.fromBook == QtyAt(book, d.key) && d.fromSnap == QtyAt(snap, d.key)
      invariant forall k :: (k in book || (k in snap && k !in todo)) && Differs(book, snap, k) ==>
                  LevelDiff(k, QtyAt(book, k), QtyAt(snap, k)) in out
      invariant forall i, j :: 0 <= i < j < |out| ==> out[i].key != out[j].key
      decreases todo
    {
      var k :| k in todo;
      todo := todo - {k};
      if k !in book {
        assert forall d :: d in out ==> d.key != k;
        out := out + [LevelDiff(k, 0, snap[k])];
      }
    }
    EqualWhenNothingDiffers(book, snap);
    if out != [] { assert out[0] in out; }
  }
}
