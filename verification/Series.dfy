/** One sequence series (`observe`, `recordHash` and `taint` in
    `engine/state.go`, and the gap handling of `classify`): duplicates are
    recognised within a ring-bounded window, and a forward jump taints the era. */
module Series {
  import opened Core

  datatype Key = Key(era: u8, seqNo: u64)

  datatype Rec = Rec(key: Key, hash: u64)

  datatype Result = Dup | DivergentDup | Fresh(gapBefore: bool)

  /** `recent` lists what the window still remembers, oldest first. */
  datatype State = State(recent: seq<Rec>, lastSeq: Option<u64>, dirty: bool, taints: nat)

  const START := State([], None, false, 0)

  function TakeLast<T>(s: seq<T>, n: nat): (r: seq<T>)
    ensures |r| == if |s| <= n then |s| else n
  {
    if |s| <= n then s else s[|s| - n..]
  }

  predicate Known(recent: seq<Rec>, key: Key) {
    exists i :: 0 <= i < |recent| && recent[i].key == key
  }

  predicate Repeats(recent: seq<Rec>, rec: Rec) {
    exists i :: 0 <= i < |recent| && recent[i] == rec
  }

  function Judge(s: State, rec: Rec): Result {
    if Repeats(s.recent, rec) then Dup
    else if Known(s.recent, rec.key) then DivergentDup
    else Fresh(s.lastSeq.Some? && rec.key.seqNo > s.lastSeq.value && rec.key.seqNo - s.lastSeq.value > 1)
  }

  /** Judges a frame, remembers a fresh one, and taints the window on a gap. */
  function Classify(s: State, rec: Rec, cap: nat): State {
    var r := Judge(s, rec);
    if !r.Fresh? then s
    else State(TakeLast(s.recent + [rec], cap),
               if s.lastSeq.None? || rec.key.seqNo > s.lastSeq.value then Some(rec.key.seqNo) else s.lastSeq,
               s.dirty || r.gapBefore,
               if r.gapBefore then s.taints + 1 else s.taints)
  }

  // ---- the ring behind the window -----------------------------------------

  predicate RingOk(cap: nat, pos: nat, size: nat) {
    0 < cap && size <= cap && pos < cap && (size < cap ==> pos == size)
  }

  /** The ring's keys, oldest first. */
  function RingKeys(ring: seq<Key>, pos: nat, size: nat): seq<Key>
    requires RingOk(|ring|, pos, size)
  {
    if size < |ring| then ring[..size] else ring[pos..] + ring[..pos]
  }

  lemma Wrap(pos: nat, cap: nat)
    requires pos < cap
    ensures (pos + 1) % cap == if pos + 1 == cap then 0 else pos + 1
  {
  }

  lemma {:induction false} RingPush(ring: seq<Key>, pos: nat, size: nat, key: Key)
    requires RingOk(|ring|, pos, size)
    ensures var size' := if size < |ring| then size + 1 else size;
            var pos' := (pos + 1) % |ring|;
            && RingOk(|ring|, pos', size')
            && RingKeys(ring[pos := key], pos', size') == TakeLast(RingKeys(ring, pos, size) + [key], |ring|)
    ensures size == |ring| ==> RingKeys(ring, pos, size)[0] == ring[pos]
  {
    var ring' := ring[pos := key];
    var was := RingKeys(ring, pos, size);
    Wrap(pos, |ring|);
    if size + 1 < |ring| {
      assert ring'[..size + 1] == was + [key];
    } else if size < |ring| {
      assert ring'[0..] + ring'[..0] == was + [key];
    } else if pos + 1 < |ring| {
      assert ring'[pos + 1..] + ring'[..pos + 1] == (was + [key])[1..];
    } else {
      assert ring'[0..] + ring'[..0] == (was + [key])[1..];
    }
  }

  predicate NoRepeats(ks: seq<Key>) {
    forall i, j :: 0 <= i < j < |ks| ==> ks[i] != ks[j]
  }

  ghost predicate Indexes(hashes: map<Key, u64>, ks: seq<Key>) {
    NoRepeats(ks) && forall k :: k in hashes <==> k in ks
  }

  ghost function Recs(hashes: map<Key, u64>, ks: seq<Key>): (rs: seq<Rec>)
    requires Indexes(hashes, ks)
    ensures |rs| == |ks| && forall i :: 0 <= i < |ks| ==> rs[i] == Rec(ks[i], hashes[ks[i]])
  {
    seq(|ks|, i requires 0 <= i < |ks| => assert ks[i] in ks; Rec(ks[i], hashes[ks[i]]))
  }

  lemma KeysPush(ks: seq<Key>, key: Key, cap: nat, k: Key)
    requires NoRepeats(ks) && key !in ks && 0 < cap && |ks| <= cap
    ensures NoRepeats(TakeLast(ks + [key], cap))
    ensures k in TakeLast(ks + [key], cap) <==> (k in ks && !(|ks| == cap && k == ks[0])) || k == key
  {
    var all := ks + [key];
    var d := if |ks| == cap then 1 else 0;
    var ks' := TakeLast(all, cap);
    assert ks' == all[d..];
    if k in ks {
      var i :| 0 <= i < |ks| && ks[i] == k;
      assert i >= d ==> ks'[i - d] == k;
    }
    assert ks'[|ks'| - 1] == key;
  }

  lemma {:induction false} RecsAgree(
    hashes: map<Key, u64>, ks: seq<Key>, rec: Rec, cap: nat, hashes': map<Key, u64>, ks': seq<Key>)
    requires Indexes(hashes, ks) && Indexes(hashes', ks') && |ks| <= cap
    requires ks' == TakeLast(ks + [rec.key], cap)
    requires rec.key !in ks && rec.key in hashes' && hashes'[rec.key] == rec.hash
    requires forall k :: k in hashes' && k in hashes ==> hashes'[k] == hashes[k]
    ensures Recs(hashes', ks') == TakeLast(Recs(hashes, ks) + [rec], cap)
  {
    var d := |ks| + 1 - |ks'|;
    var a, all := Recs(hashes', ks'), Recs(hashes, ks) + [rec];
    forall i | 0 <= i < |ks'| ensures a[i] == all[i + d] {
      RecAgrees(hashes, ks, rec, hashes', ks', i, d);
    }
    TailIs(all, a, d);
  }

  lemma TailIs<T>(all: seq<T>, a: seq<T>, d: nat)
    requires |a| + d == |all| && forall i :: 0 <= i < |a| ==> a[i] == all[i + d]
    ensures a == TakeLast(all, |a|)
  {
    assert a == all[d..];
  }

  lemma {:induction false} RecAgrees(
    hashes: map<Key, u64>, ks: seq<Key>, rec: Rec, hashes': map<Key, u64>, ks': seq<Key>, i: nat, d: nat)
    requires Indexes(hashes, ks) && Indexes(hashes', ks') && i < |ks'| && i + d < |ks| + 1
    requires ks'[i] == (ks + [rec.key])[i + d]
    requires rec.key in hashes' && hashes'[rec.key] == rec.hash
    requires forall k :: k in hashes' && k in hashes ==> hashes'[k] == hashes[k]
    ensures Recs(hashes', ks')[i] == (Recs(hashes, ks) + [rec])[i + d]
  {
    assert ks'[i] in ks';
    if i + d < |ks| {
      assert ks[i + d] in ks;
    }
  }

  lemma RecsPush(hashes: map<Key, u64>, ks: seq<Key>, rec: Rec, cap: nat)
    requires Indexes(hashes, ks) && rec.key !in hashes && 0 < cap && |ks| <= cap
    ensures var hashes' := (if |ks| == cap then hashes - {ks[0]} else hashes)[rec.key := rec.hash];
            var ks' := TakeLast(ks + [rec.key], cap);
            && Indexes(hashes', ks')
            && Recs(hashes', ks') == TakeLast(Recs(hashes, ks) + [rec], cap)
  {
    var hashes' := (if |ks| == cap then hashes - {ks[0]} else hashes)[rec.key := rec.hash];
    var ks' := TakeLast(ks + [rec.key], cap);
    KeysPush(ks, rec.key, cap, rec.key);
    forall k: Key ensures k in hashes' <==> k in ks' { KeysPush(ks, rec.key, cap, k); }
    RecsAgree(hashes, ks, rec, cap, hashes', ks');
  }

  ghost predicate RingHolds(hashes: map<Key, u64>, ring: seq<Key>, pos: nat, size: nat, recs: seq<Rec>) {
    && RingOk(|ring|, pos, size) && Indexes(hashes, RingKeys(ring, pos, size))
    && Recs(hashes, RingKeys(ring, pos, size)) == recs
  }

  /** One more frame in the ring and the map together. */
  lemma {:induction false} RingRecsPush(hashes: map<Key, u64>, ring: seq<Key>, pos: nat, size: nat, rec: Rec)
    requires RingOk(|ring|, pos, size) && Indexes(hashes, RingKeys(ring, pos, size)) && rec.key !in hashes
    ensures var hashes' := if size < |ring| then hashes else hashes - {ring[pos]};
            RingHolds(hashes'[rec.key := rec.hash], ring[pos := rec.key], (pos + 1) % |ring|,
                      if size < |ring| then size + 1 else size,
                      TakeLast(Recs(hashes, RingKeys(ring, pos, size)) + [rec], |ring|))
  {
    RingPush(ring, pos, size, rec.key);
    RecsPush(hashes, RingKeys(ring, pos, size), rec, |ring|);
  }

  // ---- the series as the tracker holds it ---------------------------------

  class Tracker {
    var payloadHashes: map<Key, u64>
    const hashRing: array<Key>
    var hashRingPos: nat
    var hashRingSize: nat
    var lastSeq: Option<u64>
    var dirtyWindow: bool
    var taints: nat

    ghost predicate Valid()
      reads this, hashRing
    {
      && RingOk(hashRing.Length, hashRingPos, hashRingSize)
      && Indexes(payloadHashes, RingKeys(hashRing[..], hashRingPos, hashRingSize))
    }

    ghost function Recent(): seq<Rec>
      reads this, hashRing
      requires Valid()
    {
      Recs(payloadHashes, RingKeys(hashRing[..], hashRingPos, hashRingSize))
    }

    ghost function View(): State
      reads this, hashRing
      requires Valid()
    {
      State(Recent(), lastSeq, dirtyWindow, taints)
    }

    constructor (reorderWindow: nat)
      ensures Valid() && View() == START && fresh(hashRing)
      ensures hashRing.Length == (if reorderWindow * 2 < 16 then 16 else reorderWindow * 2)
    {
      var cap := reorderWindow * 2;
      if cap < 16 {
        cap := 16;
      }
      payloadHashes := map[];
      hashRing := new Key[cap](_ => Key(0, 0));
      hashRingPos, hashRingSize := 0, 0;
      lastSeq, dirtyWindow, taints := None, false, 0;
    }

    method RecordHash(rec: Rec)
      requires Valid() && rec.key !in payloadHashes
      modifies this`payloadHashes, this`hashRingPos, this`hashRingSize, hashRing
      ensures Valid()
      ensures Recent() == TakeLast(old(Recent()) + [rec], hashRing.Length)
    {
      RingRecsPush(payloadHashes, hashRing[..], hashRingPos, hashRingSize, rec);
      TakeSlot(rec.key);
      hashRingPos := (hashRingPos + 1) % hashRing.Length;
      payloadHashes := payloadHashes[rec.key := rec.hash];
    }

    /** Fills the next slot, forgetting the key it held once the ring is full. */
    method TakeSlot(key: Key)
      requires RingOk(hashRing.Length, hashRingPos, hashRingSize)
      modifies this`payloadHashes, this`hashRingSize, hashRing
      ensures hashRing[..] == old(hashRing[..])[hashRingPos := key]
      ensures if old(hashRingSize) < hashRing.Length
              then hashRingSize == old(hashRingSize) + 1 && payloadHashes == old(payloadHashes)
              else hashRingSize == old(hashRingSize)
                   && payloadHashes == old(payloadHashes) - {old(hashRing[..])[hashRingPos]}
    {
      if hashRingSize < hashRing.Length {
        hashRing[hashRingPos] := key;
        hashRingSize := hashRingSize + 1;
      } else {
        var oldest := hashRing[hashRingPos];
        payloadHashes := payloadHashes - {oldest};
        hashRing[hashRingPos] := key;
      }
    }

    /** Looks the key up, and records and tracks a frame that is new. */
    method Observe(rec: Rec) returns (r: Result)
      requires Valid()
      modifies this`payloadHashes, this`hashRingPos, this`hashRingSize, this`lastSeq, hashRing
      ensures Valid()
      ensures r == Judge(old(View()), rec)
      ensures Recent() == Classify(old(View()), rec, hashRing.Length).recent
      ensures lastSeq == Classify(old(View()), rec, hashRing.Length).lastSeq
    {
      LookupIsKnown(rec);
      if rec.key in payloadHashes {
        if payloadHashes[rec.key] == rec.hash {
          return Dup;
        }
        return DivergentDup;
      }
      RecordHash(rec);
      var gap := Advance(rec.key.seqNo);
      return Fresh(gap);
    }

    method Advance(seqNo: u64) returns (gap: bool)
      modifies this`lastSeq
      ensures gap == (old(lastSeq).Some? && seqNo > old(lastSeq).value && seqNo - old(lastSeq).value > 1)
      ensures lastSeq == if old(lastSeq).None? || seqNo > old(lastSeq).value then Some(seqNo) else old(lastSeq)
    {
      gap := false;
      if lastSeq.Some? {
        var last := lastSeq.value;
        if seqNo > last && seqNo - last > 1 {
          gap := true;
        }
      }
      if lastSeq.None? || seqNo > lastSeq.value {
        lastSeq := Some(seqNo);
      }
    }

    lemma LookupIsKnown(rec: Rec)
      requires Valid()
      ensures rec.key in payloadHashes <==> Known(Recent(), rec.key)
      ensures rec.key in payloadHashes && payloadHashes[rec.key] == rec.hash <==> Repeats(Recent(), rec)
    {
      var ks := RingKeys(hashRing[..], hashRingPos, hashRingSize);
      if rec.key in payloadHashes {
        var i :| 0 <= i < |ks| && ks[i] == rec.key;
        assert Recent()[i] == Rec(rec.key, payloadHashes[rec.key]);
      }
    }

    method Taint()
      requires Valid()
      modifies this`dirtyWindow, this`taints
      ensures Valid() && View() == old(View()).(dirty := true, taints := old(taints) + 1)
    {
      dirtyWindow := true;
      taints := taints + 1;
    }

    method Process(rec: Rec) returns (r: Result)
      requires Valid()
      modifies this, hashRing
      ensures Valid()
      ensures r == Judge(old(View()), rec)
      ensures View() == Classify(old(View()), rec, hashRing.Length)
    {
      r := Observe(rec);
      if r.Fresh? && r.gapBefore {
        Taint();
      }
    }

    /** A new era starts with a clean window; the taint count is never reset. */
    method Clear()
      modifies this, hashRing
      requires 0 < hashRing.Length
      ensures Valid() && View() == State([], None, false, old(taints))
    {
      lastSeq := None;
      payloadHashes := map[];
      forall i | 0 <= i < hashRing.Length { hashRing[i] := Key(0, 0); }
      hashRingPos, hashRingSize := 0, 0;
      dirtyWindow := false;
    }
  }

  // ---- what the window means over an era ----------------------------------

  function Run(recs: seq<Rec>, cap: nat): State {
    if recs == [] then START else Classify(Run(recs[..|recs| - 1], cap), recs[|recs| - 1], cap)
  }

  /** The frames of the run that were not repeats, in order. */
  function Accepted(recs: seq<Rec>, cap: nat): seq<Rec> {
    if recs == [] then []
    else
      var init := recs[..|recs| - 1];
      Accepted(init, cap) + (if Judge(Run(init, cap), recs[|recs| - 1]).Fresh? then [recs[|recs| - 1]] else [])
  }

  /** The window holds exactly the last `cap` accepted frames, so a repeat is
      reported exactly when its key is among them. */
  lemma {:induction false} WindowIsTheLastAccepted(recs: seq<Rec>, cap: nat)
    ensures Run(recs, cap).recent == TakeLast(Accepted(recs, cap), cap)
  {
    if recs != [] {
      var init, rec := recs[..|recs| - 1], recs[|recs| - 1];
      WindowIsTheLastAccepted(init, cap);
      LastOfLast(Accepted(init, cap), rec, cap);
      assert Accepted(init, cap) + [] == Accepted(init, cap);
    }
  }

  lemma LastOfLast<T>(s: seq<T>, x: T, cap: nat)
    ensures TakeLast(TakeLast(s, cap) + [x], cap) == TakeLast(s + [x], cap)
  {
  }

  /** The accepted frames that the window still remembers. */
  function Remembered(recs: seq<Rec>, cap: nat): seq<Rec> {
    TakeLast(Accepted(recs, cap), cap)
  }

  /** Over any run, a frame is charged as divergent exactly when its key is among
      the last `cap` accepted ones and no remembered frame equals it, and it is
      dropped in silence exactly when one does. */
  lemma {:induction false} DivergentExactly(recs: seq<Rec>, rec: Rec, cap: nat)
    ensures var w, r := Remembered(recs, cap), Judge(Run(recs, cap), rec);
            && (r.DivergentDup? <==> Known(w, rec.key) && !Repeats(w, rec))
            && (r.Dup? <==> Repeats(w, rec))
  {
    WindowIsTheLastAccepted(recs, cap);
  }

  /** Every frame under one key carries the same bytes. */
  predicate OneHashPerKey(recs: seq<Rec>) {
    forall i, j :: 0 <= i < |recs| && 0 <= j < |recs| && recs[i].key == recs[j].key ==> recs[i] == recs[j]
  }

  lemma {:induction false} AcceptedWereSeen(recs: seq<Rec>, cap: nat, x: Rec)
    requires x in Accepted(recs, cap)
    ensures x in recs
  {
    var init := recs[..|recs| - 1];
    if x in Accepted(init, cap) {
      AcceptedWereSeen(init, cap, x);
    }
  }

  /** A publisher whose copies agree byte for byte is never charged with a
      divergent repeat, however often and late they arrive. */
  lemma {:induction false} EqualCopiesAreNotDivergent(recs: seq<Rec>, cap: nat, n: nat)
    requires OneHashPerKey(recs) && n < |recs|
    ensures !Judge(Run(recs[..n], cap), recs[n]).DivergentDup?
  {
    var w := Remembered(recs[..n], cap);
    DivergentExactly(recs[..n], recs[n], cap);
    if Known(w, recs[n].key) {
      var i :| 0 <= i < |w| && w[i].key == recs[n].key;
      AcceptedWereSeen(recs[..n], cap, w[i]);
      var j :| 0 <= j < n && recs[..n][j] == w[i];
      assert recs[j].key == recs[n].key;
    }
  }

  predicate HasSeq(accepted: seq<Rec>, q: int) {
    exists i :: 0 <= i < |accepted| && accepted[i].key.seqNo == q
  }

  predicate Reaches(s: State, accepted: seq<Rec>) {
    && (s.lastSeq.None? <==> accepted == [])
    && (s.lastSeq.Some? ==>
          forall q :: accepted[0].key.seqNo <= q <= s.lastSeq.value ==>
            HasSeq(accepted, q))
  }

  lemma ReachesStep(s: State, accepted: seq<Rec>, rec: Rec, cap: nat)
    requires !s.dirty ==> Reaches(s, accepted)
    requires s.lastSeq.None? <==> accepted == []
    requires Judge(s, rec).Fresh?
    ensures var s' := Classify(s, rec, cap); !s'.dirty ==> Reaches(s', accepted + [rec])
  {
    var s' := Classify(s, rec, cap);
    var acc' := accepted + [rec];
    if !s'.dirty {
      forall q | acc'[0].key.seqNo <= q <= s'.lastSeq.value
        ensures HasSeq(acc', q)
      {
        if s.lastSeq.Some? && q <= s.lastSeq.value {
          assert acc'[0] == accepted[0] && HasSeq(accepted, q);
          var i :| 0 <= i < |accepted| && accepted[i].key.seqNo == q;
          assert acc'[i] == accepted[i];
        } else {
          assert acc'[|accepted|].key.seqNo == q;
        }
      }
    }
  }

  /** A clean window means nothing is missing: every number from the first
      accepted frame to the greatest has been classified. */
  lemma {:induction false} CleanMeansComplete(recs: seq<Rec>, cap: nat)
    ensures Run(recs, cap).lastSeq.None? <==> Accepted(recs, cap) == []
    ensures !Run(recs, cap).dirty ==> Reaches(Run(recs, cap), Accepted(recs, cap))
  {
    if recs != [] {
      var init := recs[..|recs| - 1];
      CleanMeansComplete(init, cap);
      if Judge(Run(init, cap), recs[|recs| - 1]).Fresh? {
        ReachesStep(Run(init, cap), Accepted(init, cap), recs[|recs| - 1], cap);
      } else {
        assert Accepted(recs, cap) == Accepted(init, cap);
      }
    }
  }
}
