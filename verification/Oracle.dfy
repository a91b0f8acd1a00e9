/** The snapshot-versus-delta oracle of a market-by-order feed
    (`engine/oracle.go`): the gates that keep it from comparing what it cannot,
    the order-level difference of two books, and confirmation by repetition. */
module Oracle {
  import opened Core
  import IB = InstrBook
  import MboGroups
  import Gate

  type Records = map<u64, MboGroups.SnapOrder>

  type Resting = map<u64, IB.LiveOrder>

  // ---- the difference of two books -----------------------------------------

  datatype Field = MissingInDelta | ExtraInDelta | Side | Price | Qty | Flags | EnterTS

  datatype Diff = Diff(id: u64, field: Field)

  predicate OnBoth(snap: Records, live: Resting, id: u64) {
    id in snap && !IB.IsHidden(snap[id].flags) && id in live
  }

  /** What each entry of the difference means. */
  predicate Differs(snap: Records, live: Resting, d: Diff) {
    match d.field
    case MissingInDelta => d.id in snap && !IB.IsHidden(snap[d.id].flags) && d.id !in live
    case ExtraInDelta => d.id in live && !IB.IsHidden(live[d.id].flags) && d.id !in snap
    case Side => OnBoth(snap, live, d.id) && snap[d.id].side != live[d.id].side
    case Price => OnBoth(snap, live, d.id) && snap[d.id].price != live[d.id].price
    case Qty => OnBoth(snap, live, d.id) && !IB.IsHidden(live[d.id].flags) && snap[d.id].qty != live[d.id].remaining
    case Flags => OnBoth(snap, live, d.id) && snap[d.id].flags != live[d.id].flags
    case EnterTS => OnBoth(snap, live, d.id) && snap[d.id].enterTS != live[d.id].enterTS
  }

  /** The canonical signature: which orders differ in which fields, whatever the
      order in which the two books were walked. */
  ghost function Signature(snap: Records, live: Resting): (sig: set<Diff>)
    ensures forall d :: d in sig <==> Differs(snap, live, d)
  {
    set d: Diff |
      d in (set id, f | id in snap.Keys + live.Keys
                        && f in {MissingInDelta, ExtraInDelta, Side, Price, Qty, Flags, EnterTS} :: Diff(id, f))
      && Differs(snap, live, d)
  }

  predicate SameRecord(so: MboGroups.SnapOrder, lo: IB.LiveOrder) {
    so.side == lo.side && so.price == lo.price && so.flags == lo.flags && so.enterTS == lo.enterTS
    && (IB.IsHidden(lo.flags) || so.qty == lo.remaining)
  }

  predicate AgreeOn(snap: Records, live: Resting, id: u64) {
    && (id in snap && !IB.IsHidden(snap[id].flags) ==> id in live && SameRecord(snap[id], live[id]))
    && (id in live && !IB.IsHidden(live[id].flags) ==> id in snap)
  }

  /** No difference exactly when every visible snapshot order rests in the book
      with the same fields and every visible resting order has a record in the
      snapshot; a hidden record masks a resting order under its ID. */
  lemma EmptyExactlyWhenTheyAgree(snap: Records, live: Resting)
    ensures Signature(snap, live) == {} <==> forall id: u64 :: AgreeOn(snap, live, id)
  {
    var sig := Signature(snap, live);
    if sig == {} {
      forall id: u64 ensures AgreeOn(snap, live, id) {
        assert Diff(id, MissingInDelta) !in sig && Diff(id, ExtraInDelta) !in sig;
        assert Diff(id, Side) !in sig && Diff(id, Price) !in sig && Diff(id, Qty) !in sig;
        assert Diff(id, Flags) !in sig && Diff(id, EnterTS) !in sig;
      }
    } else {
      var d :| d in sig;
      assert Differs(snap, live, d) && !AgreeOn(snap, live, d.id);
    }
  }

  /** The fields in which one order compared on both sides differs. */
  function FieldDiffs(id: u64, so: MboGroups.SnapOrder, lo: IB.LiveOrder): seq<Diff> {
    (if so.side != lo.side then [Diff(id, Side)] else [])
    + (if so.price != lo.price then [Diff(id, Price)] else [])
    + (if !IB.IsHidden(lo.flags) && so.qty != lo.remaining then [Diff(id, Qty)] else [])
    + (if so.flags != lo.flags then [Diff(id, Flags)] else [])
    + (if so.enterTS != lo.enterTS then [Diff(id, EnterTS)] else [])
  }

  function Elems(ds: seq<Diff>): set<Diff> {
    set d | d in ds
  }

  /** What the first pass finds at one snapshot order. */
  function AtSnapshot(snap: Records, live: Resting, id: u64): seq<Diff>
    requires id in snap
  {
    if IB.IsHidden(snap[id].flags) then []
    else if id !in live then [Diff(id, MissingInDelta)]
    else FieldDiffs(id, snap[id], live[id])
  }

  lemma AtSnapshotIs(snap: Records, live: Resting, id: u64, d: Diff)
    requires id in snap
    ensures d in AtSnapshot(snap, live, id) <==> d.id == id && Differs(snap, live, d)
  {
  }

  /** What has been found once every key outside `todo` has been visited. */
  ghost predicate FirstPass(ds: seq<Diff>, snap: Records, live: Resting, todo: set<u64>) {
    forall d :: d in ds <==> Differs(snap, live, d) && d.field != ExtraInDelta && d.id !in todo
  }

  ghost predicate SecondPass(ds: seq<Diff>, snap: Records, live: Resting, todo: set<u64>) {
    forall d :: d in ds <==> Differs(snap, live, d) && (d.field == ExtraInDelta ==> d.id !in todo)
  }

  method SnapshotPass(snap: Records, live: Resting) returns (ds: seq<Diff>)
    ensures FirstPass(ds, snap, live, {})
  {
    ds := [];
    var todo := snap.Keys;
    while todo != {}
      invariant todo <= snap.Keys
      invariant FirstPass(ds, snap, live, todo)
      decreases |todo|
    {
      var id :| id in todo;
      forall d { AtSnapshotIs(snap, live, id, d); }
      ds := ds + AtSnapshot(snap, live, id);
      todo := todo - {id};
    }
  }

  /** Both passes, in whatever order the maps are walked. */
  method DiffBooks(snap: Records, live: Resting) returns (ds: seq<Diff>)
    ensures Elems(ds) == Signature(snap, live)
    ensures ds == [] <==> Signature(snap, live) == {}
  {
    ds := SnapshotPass(snap, live);
    var todo := live.Keys;
    while todo != {}
      invariant todo <= live.Keys
      invariant SecondPass(ds, snap, live, todo)
      decreases |todo|
    {
      var id :| id in todo;
      if !IB.IsHidden(live[id].flags) && id !in snap {
        ds := ds + [Diff(id, ExtraInDelta)];
      }
      todo := todo - {id};
    }
    assert Elems(ds) == Signature(snap, live);
    assert ds != [] ==> ds[0] in Elems(ds);
  }

  // ---- the gates -----------------------------------------------------------

  /** Why a group cannot be compared, if it cannot. `known` says that reference
      data names the instrument. */
  function Obstacle(g: MboGroups.Group, s: Gate.Seqs, known: bool, gapless: bool): Option<Reason> {
    if g.structural then Some(Superseded)
    else if !known then Some(ColdStart)
    else if !s.trusted then Some(Untrusted)
    else if s.dup then Some(Reordered)
    else if !gapless then Some(Loss)
    else if s.last.None? then Some(ColdStart)
    else if s.last.value != g.head.k then Some(Pending)
    else if g.dirty then Some(Loss)
    else None
  }

  // ---- suspicion and confirmation ------------------------------------------

  /** One completed group, as far as the oracle's memory is concerned. A reset,
      a wipe or the instrument leaving the manifest acts as a skipped group. */
  datatype Cycle = Skipped(reason: Reason) | Compared(sig: set<Diff>) | Forgotten

  datatype Suspect = Suspect(sig: set<Diff>, count: nat)

  datatype Finding = Finding(status: Status, reason: Reason)

  function CycleOf(g: MboGroups.Group, s: Gate.Seqs, known: bool, gapless: bool, sig: set<Diff>): Cycle {
    var why := Obstacle(g, s, known, gapless);
    if why.Some? then Skipped(why.value) else Compared(sig)
  }

  function Needed(confirmCycles: int): nat {
    if confirmCycles <= 0 then 2 else confirmCycles
  }

  function Recall(s: Option<Suspect>, c: Cycle): Option<Suspect> {
    if !c.Compared? || c.sig == {} then None
    else if s.Some? && s.value.sig == c.sig then Some(Suspect(c.sig, s.value.count + 1))
    else Some(Suspect(c.sig, 1))
  }

  function Report(s: Option<Suspect>, c: Cycle, confirmCycles: int): seq<Finding> {
    match c
    case Forgotten => []
    case Skipped(reason) => [Finding(Unverifiable, reason)]
    case Compared(sig) =>
      if sig == {} then [Finding(Pass, NoReason)]
      else if Recall(s, c).value.count >= Needed(confirmCycles) then [Finding(Violation, NoReason)]
      else [Finding(Suspected, NoReason)]
  }

  class Memory {
    var suspects: map<u32, Suspect>
    const confirmCycles: int

    ghost function Of(instr: u32): Option<Suspect>
      reads this
    {
      if instr in suspects then Some(suspects[instr]) else None
    }

    constructor (confirmCycles: int)
      ensures suspects == map[] && this.confirmCycles == confirmCycles
    {
      suspects := map[];
      this.confirmCycles := confirmCycles;
    }

    method Forget(instr: u32)
      modifies this
      ensures Of(instr) == None
      ensures forall i :: i != instr ==> Of(i) == old(Of(i))
    {
      suspects := suspects - {instr};
    }

    /** Counts a divergence of this signature and says how often it has now
        been seen in a row. */
    method Count(instr: u32, sig: set<Diff>) returns (count: nat)
      requires sig != {}
      modifies this
      ensures Of(instr) == Recall(old(Of(instr)), Compared(sig)) && count == Of(instr).value.count
      ensures forall i :: i != instr ==> Of(i) == old(Of(i))
    {
      var suspect := if instr in suspects then suspects[instr] else Suspect({}, 0);
      if suspect.sig == sig {
        suspect := Suspect(sig, suspect.count + 1);
      } else {
        suspect := Suspect(sig, 1);
      }
      suspects := suspects[instr := suspect];
      count := suspect.count;
    }

    /** The oracle on one completed group. */
    method RunForGroup(g: MboGroups.Group, s: Gate.Seqs, known: bool, gapless: bool, live: Resting)
      returns (fs: seq<Finding>)
      modifies this
      ensures var c := CycleOf(g, s, known, gapless, Signature(g.orders, live));
              Of(g.head.instr) == Recall(old(Of(g.head.instr)), c)
              && fs == Report(old(Of(g.head.instr)), c, confirmCycles)
      ensures forall i :: i != g.head.instr ==> Of(i) == old(Of(i))
    {
      var why := Obstacle(g, s, known, gapless);
      if why.Some? {
        Forget(g.head.instr);
        return [Finding(Unverifiable, why.value)];
      }
      var diffs := DiffBooks(g.orders, live);
      if diffs == [] {
        Forget(g.head.instr);
        return [Finding(Pass, NoReason)];
      }
      var count := Count(g.head.instr, Elems(diffs));
      if count >= (if confirmCycles <= 0 then 2 else confirmCycles) {
        return [Finding(Violation, NoReason)];
      }
      return [Finding(Suspected, NoReason)];
    }
  }
}
