/** Machine integers and the vocabulary of findings shared by every component.
    A finding is reduced to what a verdict is made of: the rule, its status and
    the bounded reason. Detail text, severity and wall-clock time are dropped. */
module Core {
  const U32_MAX: int := 0xFFFF_FFFF
  const U32_MOD: int := 0x1_0000_0000
  const U64_MOD: int := 0x1_0000_0000_0000_0000

  type u8 = x: int | 0 <= x < 0x100
  type u16 = x: int | 0 <= x < 0x1_0000
  type u32 = x: int | 0 <= x < 0x1_0000_0000
  type u64 = x: int | 0 <= x < 0x1_0000_0000_0000_0000
  type i64 = x: int | -0x8000_0000_0000_0000 <= x < 0x8000_0000_0000_0000

  datatype Option<+T> = None | Some(value: T)

  datatype Port = MktData | RefData | Snapshot

  datatype Status = Pass | Violation | Suspected | Unverifiable | NA

  datatype Reason =
    | NoReason
    | Loss
    | CaptureLoss
    | ColdStart
    | Overflow
    | Reordered
    | Pending
    | Untrusted
    | Superseded
    | BoundSubset

  /** The u32 successor, which wraps as the source's `lastSeq+1` does. */
  function Next32(x: u32): (y: u32)
    ensures x < U32_MAX ==> y == x + 1
    ensures x == U32_MAX ==> y == 0
  {
    (x + 1) % U32_MOD
  }

  /** A finding that the evidence can or cannot pin on the publisher. */
  function StatusFor(gated: bool): Status {
    if gated then Violation else Unverifiable
  }

  function If<T>(c: bool, x: T): seq<T> {
    if c then [x] else []
  }

  function Count<T>(s: seq<T>, p: T -> bool): nat {
    if s == [] then 0 else Count(s[..|s| - 1], p) + if p(s[|s| - 1]) then 1 else 0
  }

  lemma {:induction false} CountAdds<T>(a: seq<T>, b: seq<T>, p: T -> bool)
    ensures Count(a + b, p) == Count(a, p) + Count(b, p)
  {
    if b == [] {
      assert a + b == a;
    } else {
      CountAdds(a, b[..|b| - 1], p);
      assert (a + b)[..|a + b| - 1] == a + b[..|b| - 1];
    }
  }

  lemma {:induction false} NoneCounted<T>(s: seq<T>, p: T -> bool)
    requires forall i :: 0 <= i < |s| ==> !p(s[i])
    ensures Count(s, p) == 0
  {
    if s != [] {
      NoneCounted(s[..|s| - 1], p);
    }
  }

  lemma OneCounted<T>(x: T, p: T -> bool)
    requires p(x)
    ensures Count([x], p) == 1
  {
    assert [x][..0] == [];
  }
}
