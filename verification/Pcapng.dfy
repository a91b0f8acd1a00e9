/** Timestamps and interface options of a pcapng capture
    (`input/pcapng.go`; if_tsresol and if_tsoffset are options 9 and 14 of
    section 4.2 of draft-ietf-opsawg-pcapng). */
module Pcapng {
  import opened Core
  import W = Wire

  const SECOND: nat := 1_000_000_000
  const I64_MOD2: int := 0x8000_0000_0000_0000
  const DEFAULT_TS_RESOL: u64 := 1_000_000
  const OPT_END: u16 := 0
  const OPT_IF_TSRESOL: u16 := 9
  const OPT_IF_TSOFFSET: u16 := 14

  // ---- division --------------------------------------------------------------

  lemma MulMono(a: int, b: int, c: int)
    requires a <= b && 0 <= c
    ensures a * c <= b * c
  {
    assert 0 <= (b - a) * c;
  }

  lemma DivBound(x: nat, n: nat, m: nat)
    requires 0 < n && x < n * m
    ensures x / n < m
  {
    if x / n >= m { MulMono(m, x / n, n); }
  }

  lemma {:induction false} DivMono(a: nat, b: nat, u: nat)
    requires 0 < u && a <= b
    ensures a / u <= b / u
  {
    if a / u > b / u { MulMono(b / u + 1, a / u, u); }
  }

  lemma {:induction false} DivUnique(x: nat, u: nat, q: nat, r: nat)
    requires 0 < u && x == q * u + r && r < u
    ensures x / u == q
  {
    if x / u > q { MulMono(q + 1, x / u, u); }
    if x / u < q { MulMono(x / u + 1, q, u); }
  }

  lemma {:induction false} DivPlus(s: nat, u: nat, x: nat)
    requires 0 < u
    ensures (s * u + x) / u == s + x / u
  {
    var q, r := x / u, x % u;
    assert x == q * u + r;
    assert s * u + x == (s + q) * u + r;
    DivUnique(s * u + x, u, s + q, r);
  }

  function Whole(raw: u64, u: u64): (q: u64)
    requires u >= 1
    ensures q == raw / u
  {
    assert 0 <= raw / u;
    MulMono(1, u, raw / u);
    raw / u
  }

  // ---- 128-bit arithmetic ----------------------------------------------------

  /** The product of two words as a high and a low word. */
  function Mul64(a: u64, b: u64): (r: (u64, u64))
    ensures r.0 * U64_MOD + r.1 == a * b
  {
    ProductFits(a, b);
    (a * b / U64_MOD, a * b % U64_MOD)
  }

  lemma {:induction false} ProductFits(a: u64, b: u64)
    ensures 0 <= a * b < U64_MOD * U64_MOD
    ensures 0 <= a * b / U64_MOD < U64_MOD
  {
    LessProduct(a, U64_MOD, b, U64_MOD);
    DivBound(a * b, U64_MOD, U64_MOD);
  }

  lemma LessProduct(a: nat, m: nat, b: nat, n: nat)
    requires a < m && b < n
    ensures 0 <= a * b < m * n
  {
    assert a * b <= a * n;
    assert a * n < m * n;
  }

  /** Divides a double word. The machine traps unless the quotient fits. */
  function Div64(hi: u64, lo: u64, y: u64): (q: u64)
    requires hi < y
    ensures q == (hi * U64_MOD + lo) / y
  {
    QuotientFits(hi, lo, y);
    (hi * U64_MOD + lo) / y
  }

  lemma QuotientFits(hi: u64, lo: u64, y: u64)
    requires hi < y
    ensures 0 <= (hi * U64_MOD + lo) / y < U64_MOD
  {
    assert hi * U64_MOD + lo < (hi + 1) * U64_MOD <= y * U64_MOD;
    DivBound(hi * U64_MOD + lo, y, U64_MOD);
  }

  // ---- interfaces --------------------------------------------------------------

  datatype Iface = Iface(linkType: u16, snapLen: u32, tsUnits: u64, tsOffset: i64)

  datatype Time = Time(sec: i64, nsec: u32)

  function Pow(b: nat, e: nat): nat {
    if e == 0 then 1 else b * Pow(b, e - 1)
  }

  lemma {:induction false} PowGrows(b: nat, e: nat, f: nat)
    requires 1 <= b && e <= f
    ensures 1 <= Pow(b, e) <= Pow(b, f)
    decreases f
  {
    if e < f {
      PowGrows(b, e, f - 1);
      assert Pow(b, f - 1) <= b * Pow(b, f - 1);
    } else if e > 0 {
      PowGrows(b, e - 1, e - 1);
      assert 1 <= b * Pow(b, e - 1);
    }
  }

  lemma {:induction false} PowSplits(b: nat, e: nat, f: nat)
    ensures Pow(b, e + f) == Pow(b, e) * Pow(b, f)
  {
    if e > 0 {
      PowSplits(b, e - 1, f);
      Regroup(b, Pow(b, e - 1), Pow(b, f));
    }
  }

  lemma Regroup(x: nat, y: nat, z: nat)
    ensures x * (y * z) == (x * y) * z
  {
  }

  lemma FinestFits()
    ensures Pow(10, 19) < U64_MOD && Pow(2, 63) < U64_MOD
  {
    assert Pow(10, 5) == 100_000;
    PowSplits(10, 5, 5);
    PowSplits(10, 10, 5);
    PowSplits(10, 15, 4);
    assert Pow(10, 4) == 10_000;
    assert Pow(2, 8) == 256;
    PowSplits(2, 8, 8);
    PowSplits(2, 16, 16);
    PowSplits(2, 32, 16);
    PowSplits(2, 48, 8);
    PowSplits(2, 56, 7);
    assert Pow(2, 7) == 128;
  }

  /** The units per second an if_tsresol byte stands for, if the reader accepts
      it: a power of ten up to 19 or a power of two up to 63. */
  function Resolution(b: u8): (u: Option<u64>)
    ensures u.Some? ==> u.value >= 1
  {
    if b < 0x80 then
      if b > 19 then None else TenFits(b); Some(Pow(10, b))
    else
      if b - 0x80 > 63 then None else TwoFits(b - 0x80); Some(Pow(2, b - 0x80))
  }

  lemma TenFits(e: nat)
    requires e <= 19
    ensures 1 <= Pow(10, e) < U64_MOD
  {
    FinestFits();
    PowGrows(10, e, 19);
  }

  lemma TwoFits(e: nat)
    requires e <= 63
    ensures 1 <= Pow(2, e) < U64_MOD
  {
    FinestFits();
    PowGrows(2, e, 63);
  }

  method TenTimes(exp: nat) returns (units: u64)
    requires exp <= 19
    ensures units == Pow(10, exp)
  {
    units := 1;
    var i := 0;
    while i < exp
      invariant i <= exp && units == Pow(10, i)
    {
      TenFits(i + 1);
      assert Pow(10, i + 1) == units * 10;
      units := (units * 10) % U64_MOD;
      i := i + 1;
    }
  }

  method TsResol(b: u8) returns (u: Option<u64>)
    ensures u == Resolution(b)
  {
    var exp := b % 0x80;
    if b < 0x80 {
      if exp > 19 {
        return None;
      }
      var units := TenTimes(exp);
      return Some(units);
    }
    if exp > 63 {
      return None;
    }
    TwoFits(exp);
    return Some(Pow(2, exp));
  }

  // ---- timestamps --------------------------------------------------------------

  function ToI64(x: u64): i64 {
    if x < I64_MOD2 then x else x - U64_MOD
  }

  function WrapI64(z: int): i64 {
    (z + I64_MOD2) % U64_MOD - I64_MOD2
  }

  /** Nanoseconds of a fraction of a second, through the 128-bit product. */
  function Nanos(frac: u64, units: u64): (n: u64)
    requires frac < units
  {
    var p := Mul64(frac, SECOND);
    NoTrap(frac, units);
    Div64(p.0, p.1, units)
  }

  lemma NoTrap(frac: u64, units: u64)
    requires frac < units
    ensures Mul64(frac, SECOND).0 < units
  {
    var p := Mul64(frac, SECOND);
    assert p.0 * U64_MOD <= frac * SECOND;
  }

  /** Seconds from year 1, from which a stored time counts, to 1970. */
  const UNIX_TO_INTERNAL := 62_135_596_800

  /** The time as it is stored and compared, in seconds since year 1. */
  function Timestamp(i: Iface, raw: u64): Time
    requires i.tsUnits >= 1
  {
    NanosBelowASecond(raw % i.tsUnits, i.tsUnits);
    var unix := WrapI64(ToI64(Whole(raw, i.tsUnits)) + i.tsOffset);
    Time(WrapI64(unix + UNIX_TO_INTERNAL), Nanos(raw % i.tsUnits, i.tsUnits))
  }

  lemma NanosBelowASecond(frac: u64, units: u64)
    requires frac < units
    ensures Nanos(frac, units) == frac * SECOND / units < SECOND
  {
    NoTrap(frac, units);
    DivBound(frac * SECOND, units, SECOND);
  }

  /** The conversion is exact: seconds and nanoseconds are the raw count scaled
      to nanoseconds, rounded down, for every resolution. */
  lemma {:induction false} ScalesExactly(raw: u64, units: u64)
    requires units >= 1
    ensures (raw / units) * 1_000_000_000 + Nanos(raw % units, units) == raw * 1_000_000_000 / units
    ensures Nanos(raw % units, units) < 1_000_000_000
  {
    NanosBelowASecond(raw % units, units);
    Remainder(raw, units);
    Scaled(raw, raw / units, units, raw % units);
  }

  lemma Remainder(raw: nat, units: nat)
    requires units >= 1
    ensures raw == (raw / units) * units + raw % units
  {
  }

  lemma {:induction false} Scaled(raw: nat, sec: nat, units: nat, frac: nat)
    requires units >= 1 && raw == sec * units + frac
    ensures sec * SECOND + frac * SECOND / units == raw * SECOND / units
  {
    assert (sec * units) * SECOND == (sec * SECOND) * units;
    DivPlus(sec * SECOND, units, frac * SECOND);
  }

  predicate NotAfter(a: Time, b: Time) {
    a.sec < b.sec || (a.sec == b.sec && a.nsec <= b.nsec)
  }

  /** The whole second since year 1, the interface's offset included. */
  function Second(i: Iface, raw: u64): int
    requires i.tsUnits >= 1
  {
    raw / i.tsUnits + i.tsOffset + UNIX_TO_INTERNAL
  }

  /** It is one a signed word can hold. */
  predicate Representable(i: Iface, raw: u64)
    requires i.tsUnits >= 1
  {
    Second(i, raw) < I64_MOD2
  }

  /** How often storing it goes around. */
  function Turns(z: int): int {
    (z + I64_MOD2) / U64_MOD
  }

  lemma StoredSecond(i: Iface, raw: u64)
    requires i.tsUnits >= 1
    ensures Timestamp(i, raw).sec == Second(i, raw) - Turns(Second(i, raw)) * U64_MOD
    ensures Representable(i, raw) <==> Turns(Second(i, raw)) == 0
    ensures Turns(Second(i, raw)) >= 0
  {
    WrapsOnce(Whole(raw, i.tsUnits), i.tsOffset);
  }

  lemma WrapIs(z: int)
    ensures WrapI64(z) == z - Turns(z) * U64_MOD
  {
  }

  lemma WrapUnique(z: int, turns: int)
    requires -I64_MOD2 <= z - turns * U64_MOD < I64_MOD2
    ensures Turns(z) == turns
  {
  }

  lemma {:induction false} WrapsOnce(sec: u64, offset: i64)
    ensures WrapI64(WrapI64(ToI64(sec) + offset) + UNIX_TO_INTERNAL) == WrapI64(sec + offset + UNIX_TO_INTERNAL)
  {
    var z := sec + offset + UNIX_TO_INTERNAL;
    var signed := ToI64(sec) + offset;
    var unix := WrapI64(signed) + UNIX_TO_INTERNAL;
    var borrowed := if sec < I64_MOD2 then 0 else 1;
    WrapIs(signed);
    WrapIs(unix);
    WrapIs(z);
    WrapUnique(z, borrowed + Turns(signed) + Turns(unix));
  }

  lemma TurnsMono(a: int, b: int)
    requires a <= b < a + U64_MOD
    ensures Turns(b) == Turns(a) || Turns(b) == Turns(a) + 1
  {
  }

  /** Raw counts convert in order exactly when the later one's second goes around
      as often as the earlier one's. */
  lemma {:induction false} OrderedExactly(i: Iface, a: u64, b: u64)
    requires i.tsUnits >= 1 && a <= b
    ensures NotAfter(Timestamp(i, a), Timestamp(i, b)) <==> Turns(Second(i, a)) == Turns(Second(i, b))
  {
    var u := i.tsUnits;
    DivMono(a, b, u);
    StoredSecond(i, a);
    StoredSecond(i, b);
    Quotient(b, u);
    TurnsMono(Second(i, a), Second(i, b));
    if a / u == b / u {
      SameSecond(a, b, u);
    }
  }

  lemma Quotient(raw: u64, units: u64)
    requires units >= 1
    ensures 0 <= raw / units < U64_MOD
  {
    var w := Whole(raw, units);
  }

  /** From a representable second on, the order is kept exactly up to the last
      representable one. */
  lemma OrderedExactlyWhenRepresentable(i: Iface, a: u64, b: u64)
    requires i.tsUnits >= 1 && a <= b && Representable(i, a)
    ensures NotAfter(Timestamp(i, a), Timestamp(i, b)) <==> Representable(i, b)
  {
    OrderedExactly(i, a, b);
    StoredSecond(i, a);
    StoredSecond(i, b);
  }

  lemma {:induction false} SameSecond(a: u64, b: u64, u: u64)
    requires u >= 1 && a <= b && a / u == b / u
    ensures Nanos(a % u, u) <= Nanos(b % u, u)
  {
    Remainder(a, u);
    Remainder(b, u);
    NanosBelowASecond(a % u, u);
    NanosBelowASecond(b % u, u);
    DivMono((a % u) * SECOND, (b % u) * SECOND, u);
  }

  // ---- options -------------------------------------------------------------------

  function Reverse(bs: seq<u8>): (r: seq<u8>)
    ensures |r| == |bs|
  {
    if bs == [] then [] else Reverse(bs[1..]) + [bs[0]]
  }

  lemma {:induction false} ReverseSnoc(bs: seq<u8>, b: u8)
    ensures Reverse(bs + [b]) == [b] + Reverse(bs)
  {
    if bs == [] {
      assert [b][1..] == [];
    } else {
      ReverseSnoc(bs[1..], b);
      assert (bs + [b])[1..] == bs[1..] + [b];
    }
  }

  lemma {:induction false} ReverseTwice(bs: seq<u8>)
    ensures Reverse(Reverse(bs)) == bs
  {
    if bs != [] {
      ReverseTwice(bs[1..]);
      ReverseSnoc(Reverse(bs[1..]), bs[0]);
    }
  }

  /** An integer field in the section's byte order. */
  function Read(bs: seq<u8>, big: bool): (v: nat)
    ensures v < W.Pow256(|bs|)
  {
    if big then W.UnLe(Reverse(bs)) else W.UnLe(bs)
  }

  function Write(v: nat, w: nat, big: bool): (bs: seq<u8>)
    ensures |bs| == w
  {
    if big then Reverse(W.Le(v, w)) else W.Le(v, w)
  }

  lemma ReadsWritten(v: nat, w: nat, big: bool)
    requires v < W.Pow256(w)
    ensures Read(Write(v, w, big), big) == v
  {
    W.ReadsBack(v, w);
    ReverseTwice(W.Le(v, w));
  }

  function Read16(bs: seq<u8>, big: bool): u16
    requires |bs| == 2
  {
    W.Widths(); Read(bs, big)
  }

  function Read64(bs: seq<u8>, big: bool): u64
    requires |bs| == 8
  {
    W.Widths(); Read(bs, big)
  }

  datatype Opt = Opt(code: u16, val: seq<u8>)

  function Pad4(n: nat): (p: nat)
    ensures p % 4 == 0 && n <= p < n + 4
  {
    (n + 3) / 4 * 4
  }

  /** What an interface option does to the interface, or None if it is refused. */
  function Apply(i: Iface, o: Opt, big: bool): Option<Iface> {
    if o.code == OPT_IF_TSRESOL then
      if |o.val| < 1 then None
      else if Resolution(o.val[0]).None? then None
      else Some(i.(tsUnits := Resolution(o.val[0]).value))
    else if o.code == OPT_IF_TSOFFSET then
      if |o.val| < 8 then None else Some(i.(tsOffset := ToI64(Read64(o.val[..8], big))))
    else Some(i)
  }

  function ApplyAll(i: Iface, os: seq<Opt>, big: bool): Option<Iface>
    decreases |os|
  {
    if os == [] then Some(i)
    else
      var next := Apply(i, os[0], big);
      if next.None? then None else ApplyAll(next.value, os[1..], big)
  }

  /** The option list from here on: the options walked and whether the walk ends
      without an option that overruns the block. */
  function Options(b: seq<u8>, big: bool): (seq<Opt>, bool)
    decreases |b|
  {
    if |b| < 4 || Read16(b[..2], big) == OPT_END then ([], true)
    else
      var length := Read16(b[2..4], big);
      if 4 + length > |b| then ([], false)
      else
        var o := Opt(Read16(b[..2], big), b[4..4 + length]);
        var next := 4 + Pad4(length);
        if next > |b| then ([o], true)
        else
          var rest := Options(b[next..], big);
          ([o] + rest.0, rest.1)
  }

  function Described(b: seq<u8>, i: Iface, big: bool): Option<Iface> {
    if Options(b, big).1 then ApplyAll(i, Options(b, big).0, big) else None
  }

  method OnOption(i: Iface, code: u16, val: seq<u8>, big: bool) returns (r: Option<Iface>)
    ensures r == Apply(i, Opt(code, val), big)
  {
    if code == OPT_IF_TSRESOL {
      if |val| < 1 {
        return None;
      }
      var units := TsResol(val[0]);
      if units.None? {
        return None;
      }
      return Some(i.(tsUnits := units.value));
    }
    if code == OPT_IF_TSOFFSET {
      if |val| < 8 {
        return None;
      }
      return Some(i.(tsOffset := ToI64(Read64(val[..8], big))));
    }
    return Some(i);
  }

  /** Walks an interface's options, applying each as it is met. */
  method EachOption(block: seq<u8>, start: Iface, big: bool) returns (r: Option<Iface>)
    ensures r == Described(block, start, big)
  {
    var b, i := block, start;
    while |b| >= 4
      invariant Described(block, start, big) == Described(b, i, big)
      decreases |b|
    {
      var code := Read16(b[..2], big);
      if code == OPT_END {
        return Some(i);
      }
      var length := Read16(b[2..4], big);
      if 4 + length > |b| {
        return None;
      }
      var val := b[4..4 + length];
      var next := 4 + Pad4(length);
      OneOption(b, i, big);
      var applied := OnOption(i, code, val, big);
      if applied.None? {
        return None;
      }
      i := applied.value;
      if next > |b| {
        return Some(i);
      }
      b := b[next..];
    }
    return Some(i);
  }

  lemma OneOption(b: seq<u8>, i: Iface, big: bool)
    requires |b| >= 4 && Read16(b[..2], big) != OPT_END && 4 + Read16(b[2..4], big) <= |b|
    ensures var length := Read16(b[2..4], big);
            var next := 4 + Pad4(length);
            var applied := Apply(i, Opt(Read16(b[..2], big), b[4..4 + length]), big);
            Described(b, i, big) ==
            if applied.None? then None
            else if next > |b| then applied
            else Described(b[next..], applied.value, big)
  {
    var length := Read16(b[2..4], big);
    var next := 4 + Pad4(length);
    var o := Opt(Read16(b[..2], big), b[4..4 + length]);
    if next > |b| {
      assert Options(b, big) == ([o], true);
      FirstApplied(i, o, [], big);
      assert [o] + [] == [o];
    } else {
      var rest := Options(b[next..], big);
      assert Options(b, big) == ([o] + rest.0, rest.1);
      FirstApplied(i, o, rest.0, big);
    }
  }

  lemma FirstApplied(i: Iface, o: Opt, rest: seq<Opt>, big: bool)
    ensures ApplyAll(i, [o] + rest, big)
      == if Apply(i, o, big).None? then None else ApplyAll(Apply(i, o, big).value, rest, big)
  {
    assert ([o] + rest)[1..] == rest;
  }

  // ---- what a writer lists, the reader applies ---------------------------------

  predicate Writable(o: Opt) {
    o.code != OPT_END && |o.val| < 0x1_0000
  }

  function OptBytes(o: Opt, big: bool): seq<u8>
    requires Writable(o)
  {
    Write(o.code, 2, big) + Write(|o.val|, 2, big) + o.val + seq(Pad4(|o.val|) - |o.val|, i => 0)
  }

  function Listing(os: seq<Opt>, big: bool): seq<u8>
    requires forall i :: 0 <= i < |os| ==> Writable(os[i])
  {
    if os == [] then [] else OptBytes(os[0], big) + Listing(os[1..], big)
  }

  /** The list ends at the block's end or at an end-of-options marker. */
  predicate Ends(tail: seq<u8>, big: bool) {
    |tail| < 4 || Read16(tail[..2], big) == OPT_END
  }

  lemma OptionReadsBack(o: Opt, rest: seq<u8>, big: bool)
    requires Writable(o)
    ensures var b := OptBytes(o, big) + rest;
            && |b| >= 4 + Pad4(|o.val|)
            && Read16(b[..2], big) == o.code && Read16(b[2..4], big) == |o.val|
            && b[4..4 + |o.val|] == o.val && b[4 + Pad4(|o.val|)..] == rest
  {
    var b := OptBytes(o, big) + rest;
    W.Widths();
    ReadsWritten(o.code, 2, big);
    ReadsWritten(|o.val|, 2, big);
    assert b[..2] == Write(o.code, 2, big) && b[2..4] == Write(|o.val|, 2, big);
  }

  lemma FirstOption(b: seq<u8>, o: Opt, rest: seq<u8>, big: bool)
    requires o.code != OPT_END && |b| >= 4 + Pad4(|o.val|)
    requires Read16(b[..2], big) == o.code && Read16(b[2..4], big) == |o.val|
    requires b[4..4 + |o.val|] == o.val && b[4 + Pad4(|o.val|)..] == rest
    ensures Options(b, big) == ([o] + Options(rest, big).0, Options(rest, big).1)
  {
  }

  lemma ReadFirst(o: Opt, rest: seq<u8>, big: bool)
    requires Writable(o)
    ensures Options(OptBytes(o, big) + rest, big) == ([o] + Options(rest, big).0, Options(rest, big).1)
  {
    OptionReadsBack(o, rest, big);
    FirstOption(OptBytes(o, big) + rest, o, rest, big);
  }

  lemma ListingStep(os: seq<Opt>, tail: seq<u8>, big: bool)
    requires os != [] && forall i :: 0 <= i < |os| ==> Writable(os[i])
    ensures Listing(os, big) + tail == OptBytes(os[0], big) + (Listing(os[1..], big) + tail)
  {
  }

  /** A list written with padding is read back option by option, with or without
      an end marker, in either byte order. */
  lemma {:induction false} OptionsReadBack(os: seq<Opt>, tail: seq<u8>, big: bool)
    requires (forall i :: 0 <= i < |os| ==> Writable(os[i])) && Ends(tail, big)
    ensures Options(Listing(os, big) + tail, big) == (os, true)
    decreases |os|
  {
    if os == [] {
      assert Listing(os, big) + tail == tail;
    } else {
      assert Writable(os[0]);
      ListingStep(os, tail, big);
      OptionsReadBack(os[1..], tail, big);
      ReadFirst(os[0], Listing(os[1..], big) + tail, big);
      assert [os[0]] + os[1..] == os;
    }
  }

  // ---- no accepted interface can trap --------------------------------------------

  /** The resolutions the format allows a reader to count. */
  predicate Accepted(units: nat) {
    || units == DEFAULT_TS_RESOL
    || (exists e :: 0 <= e <= 19 && units == Pow(10, e))
    || (exists e :: 0 <= e <= 63 && units == Pow(2, e))
  }

  lemma ResolutionIsAccepted(b: u8)
    requires Resolution(b).Some?
    ensures Accepted(Resolution(b).value)
  {
    if b < 0x80 {
      assert Resolution(b).value == Pow(10, b);
    } else {
      assert Resolution(b).value == Pow(2, b - 0x80);
    }
  }

  lemma {:induction false} AppliedIsAccepted(i: Iface, os: seq<Opt>, big: bool)
    requires Accepted(i.tsUnits) && i.tsUnits >= 1
    ensures var r := ApplyAll(i, os, big);
            r.Some? ==> Accepted(r.value.tsUnits) && r.value.tsUnits >= 1
    decreases |os|
  {
    if os != [] {
      var next := Apply(i, os[0], big);
      if next.Some? {
        if os[0].code == OPT_IF_TSRESOL {
          ResolutionIsAccepted(os[0].val[0]);
        }
        AppliedIsAccepted(next.value, os[1..], big);
      }
    }
  }

  /** Whatever an interface's options say, an interface that is accepted counts
      in one of the allowed resolutions, and each of its packets gets an exact
      time without the division ever trapping. */
  lemma AcceptedInterfacesNeverTrap(block: seq<u8>, linkType: u16, snapLen: u32, big: bool, raw: u64)
    requires Described(block, Iface(linkType, snapLen, DEFAULT_TS_RESOL, 0), big).Some?
    ensures var i := Described(block, Iface(linkType, snapLen, DEFAULT_TS_RESOL, 0), big).value;
            && Accepted(i.tsUnits) && i.tsUnits >= 1
            && Mul64(raw % i.tsUnits, SECOND).0 < i.tsUnits
            && (raw / i.tsUnits) * SECOND + Timestamp(i, raw).nsec == raw * SECOND / i.tsUnits
  {
    var start := Iface(linkType, snapLen, DEFAULT_TS_RESOL, 0);
    AppliedIsAccepted(start, Options(block, big).0, big);
    var i := Described(block, start, big).value;
    NoTrap(raw % i.tsUnits, i.tsUnits);
    ScalesExactly(raw, i.tsUnits);
  }

  // ---- what an interface's options mean --------------------------------------------

  /** The value of the last option with a code. */
  function LastOf(os: seq<Opt>, code: u16): Option<seq<u8>> {
    if os == [] then None
    else if os[|os| - 1].code == code then Some(os[|os| - 1].val)
    else LastOf(os[..|os| - 1], code)
  }

  /** Units per second by the first byte of if_tsresol (9): up to 127 a power of ten,
      from 128 on a power of two; a million without the option. */
  predicate Counts(units: u64, val: Option<seq<u8>>) {
    if val.None? then units == 1_000_000
    else
      && |val.value| >= 1
      && (if val.value[0] < 128 then val.value[0] <= 19 && units == Pow(10, val.value[0])
          else val.value[0] <= 128 + 63 && units == Pow(2, val.value[0] - 128))
  }

  /** A signed word in the section's byte order. */
  predicate Spells(val: seq<u8>, z: i64, big: bool) {
    |val| >= 8 && val[..8] == Write(if z < 0 then z + 0x1_0000_0000_0000_0000 else z, 8, big)
  }

  /** Seconds by if_tsoffset (14), none without the option. */
  predicate Shifts(offset: i64, val: Option<seq<u8>>, big: bool) {
    if val.None? then offset == 0 else Spells(val.value, offset, big)
  }

  lemma {:induction false} AppliedLast(i: Iface, os: seq<Opt>, big: bool)
    requires os != []
    ensures ApplyAll(i, os, big) ==
            var before := ApplyAll(i, os[..|os| - 1], big);
            if before.None? then None else Apply(before.value, os[|os| - 1], big)
    decreases |os|
  {
    if |os| > 1 {
      var first := Apply(i, os[0], big);
      if first.Some? {
        AppliedLast(first.value, os[1..], big);
        assert os[1..][..|os| - 2] == os[..|os| - 1][1..];
      }
    } else {
      assert os[..0] == [] && os[1..] == [];
    }
  }

  lemma {:induction false} SpelledWord(val: seq<u8>, big: bool)
    requires |val| >= 8
    ensures Spells(val, ToI64(Read64(val[..8], big)), big)
  {
    WritesRead(val[..8], big);
  }

  lemma {:induction false} WritesRead(bs: seq<u8>, big: bool)
    ensures Write(Read(bs, big), |bs|, big) == bs
  {
    if big {
      W.WritesBack(Reverse(bs));
      ReverseTwice(bs);
    } else {
      W.WritesBack(bs);
    }
  }

  lemma {:induction false} OptionsMeanExactly(linkType: u16, snapLen: u32, os: seq<Opt>, big: bool)
    requires ApplyAll(Iface(linkType, snapLen, 1_000_000, 0), os, big).Some?
    ensures var i := ApplyAll(Iface(linkType, snapLen, 1_000_000, 0), os, big).value;
            && i.linkType == linkType && i.snapLen == snapLen
            && Counts(i.tsUnits, LastOf(os, 9)) && Shifts(i.tsOffset, LastOf(os, 14), big)
  {
    if os != [] {
      var init, o := os[..|os| - 1], os[|os| - 1];
      AppliedLast(Iface(linkType, snapLen, 1_000_000, 0), os, big);
      OptionsMeanExactly(linkType, snapLen, init, big);
      if o.code == 14 { SpelledWord(o.val, big); }
    }
  }

  /** An option the format lets a reader use. */
  predicate Usable(o: Opt) {
    && (o.code == 9 ==> |o.val| >= 1 && (o.val[0] <= 19 || 128 <= o.val[0] <= 128 + 63))
    && (o.code == 14 ==> |o.val| >= 8)
  }

  lemma {:induction false} AppliedExactly(i: Iface, os: seq<Opt>, big: bool)
    ensures ApplyAll(i, os, big).Some? <==> forall k :: 0 <= k < |os| ==> Usable(os[k])
    decreases |os|
  {
    if os != [] {
      var next := Apply(i, os[0], big);
      assert next.Some? <==> Usable(os[0]);
      if next.Some? {
        AppliedExactly(next.value, os[1..], big);
        assert forall k :: 0 < k < |os| ==> os[k] == os[1..][k - 1];
        assert forall k :: 0 <= k < |os| - 1 ==> os[1..][k] == os[k + 1];
      }
    }
  }

  /** An interface described by a written option list is accepted if and only if each
      of its options can be used, and then counts as the first byte of its last
      if_tsresol says, a million times a second without one, from the offset of its
      last if_tsoffset. */
  lemma {:induction false} DescriptionMeansExactly(
    linkType: u16, snapLen: u32, os: seq<Opt>, tail: seq<u8>, big: bool)
    requires (forall k :: 0 <= k < |os| ==> Writable(os[k])) && Ends(tail, big)
    ensures var r := Described(Listing(os, big) + tail, Iface(linkType, snapLen, 1_000_000, 0), big);
            && (r.Some? <==> forall k :: 0 <= k < |os| ==> Usable(os[k]))
            && (r.Some? ==> Counts(r.value.tsUnits, LastOf(os, 9)) && Shifts(r.value.tsOffset, LastOf(os, 14), big))
  {
    var i := Iface(linkType, snapLen, 1_000_000, 0);
    OptionsReadBack(os, tail, big);
    AppliedExactly(i, os, big);
    if ApplyAll(i, os, big).Some? { OptionsMeanExactly(linkType, snapLen, os, big); }
  }

  /** The end marker is option 0. */
  lemma ZeroEnds(rest: seq<u8>, big: bool)
    ensures Ends([0, 0] + rest, big)
  {
    var tail := [0, 0] + rest;
    assert tail[..2] == [0, 0] && [0, 0][1..] == [0] && [0][1..] == [];
    assert W.UnLe([]) == 0 && W.UnLe([0]) == 0 && W.UnLe([0, 0]) == 0;
    assert Reverse([0]) == [0] && Reverse([0, 0]) == [0, 0];
  }

  /** A nanosecond capture. */
  lemma NanosecondsCount()
    ensures Pow(10, 9) == 1_000_000_000 && Resolution(9) == Some(1_000_000_000)
  {
    assert Pow(10, 4) == 10_000 && Pow(10, 5) == 100_000;
    PowSplits(10, 4, 5);
  }
}
