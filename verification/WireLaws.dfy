/** The parser's findings on a header, byte by byte: which declared lengths and
    schemas are charged, and what a datagram without a finding looks like. */
module WireLaws {
  import opened Core
  import opened Wire
  import WT = WireTheorems

  // ---- the header, byte by byte --------------------------------------------------

  /** Integers lie with the least byte first. */
  lemma LeastByteFirst(a: u8, b: u8, c: u8, d: u8)
    ensures UnLe([a, b]) == a + 0x100 * b
    ensures UnLe([a, b, c, d]) == a + 0x100 * b + 0x1_0000 * c + 0x100_0000 * d
  {
    assert [b][1..] == [] && [a, b][1..] == [b];
    assert [d][1..] == [] && [c, d][1..] == [d] && [b, c, d][1..] == [c, d] && [a, b, c, d][1..] == [b, c, d];
    assert UnLe([]) == 0 && UnLe([d]) == d && UnLe([c, d]) == c + 0x100 * d;
  }

  function Word(raw: seq<u8>, off: nat): nat
    requires off + 1 < |raw|
  {
    (raw[off] as int) + 0x100 * (raw[off + 1] as int)
  }

  lemma HeaderWords(raw: seq<u8>)
    requires |raw| >= 24
    ensures ParseHeader(raw).magic == Word(raw, 0) && ParseHeader(raw).frameLength == Word(raw, 22)
    ensures ParseHeader(raw).schema == raw[2] && ParseHeader(raw).msgCount == raw[20]
  {
    assert raw[0..2] == [raw[0], raw[1]] && raw[22..24] == [raw[22], raw[23]];
    LeastByteFirst(raw[0], raw[1], 0, 0);
    LeastByteFirst(raw[22], raw[23], 0, 0);
  }

  predicate AllPast(fs: seq<Finding>, off: nat) {
    forall f :: f in fs ==> f.offset >= off
  }

  lemma {:induction false} WalkGoesOn(raw: seq<u8>, frameLen: nat, off: nat)
    ensures var w := Walk(raw, frameLen, off); w.off >= off && AllPast(w.stop, off)
    decreases |raw| - off
  {
    if off < Min(frameLen, |raw|) && StopAt(raw, frameLen, off) == [] {
      WalkGoesOn(raw, frameLen, off + raw[off + 1]);
    }
  }

  lemma HeaderFindingsAre(raw: seq<u8>, magic: u16, f: Finding)
    requires |raw| >= 24 && ParseHeader(raw).magic == magic && f.offset < 20
    ensures f in Decode(raw, magic).findings <==> f in SchemaFindings(magic, raw[2])
  {
    var h := ParseHeader(raw);
    var w := Walk(raw, h.frameLength, 24);
    WalkGoesOn(raw, h.frameLength, 24);
    assert f !in LengthFindings(h.frameLength, |raw|) && f !in w.stop && f !in CountFindings(h, w, Short(h, |raw|));
  }

  lemma LengthFindingsAre(raw: seq<u8>, magic: u16, transport: bool)
    requires |raw| >= 24 && ParseHeader(raw).magic == magic
    ensures var f := Finding(FrameLength, 22, transport);
            f in Decode(raw, magic).findings <==> f in LengthFindings(ParseHeader(raw).frameLength, |raw|)
  {
    var h := ParseHeader(raw);
    var w := Walk(raw, h.frameLength, 24);
    var f := Finding(FrameLength, 22, transport);
    WalkGoesOn(raw, h.frameLength, 24);
    assert f !in SchemaFindings(magic, h.schema) && f !in w.stop && f !in CountFindings(h, w, Short(h, |raw|));
  }

  /** Of a datagram of this feed with a whole header, the declared length is charged
      to the publisher if and only if it is not between 24 and 1232 or falls short of
      what arrived, and to the transport if and only if it is and was not reached. */
  lemma DeclaredLengthChargedExactly(raw: seq<u8>, magic: u16)
    requires |raw| >= 24 && Word(raw, 0) == magic
    ensures var declared, fs := Word(raw, 22), Decode(raw, magic).findings;
            && (Finding(FrameLength, 22, false) in fs <==> declared < 24 || declared > 1232 || declared < |raw|)
            && (Finding(FrameLength, 22, true) in fs <==> 24 <= declared <= 1232 && declared > |raw|)
  {
    HeaderWords(raw);
    LengthFindingsAre(raw, magic, false);
    LengthFindingsAre(raw, magic, true);
  }

  /** The midpoint feed (0x4D44) has schema 1; every other one has 1, superseded,
      and 3. */
  lemma SchemaChargedExactly(raw: seq<u8>, magic: u16)
    requires |raw| >= 24 && Word(raw, 0) == magic
    ensures var fs := Decode(raw, magic).findings;
            && (Finding(SchemaVersion, 2, false) in fs
                <==> if magic == 0x4D44 then raw[2] != 1 else raw[2] != 1 && raw[2] != 3)
            && (Finding(SchemaSuperseded, 2, false) in fs <==> magic != 0x4D44 && raw[2] == 1)
  {
    HeaderWords(raw);
    HeaderFindingsAre(raw, magic, Finding(SchemaVersion, 2, false));
    HeaderFindingsAre(raw, magic, Finding(SchemaSuperseded, 2, false));
  }

  /** A datagram without a finding has 24 to 1232 bytes, says so, carries the feed's
      magic and current schema, and as many messages, at least one, as it says. */
  lemma CleanDatagramIs(raw: seq<u8>, magic: u16)
    requires Decode(raw, magic).findings == []
    ensures 24 <= |raw| <= 1232 && Word(raw, 22) == |raw| && Word(raw, 0) == magic
    ensures raw[2] == if magic == 0x4D44 then 1 else 3
    ensures raw[20] == |Decode(raw, magic).msgs| >= 1
  {
    WT.CleanHeader(raw, magic);
    HeaderWords(raw);
  }

  /** The first message stops the walk if and only if its header does not fit into what
      was declared and arrived, it declares less than a header, or its end lies past
      what was declared or arrived; only the second of these names the message. */
  lemma FirstStopExactly(raw: seq<u8>, declared: nat)
    requires 24 < |raw| && 24 < declared
    ensures var stop, end := StopAt(raw, declared, 24), if declared < |raw| then declared else |raw|;
            && (stop == [] <==> 28 <= end && 4 <= raw[25] && 24 + raw[25] <= end)
            && (stop == [Finding(MsgLength, 24, false)] <==> 28 <= end && raw[25] < 4)
  {
  }

  /** A frame is printed with its messages from offset 24, and with the count and the
      length that were forged, or else those it has, cut to their fields. */
  lemma PrintedHeaderIs(d: Draft)
    ensures var raw := Bytes(d);
            && |raw| >= 24 && raw[24..] == Encode(d.msgs)
            && Word(raw, 0) == d.magic && raw[2] == d.schema && raw[3] == d.channel && raw[21] == d.resetCount
            && raw[20] == (if d.forged.count.Some? then d.forged.count.value else |d.msgs| % 256)
            && Word(raw, 22) == if d.forged.length.Some? then d.forged.length.value else |raw| % 65536
  {
    var raw := Bytes(d);
    HeaderReadsBack(DraftHeader(d), Encode(d.msgs));
    HeaderWords(raw);
    HeaderSlices(DraftHeader(d), Encode(d.msgs));
  }
}
