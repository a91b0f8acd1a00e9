/** The parser and the printer are inverse to each other on clean datagrams, and
    a datagram cut short is never blamed on the publisher. */
module WireTheorems {
  import opened Core
  import opened Wire

  // ---- what the printer prints, the parser reads -----------------------------

  /** Messages laid end to end from an offset. */
  function Placed(ms: seq<Item>, off: nat): (ps: seq<Message>)
    ensures |ps| == |ms|
    decreases |ms|
  {
    if ms == [] then [] else [Message(ms[0], off)] + Placed(ms[1..], off + MSG_HEADER_LEN + |ms[0].body|)
  }

  predicate AllSized(ms: seq<Item>) {
    forall i :: 0 <= i < |ms| ==> Sized(ms[i])
  }

  /** The datagram is tiled by these messages from an offset to its end. */
  predicate Tiled(raw: seq<u8>, off: nat, ms: seq<Item>)
    decreases |ms|
  {
    if ms == [] then off == |raw|
    else
      && off + 1 < |raw| && off + MSG_HEADER_LEN <= off + raw[off + 1] <= |raw|
      && ItemAt(raw, off) == ms[0] && Tiled(raw, off + raw[off + 1], ms[1..])
  }

  lemma {:induction false} EncodingTiles(raw: seq<u8>, off: nat, ms: seq<Item>)
    requires off <= |raw| && raw[off..] == Encode(ms) && AllSized(ms)
    ensures Tiled(raw, off, ms)
    decreases |ms|
  {
    if ms != [] {
      assert Sized(ms[0]);
      ItemReadsBack(raw, off, ms[0], Encode(ms[1..]));
      EncodingTiles(raw, off + ms[0].length, ms[1..]);
    }
  }

  lemma OneStep(raw: seq<u8>, off: nat)
    requires off + 1 < |raw| && off + MSG_HEADER_LEN <= off + raw[off + 1] <= |raw|
    ensures var rest := Walk(raw, |raw|, off + raw[off + 1]);
            Walk(raw, |raw|, off) == Walked([Message(ItemAt(raw, off), off)] + rest.msgs, rest.off, rest.stop)
  {
    assert StopAt(raw, |raw|, off) == [];
  }

  lemma {:induction false} WalkFollowsTiles(raw: seq<u8>, off: nat, ms: seq<Item>)
    requires Tiled(raw, off, ms)
    ensures Walk(raw, |raw|, off) == Walked(Placed(ms, off), |raw|, [])
    decreases |ms|
  {
    if ms != [] {
      var next := off + raw[off + 1];
      WalkFollowsTiles(raw, next, ms[1..]);
      OneStep(raw, off);
      assert Placed(ms, off) == [Message(ms[0], off)] + Placed(ms[1..], next);
    }
  }

  lemma {:induction false} WalkReadsBack(raw: seq<u8>, off: nat, ms: seq<Item>)
    requires off <= |raw| && raw[off..] == Encode(ms) && AllSized(ms)
    ensures Walk(raw, |raw|, off) == Walked(Placed(ms, off), |raw|, [])
  {
    EncodingTiles(raw, off, ms);
    WalkFollowsTiles(raw, off, ms);
  }

  /** What decoding comes to, given the header and the walk. */
  lemma DecodeIs(raw: seq<u8>, h: Header, w: Walked)
    requires |raw| >= FRAME_HEADER_LEN && ParseHeader(raw) == h && Walk(raw, h.frameLength, FRAME_HEADER_LEN) == w
    ensures Decode(raw, h.magic)
      == Decoded(h, w.msgs, SchemaFindings(h.magic, h.schema) + LengthFindings(h.frameLength, |raw|)
                            + (w.stop + CountFindings(h, w, Short(h, |raw|))))
  {
  }

  lemma NothingToReport(h: Header, w: Walked)
    requires h.schema == CurrentSchema(h.magic) && ValidDecl(h.frameLength) && h.msgCount != 0
    requires w.stop == [] && w.off == h.frameLength && h.msgCount == |w.msgs|
    ensures SchemaFindings(h.magic, h.schema) == [] && LengthFindings(h.frameLength, h.frameLength) == []
    ensures CountFindings(h, w, Short(h, h.frameLength)) == []
  {
  }

  /** A frame within the format: at least one message and at most 255, each of
      its declared size, within the datagram limit, at the current schema and
      with nothing forged. */
  predicate Conformant(d: Draft) {
    && d.schema == CurrentSchema(d.magic) && d.forged == Overrides(None, None)
    && 1 <= |d.msgs| <= 255 && AllSized(d.msgs)
    && FRAME_HEADER_LEN + |Encode(d.msgs)| <= MAX_FRAME_LEN
  }

  /** Decoding a conformant frame finds nothing wrong and gives back its header
      and its messages. */
  lemma ConformantFramesDecodeClean(d: Draft)
    requires Conformant(d)
    ensures Decode(Bytes(d), d.magic) == Decoded(DraftHeader(d), Placed(d.msgs, FRAME_HEADER_LEN), [])
  {
    var raw, h := Bytes(d), DraftHeader(d);
    HeaderReadsBack(h, Encode(d.msgs));
    assert raw[FRAME_HEADER_LEN..] == Encode(d.msgs) && h.frameLength == |raw|;
    WalkReadsBack(raw, FRAME_HEADER_LEN, d.msgs);
    var w := Walked(Placed(d.msgs, FRAME_HEADER_LEN), |raw|, []);
    DecodeIs(raw, h, w);
    NothingToReport(h, w);
  }

  // ---- what the parser reads clean, the printer prints -----------------------

  function Items(ps: seq<Message>): (ms: seq<Item>)
    ensures |ms| == |ps|
  {
    if ps == [] then [] else [ps[0].item] + Items(ps[1..])
  }

  lemma OneMorePlaced(raw: seq<u8>, off: nat, next: nat, m: Item, rest: seq<Message>)
    requires off <= next <= |raw| && ItemBytes(m) == raw[off..next] && Sized(m)
    requires raw[next..] == Encode(Items(rest)) && AllSized(Items(rest)) && rest == Placed(Items(rest), next)
    ensures var ps := [Message(m, off)] + rest;
            raw[off..] == Encode(Items(ps)) && AllSized(Items(ps)) && ps == Placed(Items(ps), off)
  {
    var ps := [Message(m, off)] + rest;
    assert ps[1..] == rest;
    assert Items(ps) == [m] + Items(rest) && Items(ps)[1..] == Items(rest);
    assert raw[off..] == raw[off..next] + raw[next..];
  }

  lemma {:induction false} WalkWritesBack(raw: seq<u8>, off: nat)
    requires off <= |raw|
    requires Walk(raw, |raw|, off).stop == []
    ensures var w := Walk(raw, |raw|, off);
            w.off == |raw| && raw[off..] == Encode(Items(w.msgs))
            && AllSized(Items(w.msgs)) && w.msgs == Placed(Items(w.msgs), off)
    decreases |raw| - off
  {
    if off < |raw| {
      var next := off + raw[off + 1];
      WalkWritesBack(raw, next);
      ItemWritesBack(raw, off);
      OneMorePlaced(raw, off, next, ItemAt(raw, off), Walk(raw, |raw|, next).msgs);
    }
  }

  /** The frame a clean datagram amounts to. */
  function Reprinted(x: Decoded): Draft {
    Draft(x.header.magic, x.header.schema, x.header.channel, x.header.seqNo, x.header.sendTS, x.header.resetCount,
          Items(x.msgs), Overrides(None, None))
  }

  lemma CleanHeader(raw: seq<u8>, magic: u16)
    requires Decode(raw, magic).findings == []
    ensures |raw| >= FRAME_HEADER_LEN
    ensures var h := ParseHeader(raw);
            && h.magic == magic && h.schema == CurrentSchema(magic)
            && ValidDecl(h.frameLength) && h.frameLength == |raw|
            && Walk(raw, |raw|, FRAME_HEADER_LEN).stop == []
            && h.msgCount != 0 && h.msgCount == |Walk(raw, |raw|, FRAME_HEADER_LEN).msgs|
  {
    var h := ParseHeader(raw);
    var w := Walk(raw, h.frameLength, FRAME_HEADER_LEN);
    var parts := SchemaFindings(magic, h.schema) + LengthFindings(h.frameLength, |raw|)
                 + (w.stop + CountFindings(h, w, Short(h, |raw|)));
    assert parts == [];
    assert SchemaFindings(magic, h.schema) == [] && LengthFindings(h.frameLength, |raw|) == [];
    assert w.stop == [] && CountFindings(h, w, Short(h, |raw|)) == [];
  }

  /** A datagram that decodes with no finding is tiled by its messages from
      offset 24 to its end, is a conformant frame, and prints to the same bytes. */
  lemma {:induction false} CleanDatagramsReprint(raw: seq<u8>, magic: u16)
    requires Decode(raw, magic).findings == []
    ensures var x := Decode(raw, magic);
            && Conformant(Reprinted(x))
            && Bytes(Reprinted(x)) == raw
            && x.msgs == Placed(Items(x.msgs), FRAME_HEADER_LEN)
  {
    CleanHeader(raw, magic);
    var h, w := ParseHeader(raw), Walk(raw, |raw|, FRAME_HEADER_LEN);
    DecodeIs(raw, h, w);
    WalkWritesBack(raw, FRAME_HEADER_LEN);
    ReprintsTo(raw, h, w.msgs, Decode(raw, magic).findings);
  }

  lemma {:induction false} ReprintsTo(raw: seq<u8>, h: Header, ps: seq<Message>, fs: seq<Finding>)
    requires |raw| >= FRAME_HEADER_LEN && ParseHeader(raw) == h && raw[FRAME_HEADER_LEN..] == Encode(Items(ps))
    requires h.schema == CurrentSchema(h.magic) && ValidDecl(h.frameLength) && h.frameLength == |raw|
    requires h.msgCount != 0 && h.msgCount == |ps| && AllSized(Items(ps))
    ensures var d := Reprinted(Decoded(h, ps, fs)); Conformant(d) && Bytes(d) == raw
  {
    var d := Reprinted(Decoded(h, ps, fs));
    assert DraftHeader(d) == h;
    HeaderWritesBack(raw);
    assert raw == raw[..24] + raw[24..];
  }

  lemma {:induction false} PlacedItems(ms: seq<Item>, off: nat)
    ensures Items(Placed(ms, off)) == ms
    decreases |ms|
  {
    if ms != [] {
      PlacedItems(ms[1..], off + MSG_HEADER_LEN + |ms[0].body|);
      assert Placed(ms, off)[1..] == Placed(ms[1..], off + MSG_HEADER_LEN + |ms[0].body|);
    }
  }

  /** Hence the clean datagrams of a feed are exactly the printed conformant
      frames, and no two frames print alike. */
  lemma WireBijection(raw: seq<u8>, magic: u16)
    ensures Decode(raw, magic).findings == [] <==>
              exists d: Draft :: Conformant(d) && d.magic == magic && Bytes(d) == raw
    ensures forall d: Draft :: Conformant(d) && d.magic == magic && Bytes(d) == raw ==>
              d == Reprinted(Decode(raw, magic))
  {
    forall d: Draft | Conformant(d) && d.magic == magic && Bytes(d) == raw
      ensures Decode(raw, magic).findings == [] && d == Reprinted(Decode(raw, magic))
    {
      ConformantFramesDecodeClean(d);
      PlacedItems(d.msgs, FRAME_HEADER_LEN);
    }
    if Decode(raw, magic).findings == [] {
      CleanDatagramsReprint(raw, magic);
      CleanHeader(raw, magic);
      var d := Reprinted(Decode(raw, magic));
      assert Conformant(d) && d.magic == magic && Bytes(d) == raw;
    }
  }

  // ---- truncation --------------------------------------------------------------

  predicate AllTransport(fs: seq<Finding>) {
    forall i :: 0 <= i < |fs| ==> fs[i].transport
  }

  lemma {:induction false} WalkOfPrefix(raw: seq<u8>, n: nat, off: nat)
    requires off <= n < |raw| && ValidDecl(|raw|)
    requires Walk(raw, |raw|, off).stop == []
    ensures var w := Walk(raw[..n], |raw|, off);
            w.msgs <= Walk(raw, |raw|, off).msgs && AllTransport(w.stop)
    decreases n - off
  {
    var cut := raw[..n];
    if off < n && StopAt(cut, |raw|, off) == [] {
      var next := off + raw[off + 1];
      WalkOfPrefix(raw, n, next);
      SameItem(raw, n, off);
      PrefixAfter(Message(ItemAt(raw, off), off), Walk(cut, |raw|, next).msgs, Walk(raw, |raw|, next).msgs);
    }
  }

  lemma SameItem(raw: seq<u8>, n: nat, off: nat)
    requires off + 1 < n <= |raw| && off + MSG_HEADER_LEN <= off + raw[off + 1] <= n
    ensures ItemAt(raw[..n], off) == ItemAt(raw, off)
  {
    var cut, next := raw[..n], off + raw[off + 1];
    assert cut[off + 2..off + 4] == raw[off + 2..off + 4] && cut[off + 4..next] == raw[off + 4..next];
  }

  lemma PrefixAfter(m: Message, a: seq<Message>, b: seq<Message>)
    requires a <= b
    ensures [m] + a <= [m] + b
  {
    assert [m] + a == ([m] + b)[..|a| + 1];
  }

  /** Cutting a clean datagram anywhere leaves at least one finding, all of them
      charged to the transport, and messages that are a prefix of its own. */
  lemma TruncationIsTransport(raw: seq<u8>, magic: u16, n: nat)
    requires Decode(raw, magic).findings == [] && n < |raw|
    ensures var x := Decode(raw[..n], magic);
            x.findings != [] && AllTransport(x.findings) && x.msgs <= Decode(raw, magic).msgs
  {
    if n >= FRAME_HEADER_LEN {
      CutPastHeader(raw, magic, n);
    }
  }

  lemma {:induction false} CutPastHeader(raw: seq<u8>, magic: u16, n: nat)
    requires Decode(raw, magic).findings == [] && FRAME_HEADER_LEN <= n < |raw|
    ensures var x := Decode(raw[..n], magic);
            x.findings != [] && AllTransport(x.findings) && x.msgs <= Decode(raw, magic).msgs
  {
    var h, w := ParseHeader(raw), Walk(raw[..n], |raw|, FRAME_HEADER_LEN);
    CleanHeader(raw, magic);
    SameHeader(raw, n);
    WalkOfPrefix(raw, n, FRAME_HEADER_LEN);
    DecodeIs(raw, h, Walk(raw, |raw|, FRAME_HEADER_LEN));
    DecodeIs(raw[..n], h, w);
    ShortFindings(h, w, n);
  }

  lemma ShortFindings(h: Header, w: Walked, n: nat)
    requires h.schema == CurrentSchema(h.magic) && ValidDecl(h.frameLength) && n < h.frameLength
    requires h.msgCount != 0 && AllTransport(w.stop)
    ensures SchemaFindings(h.magic, h.schema) == []
    ensures LengthFindings(h.frameLength, n) == [Finding(FrameLength, 22, true)]
    ensures CountFindings(h, w, Short(h, n)) == []
  {
  }

  lemma SameHeader(raw: seq<u8>, n: nat)
    requires FRAME_HEADER_LEN <= n <= |raw|
    ensures ParseHeader(raw[..n]) == ParseHeader(raw)
  {
    var cut := raw[..n];
    assert cut[0..2] == raw[0..2] && cut[4..12] == raw[4..12];
    assert cut[12..20] == raw[12..20] && cut[22..24] == raw[22..24];
  }

  lemma {:induction false} StopIsTransport(raw: seq<u8>, frameLen: nat, off: nat)
    ensures AnyTransport(Walk(raw, frameLen, off).stop) ==> ValidDecl(frameLen) && |raw| < frameLen
    decreases |raw| - off
  {
    if off < Min(frameLen, |raw|) && StopAt(raw, frameLen, off) == [] {
      StopIsTransport(raw, frameLen, off + raw[off + 1]);
    }
  }

  lemma AnyTransportAdd(a: seq<Finding>, b: seq<Finding>)
    ensures AnyTransport(a + b) <==> AnyTransport(a) || AnyTransport(b)
  {
    if AnyTransport(a) {
      var i :| 0 <= i < |a| && a[i].transport;
      assert (a + b)[i].transport;
    } else if AnyTransport(b) {
      var i :| 0 <= i < |b| && b[i].transport;
      assert (a + b)[|a| + i].transport;
    }
  }

  /** The split of blame, for every datagram: something is charged to the
      transport exactly when the datagram is shorter than a header, or than the
      length that a header of this feed validly declares. */
  lemma TransportExactlyWhenShort(raw: seq<u8>, magic: u16)
    ensures AnyTransport(Decode(raw, magic).findings) <==>
              || |raw| < FRAME_HEADER_LEN
              || (ParseHeader(raw).magic == magic && Short(ParseHeader(raw), |raw|))
  {
    if |raw| < FRAME_HEADER_LEN {
      assert Decode(raw, magic).findings[0].transport;
    } else if ParseHeader(raw).magic == magic {
      WalkedBlame(raw, ParseHeader(raw), magic);
    }
  }

  lemma BlameOfParts(schema: seq<Finding>, length: seq<Finding>, stop: seq<Finding>, count: seq<Finding>)
    requires !AnyTransport(schema) && !AnyTransport(count) && (AnyTransport(stop) ==> AnyTransport(length))
    ensures AnyTransport(schema + length + (stop + count)) <==> AnyTransport(length)
  {
    AnyTransportAdd(schema, length);
    AnyTransportAdd(stop, count);
    AnyTransportAdd(schema + length, stop + count);
  }

  lemma CountBlamesNobodyElse(h: Header, w: Walked, short: bool)
    ensures !AnyTransport(CountFindings(h, w, short))
  {
  }

  lemma {:induction false} WalkedBlame(raw: seq<u8>, h: Header, magic: u16)
    ensures var w := Walk(raw, h.frameLength, FRAME_HEADER_LEN);
            var fs := SchemaFindings(magic, h.schema) + LengthFindings(h.frameLength, |raw|)
                      + (w.stop + CountFindings(h, w, Short(h, |raw|)));
            AnyTransport(fs) <==> Short(h, |raw|)
  {
    var w := Walk(raw, h.frameLength, FRAME_HEADER_LEN);
    StopIsTransport(raw, h.frameLength, FRAME_HEADER_LEN);
    LengthBlame(h, |raw|);
    CountBlamesNobodyElse(h, w, Short(h, |raw|));
    BlameOfParts(SchemaFindings(magic, h.schema), LengthFindings(h.frameLength, |raw|), w.stop,
                 CountFindings(h, w, Short(h, |raw|)));
  }

  lemma LengthBlame(h: Header, received: nat)
    ensures AnyTransport(LengthFindings(h.frameLength, received)) <==> Short(h, received)
  {
    if Short(h, received) {
      assert LengthFindings(h.frameLength, received)[0].transport;
    }
  }
}
