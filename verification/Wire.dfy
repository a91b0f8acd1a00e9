/** The datagram layout and its strict parser (`wire/decode.go`,
    `wire/header.go`) and the frame builder that prints it
    (`wire/wirebuild/build.go`). */
module Wire {
  import opened Core

  const FRAME_HEADER_LEN: nat := 24
  const MSG_HEADER_LEN: nat := 4
  const MAX_FRAME_LEN: nat := 1232
  const MAGIC_MID: u16 := 0x4D44

  predicate SchemaSupported(magic: u16, ver: u8) {
    if magic == MAGIC_MID then ver == 1 else ver == 1 || ver == 3
  }

  function CurrentSchema(magic: u16): u8 {
    if magic == MAGIC_MID then 1 else 3
  }

  // ---- little-endian integers ------------------------------------------------

  function Pow256(w: nat): nat {
    if w == 0 then 1 else 256 * Pow256(w - 1)
  }

  function Le(v: nat, w: nat): (bs: seq<u8>)
    ensures |bs| == w
  {
    if w == 0 then [] else [v % 256] + Le(v / 256, w - 1)
  }

  function UnLe(bs: seq<u8>): (v: nat)
    ensures v < Pow256(|bs|)
  {
    if bs == [] then 0 else bs[0] + 256 * UnLe(bs[1..])
  }

  lemma {:induction false} ReadsBack(v: nat, w: nat)
    requires v < Pow256(w)
    ensures UnLe(Le(v, w)) == v
  {
    if w > 0 {
      ReadsBack(v / 256, w - 1);
      assert Le(v, w)[1..] == Le(v / 256, w - 1);
    }
  }

  lemma {:induction false} WritesBack(bs: seq<u8>)
    ensures Le(UnLe(bs), |bs|) == bs
  {
    if bs != [] {
      WritesBack(bs[1..]);
      var v := UnLe(bs);
      assert v % 256 == bs[0] && v / 256 == UnLe(bs[1..]);
    }
  }

  lemma Widths()
    ensures Pow256(2) == 0x1_0000 && Pow256(4) == U32_MOD && Pow256(8) == U64_MOD
  {
    assert Pow256(1) == 256 && Pow256(3) == 256 * Pow256(2);
    assert Pow256(5) == 256 * Pow256(4) && Pow256(6) == 256 * Pow256(5) && Pow256(7) == 256 * Pow256(6);
  }

  function U16Of(bs: seq<u8>): u16
    requires |bs| == 2
  {
    Widths(); UnLe(bs)
  }

  function U64Of(bs: seq<u8>): u64
    requires |bs| == 8
  {
    Widths(); UnLe(bs)
  }

  // ---- headers and messages --------------------------------------------------

  datatype Header = Header(
    magic: u16, schema: u8, channel: u8, seqNo: u64, sendTS: u64, msgCount: u8, resetCount: u8, frameLength: u16)

  const NO_HEADER := Header(0, 0, 0, 0, 0, 0, 0, 0)

  function HeaderBytes(h: Header): (bs: seq<u8>)
    ensures |bs| == FRAME_HEADER_LEN
  {
    Le(h.magic, 2) + [h.schema, h.channel] + Le(h.seqNo, 8) + Le(h.sendTS, 8)
    + [h.msgCount, h.resetCount] + Le(h.frameLength, 2)
  }

  function ParseHeader(raw: seq<u8>): Header
    requires |raw| >= FRAME_HEADER_LEN
  {
    Header(U16Of(raw[0..2]), raw[2], raw[3], U64Of(raw[4..12]), U64Of(raw[12..20]), raw[20], raw[21],
           U16Of(raw[22..24]))
  }

  lemma HeaderSlices(h: Header, rest: seq<u8>)
    ensures var raw := HeaderBytes(h) + rest;
            && raw[0..2] == Le(h.magic, 2) && raw[2] == h.schema && raw[3] == h.channel
            && raw[4..12] == Le(h.seqNo, 8) && raw[12..20] == Le(h.sendTS, 8)
            && raw[20] == h.msgCount && raw[21] == h.resetCount && raw[22..24] == Le(h.frameLength, 2)
  {
    var front := Le(h.magic, 2) + [h.schema, h.channel];
    var middle := front + Le(h.seqNo, 8) + Le(h.sendTS, 8);
    assert front[0..2] == Le(h.magic, 2) && |front| == 4 && |middle| == 20;
    assert middle[4..12] == Le(h.seqNo, 8) && middle[12..20] == Le(h.sendTS, 8);
    var raw := HeaderBytes(h) + rest;
    assert raw[..20] == middle;
    assert raw[0..2] == middle[0..2] && raw[4..12] == middle[4..12] && raw[12..20] == middle[12..20];
  }

  lemma HeaderReadsBack(h: Header, rest: seq<u8>)
    ensures ParseHeader(HeaderBytes(h) + rest) == h
  {
    var raw := HeaderBytes(h) + rest;
    HeaderSlices(h, rest);
    Widths();
    ReadsBack(h.magic, 2);
    ReadsBack(h.seqNo, 8);
    ReadsBack(h.sendTS, 8);
    ReadsBack(h.frameLength, 2);
  }

  lemma HeaderWritesBack(raw: seq<u8>)
    requires |raw| >= FRAME_HEADER_LEN
    ensures HeaderBytes(ParseHeader(raw)) == raw[..24]
  {
    WritesBack(raw[0..2]);
    WritesBack(raw[4..12]);
    WritesBack(raw[12..20]);
    WritesBack(raw[22..24]);
    assert raw[..24] == raw[0..2] + [raw[2], raw[3]] + raw[4..12] + raw[12..20] + [raw[20], raw[21]] + raw[22..24];
  }

  /** A message as it is printed, and as it is found at an offset. */
  datatype Item = Item(typ: u8, length: u8, flags: u16, body: seq<u8>)

  datatype Message = Message(item: Item, offset: nat)

  /** Its declared length is its size. */
  predicate Sized(m: Item) {
    m.length == MSG_HEADER_LEN + |m.body|
  }

  function ItemBytes(m: Item): (bs: seq<u8>)
    ensures |bs| == MSG_HEADER_LEN + |m.body|
  {
    [m.typ, m.length] + Le(m.flags, 2) + m.body
  }

  function Encode(ms: seq<Item>): seq<u8> {
    if ms == [] then [] else ItemBytes(ms[0]) + Encode(ms[1..])
  }

  function ItemAt(raw: seq<u8>, off: nat): Item
    requires off + 1 < |raw|
    requires off + MSG_HEADER_LEN <= off + raw[off + 1] <= |raw|
  {
    Item(raw[off], raw[off + 1], U16Of(raw[off + 2..off + 4]), raw[off + 4..off + raw[off + 1]])
  }

  lemma ItemReadsBack(raw: seq<u8>, off: nat, m: Item, rest: seq<u8>)
    requires off <= |raw| && raw[off..] == ItemBytes(m) + rest && Sized(m)
    ensures off + m.length <= |raw| && raw[off + 1] == m.length && ItemAt(raw, off) == m
    ensures raw[off + m.length..] == rest
  {
    var tail := raw[off..];
    Widths();
    ReadsBack(m.flags, 2);
    assert raw[off] == tail[0] && raw[off + 1] == tail[1];
    assert raw[off + 2..off + 4] == tail[2..4] == Le(m.flags, 2);
    assert raw[off + 4..off + m.length] == tail[4..m.length] == m.body;
    assert raw[off + m.length..] == tail[m.length..] == rest;
  }

  lemma ItemWritesBack(raw: seq<u8>, off: nat)
    requires off + 1 < |raw| && off + MSG_HEADER_LEN <= off + raw[off + 1] <= |raw|
    ensures ItemBytes(ItemAt(raw, off)) == raw[off..off + raw[off + 1]]
  {
    WritesBack(raw[off + 2..off + 4]);
    var end := off + raw[off + 1];
    assert raw[off..end] == [raw[off], raw[off + 1]] + raw[off + 2..off + 4] + raw[off + 4..end];
  }

  // ---- the parser ------------------------------------------------------------

  datatype Rule = FrameLength | Magic | SchemaVersion | SchemaSuperseded | MsgLength | MsgCountRange

  /** `transport` says that the datagram was damaged on the way. */
  datatype Finding = Finding(rule: Rule, offset: nat, transport: bool)

  datatype Walked = Walked(msgs: seq<Message>, off: nat, stop: seq<Finding>)

  datatype Decoded = Decoded(header: Header, msgs: seq<Message>, findings: seq<Finding>)

  predicate ValidDecl(frameLen: int) { FRAME_HEADER_LEN <= frameLen <= MAX_FRAME_LEN }

  function Min(a: nat, b: nat): nat { if a < b then a else b }

  /** Why the walk stops at an offset before the end, if it does. */
  function StopAt(raw: seq<u8>, frameLen: nat, off: nat): seq<Finding>
    requires off < Min(frameLen, |raw|)
  {
    if off + MSG_HEADER_LEN > Min(frameLen, |raw|) then
      [Finding(FrameLength, off, ValidDecl(frameLen) && |raw| < frameLen)]
    else if raw[off + 1] < MSG_HEADER_LEN then [Finding(MsgLength, off, false)]
    else if off + raw[off + 1] > frameLen then [Finding(FrameLength, off, false)]
    else if off + raw[off + 1] > |raw| then [Finding(FrameLength, off, ValidDecl(frameLen))]
    else []
  }

  /** The messages from an offset on, up to the end or to what stops the walk. */
  function Walk(raw: seq<u8>, frameLen: nat, off: nat): Walked
    decreases |raw| - off
  {
    if off >= Min(frameLen, |raw|) then Walked([], off, [])
    else if StopAt(raw, frameLen, off) != [] then Walked([], off, StopAt(raw, frameLen, off))
    else
      var rest := Walk(raw, frameLen, off + raw[off + 1]);
      Walked([Message(ItemAt(raw, off), off)] + rest.msgs, rest.off, rest.stop)
  }

  /** A walk with messages in front of it. */
  function Preceded(ms: seq<Message>, w: Walked): Walked {
    Walked(ms + w.msgs, w.off, w.stop)
  }

  predicate AnyTransport(fs: seq<Finding>) {
    exists i :: 0 <= i < |fs| && fs[i].transport
  }

  function CountFindings(h: Header, w: Walked, short: bool): seq<Finding> {
    If(h.msgCount == 0, Finding(MsgCountRange, 20, false))
    + (if AnyTransport(w.stop) || short then []
       else
         If(h.msgCount != 0 && h.msgCount != |w.msgs|, Finding(MsgCountRange, 20, false))
         + If(ValidDecl(h.frameLength) && w.off != h.frameLength, Finding(FrameLength, w.off, false)))
  }

  function SchemaFindings(magic: u16, ver: u8): seq<Finding> {
    if !SchemaSupported(magic, ver) then [Finding(SchemaVersion, 2, false)]
    else If(ver != CurrentSchema(magic), Finding(SchemaSuperseded, 2, false))
  }

  function LengthFindings(frameLen: u16, received: nat): seq<Finding> {
    if !ValidDecl(frameLen) then [Finding(FrameLength, 22, false)]
    else if frameLen > received then [Finding(FrameLength, 22, true)]
    else If(frameLen < received, Finding(FrameLength, 22, false))
  }

  /** The datagram ended before the length that its header validly declares. */
  predicate Short(h: Header, received: nat) {
    ValidDecl(h.frameLength) && received < h.frameLength
  }

  function Decode(raw: seq<u8>, magic: u16): Decoded {
    if |raw| < FRAME_HEADER_LEN then Decoded(NO_HEADER, [], [Finding(FrameLength, 0, true)])
    else
      var h := ParseHeader(raw);
      if h.magic != magic then Decoded(h, [], [Finding(Magic, 0, false)])
      else
        var w := Walk(raw, h.frameLength, FRAME_HEADER_LEN);
        Decoded(h, w.msgs,
                SchemaFindings(magic, h.schema) + LengthFindings(h.frameLength, |raw|)
                + (w.stop + CountFindings(h, w, Short(h, |raw|))))
  }

  // ---- the parser as it runs ---------------------------------------------------

  /** The length of the message at an offset short of the end, or the finding that
      stops the walk there. */
  method NextLength(raw: seq<u8>, frameLen: u16, off: nat, end: nat) returns (fs: seq<Finding>, mlen: nat)
    requires off < end && end == if frameLen < |raw| then frameLen else |raw|
    ensures fs == [] ==> MSG_HEADER_LEN <= mlen && off + mlen <= end && mlen == raw[off + 1]
    ensures fs == [] ==>
              Walk(raw, frameLen, off)
                == Preceded([Message(ItemAt(raw, off), off)], Walk(raw, frameLen, off + mlen))
    ensures fs != [] ==> Walk(raw, frameLen, off) == Walked([], off, fs)
  {
    var validDecl := frameLen >= FRAME_HEADER_LEN && frameLen <= MAX_FRAME_LEN;
    mlen := 0;
    if off + MSG_HEADER_LEN > end {
      return [Finding(FrameLength, off, validDecl && end < frameLen)], 0;
    }
    mlen := raw[off + 1];
    if mlen < MSG_HEADER_LEN {
      return [Finding(MsgLength, off, false)], mlen;
    }
    if off + mlen > frameLen {
      return [Finding(FrameLength, off, false)], mlen;
    }
    if off + mlen > |raw| {
      return [Finding(FrameLength, off, validDecl)], mlen;
    }
    return [], mlen;
  }

  /** Message after message, up to the end or to what stops the walk. */
  method WalkOn(raw: seq<u8>, frameLen: u16, end: nat) returns (msgs: seq<Message>, off: nat, fs: seq<Finding>)
    requires end == if frameLen < |raw| then frameLen else |raw|
    ensures Walked(msgs, off, fs) == Walk(raw, frameLen, FRAME_HEADER_LEN)
  {
    off := FRAME_HEADER_LEN;
    msgs, fs := [], [];
    ghost var whole := Walk(raw, frameLen, off);
    NothingPrecedes(whole);
    while off < end
      invariant fs == [] && whole == Preceded(msgs, Walk(raw, frameLen, off))
      decreases |raw| - off
    {
      var mlen := 0;
      fs, mlen := NextLength(raw, frameLen, off, end);
      if fs != [] {
        break;
      }
      var m := Message(ItemAt(raw, off), off);
      OneMorePrecedes(msgs, m, Walk(raw, frameLen, off + mlen));
      msgs := msgs + [m];
      off := off + mlen;
    }
    assert Walk(raw, frameLen, off) == Walked([], off, fs);
    NothingFollows(msgs, off, fs);
  }

  lemma NothingPrecedes(w: Walked)
    ensures Preceded([], w) == w
  {
    assert [] + w.msgs == w.msgs;
  }

  lemma OneMorePrecedes(ms: seq<Message>, m: Message, w: Walked)
    ensures Preceded(ms, Preceded([m], w)) == Preceded(ms + [m], w)
  {
    assert ms + ([m] + w.msgs) == (ms + [m]) + w.msgs;
  }

  lemma NothingFollows(ms: seq<Message>, off: nat, fs: seq<Finding>)
    ensures Preceded(ms, Walked([], off, fs)) == Walked(ms, off, fs)
  {
    assert ms + [] == ms;
  }

  method WalkMessages(raw: seq<u8>, h: Header) returns (msgs: seq<Message>, fs: seq<Finding>)
    requires |raw| >= FRAME_HEADER_LEN
    ensures var w := Walk(raw, h.frameLength, FRAME_HEADER_LEN);
            msgs == w.msgs && fs == w.stop + CountFindings(h, w, Short(h, |raw|))
  {
    var frameLen := h.frameLength;
    var validDecl := frameLen >= FRAME_HEADER_LEN && frameLen <= MAX_FRAME_LEN;
    var end := frameLen;
    if end > |raw| {
      end := |raw|;
    }
    var truncated := validDecl && end < frameLen;
    var off, stop;
    msgs, off, stop := WalkOn(raw, frameLen, end);
    var tail := GradeCount(h, Walked(msgs, off, stop), truncated);
    fs := stop + tail;
  }

  /** What the message count and the end of the walk show. */
  method GradeCount(h: Header, w: Walked, truncated: bool) returns (fs: seq<Finding>)
    ensures fs == CountFindings(h, w, truncated)
  {
    var stop := w.stop;
    fs := [];
    if h.msgCount == 0 {
      fs := [Finding(MsgCountRange, 20, false)];
    }
    var damaged := false;
    var i := 0;
    while i < |stop| && !damaged
      invariant i <= |stop|
      invariant damaged ==> AnyTransport(stop)
      invariant !damaged ==> forall k :: 0 <= k < i ==> !stop[k].transport
      decreases |stop| - i, !damaged
    {
      if stop[i].transport { damaged := true; } else { i := i + 1; }
    }
    if !damaged && !truncated {
      if h.msgCount != 0 && h.msgCount != |w.msgs| {
        fs := fs + [Finding(MsgCountRange, 20, false)];
      }
      if ValidDecl(h.frameLength) && w.off != h.frameLength {
        fs := fs + [Finding(FrameLength, w.off, false)];
      }
    }
  }

  method CheckHeader(h: Header, received: nat, magic: u16) returns (fs: seq<Finding>)
    ensures fs == SchemaFindings(magic, h.schema) + LengthFindings(h.frameLength, received)
  {
    fs := [];
    if !SchemaSupported(magic, h.schema) {
      fs := [Finding(SchemaVersion, 2, false)];
    } else if h.schema != CurrentSchema(magic) {
      fs := [Finding(SchemaSuperseded, 2, false)];
    }
    if h.frameLength < FRAME_HEADER_LEN || h.frameLength > MAX_FRAME_LEN {
      fs := fs + [Finding(FrameLength, 22, false)];
    } else if h.frameLength > received {
      fs := fs + [Finding(FrameLength, 22, true)];
    } else if h.frameLength < received {
      fs := fs + [Finding(FrameLength, 22, false)];
    }
  }

  method DecodeDatagram(raw: seq<u8>, magic: u16) returns (h: Header, msgs: seq<Message>, fs: seq<Finding>)
    ensures Decoded(h, msgs, fs) == Decode(raw, magic)
  {
    if |raw| < FRAME_HEADER_LEN {
      return NO_HEADER, [], [Finding(FrameLength, 0, true)];
    }
    h := ParseHeader(raw);
    if h.magic != magic {
      return h, [], [Finding(Magic, 0, false)];
    }
    fs := CheckHeader(h, |raw|, magic);
    var walkFs;
    msgs, walkFs := WalkMessages(raw, h);
    fs := fs + walkFs;
  }

  // ---- the builder -------------------------------------------------------------

  datatype Overrides = Overrides(count: Option<u8>, length: Option<u16>)

  /** A frame under construction: header fields, messages and forged values. */
  datatype Draft = Draft(
    magic: u16, schema: u8, channel: u8, seqNo: u64, sendTS: u64, resetCount: u8, msgs: seq<Item>, forged: Overrides)

  function DraftHeader(d: Draft): Header {
    Header(d.magic, d.schema, d.channel, d.seqNo, d.sendTS,
           if d.forged.count.Some? then d.forged.count.value else |d.msgs| % 0x100,
           d.resetCount,
           if d.forged.length.Some? then d.forged.length.value
           else (FRAME_HEADER_LEN + |Encode(d.msgs)|) % 0x1_0000)
  }

  function Bytes(d: Draft): seq<u8> {
    HeaderBytes(DraftHeader(d)) + Encode(d.msgs)
  }

  /** The payload of one message. */
  class Body {
    var b: seq<u8>

    constructor ()
      ensures b == []
    {
      b := [];
    }

    method Put(v: nat, width: nat)
      modifies this
      ensures b == old(b) + Le(v, width)
    {
      var left, i := v, 0;
      while i < width
        invariant i <= width
        invariant b + Le(left, width - i) == old(b) + Le(v, width)
      {
        assert b + Le(left, width - i) == (b + [left % 256]) + Le(left / 256, width - i - 1);
        b := b + [left % 256];
        left := left / 256;
        i := i + 1;
      }
    }
  }

  class FrameBuilder {
    var draft: Draft

    constructor (magic: u16)
      ensures draft == Draft(magic, CurrentSchema(magic), 0, 0, 0, 0, [], Overrides(None, None))
    {
      draft := Draft(magic, CurrentSchema(magic), 0, 0, 0, 0, [], Overrides(None, None));
    }

    /** Appends a message; `declaredLen` goes into its header as it is. */
    method Msg(typ: u8, declaredLen: u8, flags: u16, body: Body)
      modifies this
      ensures draft == old(draft).(msgs := old(draft.msgs) + [Item(typ, declaredLen, flags, body.b)])
    {
      draft := draft.(msgs := draft.msgs + [Item(typ, declaredLen, flags, body.b)]);
    }

    method MessageBytes() returns (body: seq<u8>)
      ensures body == Encode(draft.msgs)
    {
      body := [];
      var i := 0;
      while i < |draft.msgs|
        invariant i <= |draft.msgs|
        invariant body + Encode(draft.msgs[i..]) == Encode(draft.msgs)
      {
        var m := draft.msgs[i];
        assert draft.msgs[i..][1..] == draft.msgs[i + 1..];
        assert body + Encode(draft.msgs[i..]) == (body + ItemBytes(m)) + Encode(draft.msgs[i + 1..]);
        body := body + ItemBytes(m);
        i := i + 1;
      }
      assert Encode(draft.msgs[|draft.msgs|..]) == [];
    }

    /** Prints the messages behind a header whose count and length come last. */
    method ToBytes() returns (out: seq<u8>)
      ensures out == Bytes(draft)
    {
      var body := MessageBytes();
      var count := |draft.msgs| % 0x100;
      if draft.forged.count.Some? {
        count := draft.forged.count.value;
      }
      var length := (FRAME_HEADER_LEN + |body|) % 0x1_0000;
      if draft.forged.length.Some? {
        length := draft.forged.length.value;
      }
      var h := Header(draft.magic, draft.schema, draft.channel, draft.seqNo, draft.sendTS, count, draft.resetCount,
                      length);
      out := HeaderBytes(h) + body;
    }
  }
}
