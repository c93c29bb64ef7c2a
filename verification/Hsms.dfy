/** HSMS frames and SECS-II messages as bytes on a stream. */
module Hsms {
  import opened Basics
  import Secs
  import SecsProperties

  type u16 = n: int | 0 <= n < 0x1_0000

  /** The 10-byte header shared by frames and messages. */
  datatype Header = Header(device: u16, stream: byte, fn: byte, wBit: bool, sType: byte, system: u32)

  datatype Frame = Frame(header: Header, body: bytes)

  datatype Message = Message(header: Header, item: Option<Secs.Item>)

  /** The longest declared frame length a receiver accepts. */
  const MAX_FRAME := 16 * 1024 * 1024

  function EncodeHeader(h: Header): (bs: bytes)
    ensures |bs| == 10
  {
    BigEndian(2, h.device) + [(if h.wBit then 0x80 else 0) + h.stream % 0x80, h.fn, 0, h.sType]
      + BigEndian(4, h.system)
  }

  function DecodeHeader(bs: bytes): Header
    requires |bs| >= 10
  {
    BigEndianOfFrom(bs[0..2]);
    BigEndianOfFrom(bs[6..10]);
    Secs.Pow256Small();
    Header(FromBigEndian(bs[0..2]), bs[2] % 0x80, bs[3], bs[2] >= 0x80, bs[5], FromBigEndian(bs[6..10]))
  }

  /** `HsmsFrame::encode`; the length field is a 32-bit cast. */
  function EncodeFrame(f: Frame): bytes {
    BigEndian(4, (10 + |f.body|) % 0x1_0000_0000) + EncodeHeader(f.header) + f.body
  }

  datatype FrameError = ShorterThanPrefix | ShorterThanHeader | Truncated

  /** `HsmsFrame::decode`. */
  function DecodeFrame(data: bytes): Result<Frame, FrameError> {
    if |data| < 4 then Err(ShorterThanPrefix) else
    var len := FromBigEndian(data[..4]);
    if len < 10 then Err(ShorterThanHeader)
    else if |data| < 4 + len then Err(Truncated)
    else Ok(Frame(DecodeHeader(data[4..14]), data[14..4 + len]))
  }

  /** What one `recv` makes of everything the peer will ever send: a frame and the bytes it took,
      the end of the stream in mid-frame or before one, or an unreasonable length. */
  datatype Received = Got(frame: Frame, used: nat) | Disconnected | BadLength

  function Receive(s: bytes): (r: Received)
    ensures r.Got? ==> 14 <= r.used <= |s|
  {
    if |s| < 4 then Disconnected else
    var len := FromBigEndian(s[..4]);
    if !(10 <= len <= MAX_FRAME) then BadLength
    else if |s| < 4 + len then Disconnected
    else Got(Frame(DecodeHeader(s[4..14]), s[14..4 + len]), 4 + len)
  }

  /** The frames successive `recv` calls return, up to the first that fails. */
  function ReceiveAll(s: bytes): seq<Frame>
    decreases |s|
  {
    match Receive(s)
    case Got(f, used) => [f] + ReceiveAll(s[used..])
    case _ => []
  }

  // ----- messages -----

  /** `send_message`: the frame that carries a message. */
  function ToFrame(m: Message): Frame {
    Frame(m.header, if m.item.Some? then Secs.Encode(m.item.value) else [])
  }

  /** `SecsMessage::from_parts`: an empty body is no item; bytes after the item are ignored. */
  function FromParts(h: Header, body: bytes): Option<Message> {
    if body == [] then Some(Message(h, None)) else
    match Secs.Decode(body)
    case None => None
    case Some(read) => Some(Message(h, Some(read.value)))
  }

  // ----- properties -----

  /** A header survives the wire if and only if its stream fits in seven bits. */
  lemma HeaderRoundTripsExactlyWhenStreamFits(h: Header, rest: bytes)
    ensures DecodeHeader(EncodeHeader(h) + rest) == h <==> h.stream < 0x80
  {
    var bs := EncodeHeader(h) + rest;
    assert bs[0..2] == BigEndian(2, h.device);
    assert bs[6..10] == BigEndian(4, h.system);
    Secs.Pow256Small();
    FromOfBigEndian(2, h.device);
    FromOfBigEndian(4, h.system);
  }

  /** What a peer may send and have received: the stream fits and the frame is not too long. */
  predicate Carriable(f: Frame) {
    f.header.stream < 0x80 && 10 + |f.body| <= MAX_FRAME
  }

  /** The first frame of a stream is read back exactly, whatever follows it. */
  lemma ReceiveOfFrame(f: Frame, rest: bytes)
    requires Carriable(f)
    ensures Receive(EncodeFrame(f) + rest) == Got(f, |EncodeFrame(f)|)
  {
    var s, len := EncodeFrame(f) + rest, 10 + |f.body|;
    assert s[..4] == BigEndian(4, len);
    Secs.Pow256Small();
    FromOfBigEndian(4, len);
    assert s[4..14] == EncodeHeader(f.header) + [];
    HeaderRoundTripsExactlyWhenStreamFits(f.header, []);
    assert s[14..4 + len] == f.body;
  }

  lemma DecodeOfFrame(f: Frame)
    requires Carriable(f)
    ensures DecodeFrame(EncodeFrame(f)) == Ok(f)
  {
    ReceiveOfFrame(f, []);
    assert EncodeFrame(f) + [] == EncodeFrame(f);
  }

  function EncodeFrames(fs: seq<Frame>): bytes {
    if fs == [] then [] else EncodeFrame(fs[0]) + EncodeFrames(fs[1..])
  }

  /** How many of the frames arrive whole when the stream is cut after `cut` bytes. */
  function WholeFrames(fs: seq<Frame>, cut: nat): (n: nat)
    ensures n <= |fs|
  {
    if fs == [] || cut < |EncodeFrame(fs[0])| then 0
    else 1 + WholeFrames(fs[1..], cut - |EncodeFrame(fs[0])|)
  }

  /** A strict prefix of one frame is never mistaken for a frame. */
  lemma PartialFrame(f: Frame, cut: nat)
    requires Carriable(f) && cut < |EncodeFrame(f)|
    ensures Receive(EncodeFrame(f)[..cut]) == Disconnected
  {
    if cut >= 4 {
      assert EncodeFrame(f)[..cut][..4] == BigEndian(4, 10 + |f.body|);
      Secs.Pow256Small();
      FromOfBigEndian(4, 10 + |f.body|);
    }
  }

  /** However a connection dies, the receiver has read exactly the frames that arrived whole. */
  lemma {:induction false} CutStream(fs: seq<Frame>, cut: nat)
    requires forall j :: 0 <= j < |fs| ==> Carriable(fs[j])
    requires cut <= |EncodeFrames(fs)|
    ensures ReceiveAll(EncodeFrames(fs)[..cut]) == fs[..WholeFrames(fs, cut)]
  {
    hide EncodeFrame, Receive, Carriable;
    if fs != [] {
      var e, tail := EncodeFrame(fs[0]), EncodeFrames(fs[1..]);
      if cut < |e| {
        PartialFrame(fs[0], cut);
        assert EncodeFrames(fs)[..cut] == e[..cut];
      } else {
        var rest := tail[..cut - |e|];
        assert EncodeFrames(fs)[..cut] == e + rest;
        ReceiveOfFrame(fs[0], rest);
        assert (e + rest)[|e|..] == rest;
        CutStream(fs[1..], cut - |e|);
        assert fs[..WholeFrames(fs, cut)] == [fs[0]] + fs[1..][..WholeFrames(fs[1..], cut - |e|)];
      }
    }
  }

  lemma {:induction false} AllFramesWhole(fs: seq<Frame>)
    ensures WholeFrames(fs, |EncodeFrames(fs)|) == |fs|
  {
    if fs != [] {
      AllFramesWhole(fs[1..]);
    }
  }

  /** Any sequence of carriable frames is read back as exactly those frames, in order. */
  lemma StreamRoundTrip(fs: seq<Frame>)
    requires forall j :: 0 <= j < |fs| ==> Carriable(fs[j])
    ensures ReceiveAll(EncodeFrames(fs)) == fs
  {
    CutStream(fs, |EncodeFrames(fs)|);
    AllFramesWhole(fs);
    assert EncodeFrames(fs)[..|EncodeFrames(fs)|] == EncodeFrames(fs);
    assert fs[..|fs|] == fs;
  }

  /** A message in range: the frame is carriable and the item, if any, is one the codec keeps. */
  predicate Deliverable(m: Message) {
    Carriable(ToFrame(m)) && (m.item.Some? ==> Secs.Typed(m.item.value) && Secs.Sized(m.item.value))
  }

  function FramesOf(ms: seq<Message>): seq<Frame> {
    if ms == [] then [] else [ToFrame(ms[0])] + FramesOf(ms[1..])
  }

  function MessagesOf(fs: seq<Frame>): seq<Option<Message>> {
    if fs == [] then [] else [FromParts(fs[0].header, fs[0].body)] + MessagesOf(fs[1..])
  }

  function Delivered(ms: seq<Message>): seq<Option<Message>> {
    if ms == [] then [] else [Some(ms[0])] + Delivered(ms[1..])
  }

  lemma MessageRoundTrip(m: Message)
    requires m.item.Some? ==> Secs.Typed(m.item.value) && Secs.Sized(m.item.value)
    ensures FromParts(m.header, ToFrame(m).body) == Some(m)
  {
    if m.item.Some? {
      SecsProperties.RoundTrip(m.item.value, []);
      assert Secs.Encode(m.item.value) + [] == Secs.Encode(m.item.value);
    }
  }

  lemma {:induction false} FramesCarryMessages(ms: seq<Message>)
    requires forall j :: 0 <= j < |ms| ==> Deliverable(ms[j])
    ensures |FramesOf(ms)| == |ms| && forall j :: 0 <= j < |ms| ==> Carriable(FramesOf(ms)[j])
    ensures MessagesOf(FramesOf(ms)) == Delivered(ms)
  {
    if ms != [] {
      MessageRoundTrip(ms[0]);
      FramesCarryMessages(ms[1..]);
      assert FramesOf(ms)[1..] == FramesOf(ms[1..]);
    }
  }

  /** Codec, framing and stream together carry every in-range message, with or without a body. */
  lemma MessageStreamRoundTrip(ms: seq<Message>)
    requires forall j :: 0 <= j < |ms| ==> Deliverable(ms[j])
    ensures MessagesOf(ReceiveAll(EncodeFrames(FramesOf(ms)))) == Delivered(ms)
  {
    FramesCarryMessages(ms);
    StreamRoundTrip(FramesOf(ms));
  }

  // ----- what stands where on the wire -----

  /** Four bytes of length, then the ten of the header, then the body; every number high byte first. */
  lemma FrameLayout(f: Frame, i: nat)
    requires i < 4
    ensures var e, h := EncodeFrame(f), f.header;
            && |e| == 14 + |f.body| && e[14..] == f.body
            && e[i] == (10 + |f.body|) % 0x1_0000_0000 / Pow256(3 - i) % 256
            && e[4] == h.device / 256 && e[5] == h.device % 256
            && e[6] == (if h.wBit then 0x80 else 0) + h.stream % 0x80 && e[7] == h.fn && e[8] == 0 && e[9] == h.sType
            && e[10 + i] == h.system / Pow256(3 - i) % 256
  {
    BigEndianAt(4, (10 + |f.body|) % 0x1_0000_0000, i);
    BigEndianAt(4, f.header.system, i);
    TwoBytes(f.header.device);
    hide BigEndian, Pow256;
  }

  /** A header read from ten bytes: the stream without the bit that asks for a reply, and two numbers. */
  lemma HeaderRead(bs: bytes)
    requires |bs| >= 10
    ensures DecodeHeader(bs) == Header(bs[0] as int * 256 + bs[1], bs[2] % 0x80, bs[3], bs[2] >= 0x80, bs[5],
                                       ((bs[6] as int * 256 + bs[7]) * 256 + bs[8]) * 256 + bs[9])
  {
    assert bs[0..2] == [bs[0], bs[1]] && bs[6..10] == [bs[6], bs[7], bs[8], bs[9]];
    FromTwo(bs[0], bs[1]);
    FromFour(bs[6], bs[7], bs[8], bs[9]);
  }

  lemma FromTwo(a: byte, b: byte)
    ensures FromBigEndian([a, b]) == a as int * 256 + b
  {
    assert [a, b][..1] == [a] && [a][..0] == [];
    assert FromBigEndian([a]) == a;
  }

  lemma FromFour(a: byte, b: byte, c: byte, d: byte)
    ensures FromBigEndian([a, b, c, d]) == ((a as int * 256 + b) * 256 + c) * 256 + d
  {
    FromTwo(a, b);
    assert [a, b, c, d][..3] == [a, b, c] && [a, b, c][..2] == [a, b];
    assert FromBigEndian([a, b, c]) == FromBigEndian([a, b]) * 256 + c;
  }
}
