/** The host client: requests that wait for their reply while everything else is queued. */
module Host {
  import opened Basics
  import opened Secs
  import opened Hsms
  import opened HsmsChannel

  /** Is `m` what a request with these system bytes and function waits for? The function is one byte. */
  predicate Answers(m: Message, system: u32, fn: byte) {
    m.header.system == system && m.header.fn as int == (fn + 1) % 256
  }

  datatype HostError = ChannelFailed | BadItem

  /** What a request makes of the bytes that follow: its result, the messages it puts in the inbox on
      the way, and the bytes it leaves. */
  datatype Awaited = Awaited(result: Result<Message, HostError>, queued: seq<Message>, rest: bytes)

  function Await(s: bytes, system: u32, fn: byte): Awaited
    decreases |s|
  {
    match Receive(s)
    case Got(f, used) =>
      if f.header.sType != 0 then Await(s[used..], system, fn) else
      (match FromParts(f.header, f.body)
       case None => Awaited(Err(BadItem), [], s[used..])
       case Some(m) =>
         if Answers(m, system, fn) then Awaited(Ok(m), [], s[used..]) else
         var later := Await(s[used..], system, fn);
         later.(queued := [m] + later.queued))
    case _ => Awaited(Err(ChannelFailed), [], s)
  }

  /** The next event a host takes off the wire when its inbox is empty: the first S6F11 or S5F1; other
      messages are dropped. */
  function NextOnWire(s: bytes): Awaited
    decreases |s|
  {
    match Receive(s)
    case Got(f, used) =>
      if f.header.sType != 0 then NextOnWire(s[used..]) else
      (match FromParts(f.header, f.body)
       case None => Awaited(Err(BadItem), [], s[used..])
       case Some(m) => if Acknowledged(m).Some? then Awaited(Ok(m), [], s[used..]) else NextOnWire(s[used..]))
    case _ => Awaited(Err(ChannelFailed), [], s)
  }

  /** Stream and function of the acknowledgement an event gets. */
  function Acknowledged(m: Message): Option<(byte, byte)> {
    if m.header.stream == 6 && m.header.fn == 11 then Some((6, 12))
    else if m.header.stream == 5 && m.header.fn == 1 then Some((5, 2))
    else None
  }

  // ----- the numbers of requests -----

  /** The system bytes of the request after one numbered `last`. */
  function After(last: u32): u32 {
    (last + 1) % 0x1_0000_0000
  }

  /** The system bytes of the `n`th message that took a new number. */
  function Number(n: nat): u32 {
    (100 + n) % 0x1_0000_0000
  }

  /** After `n` numbers the last is `last`, and every frame sent with an odd function has one of them; all
      else is an acknowledgement or another message with an even function. */
  ghost predicate Counted(sent: seq<Frame>, last: u32, n: nat) {
    && last == Number(n)
    && forall i :: 0 <= i < |sent| && sent[i].header.fn % 2 == 1 ==>
         exists j: nat :: 1 <= j <= n && sent[i].header.system == Number(j)
  }

  lemma CountedGrows(sent: seq<Frame>, last: u32, n: nat, f: Frame)
    requires Counted(sent, last, n) && f.header.system == After(last)
    ensures After(last) == Number(n + 1) && Counted(sent + [f], After(last), n + 1)
  {
    assert After(last) == Number(n + 1);
    hide After, Number;
    forall i | 0 <= i < |sent + [f]| && (sent + [f])[i].header.fn % 2 == 1
      ensures exists j: nat :: 1 <= j <= n + 1 && (sent + [f])[i].header.system == Number(j) {
      if i < |sent| {
        var j: nat :| 1 <= j <= n && sent[i].header.system == Number(j);
      } else {
        assert (sent + [f])[i].header.system == Number(n + 1);
      }
    }
  }

  lemma CountedKeeps(sent: seq<Frame>, last: u32, n: nat, f: Frame)
    requires Counted(sent, last, n) && f.header.fn % 2 == 0
    ensures Counted(sent + [f], last, n)
  {
    hide Number;
    assert forall i :: 0 <= i < |sent| ==> (sent + [f])[i] == sent[i];
  }

  /** Two numbers less than a round of the counter apart differ; a round apart they are the same. */
  lemma NumbersCongruent(i: nat, n: nat)
    requires i < n && n - i <= 0x1_0000_0000
    ensures Number(i) == Number(n) <==> n - i == 0x1_0000_0000
  {
  }

  class HostClient {
    const channel: Channel
    const device: u16
    var nextSystem: u32
    var inbox: seq<Message>
    var sent: seq<Frame>
    /** How many numbers the client has given out. */
    ghost var numbered: nat

    ghost predicate Valid()
      reads this, channel.stream
    {
      channel.stream.Valid() && Counted(sent, nextSystem, numbered)
    }

    constructor (channel: Channel, device: u16)
      requires channel.stream.Valid()
      ensures this.channel == channel && this.device == device && Valid()
      ensures nextSystem == 100 && inbox == [] && sent == [] && numbered == 0
    {
      this.channel := channel;
      this.device := device;
      nextSystem, inbox, sent, numbered := 100, [], [], 0;
    }

    function Outgoing(stream: byte, fn: byte, wBit: bool, system: u32, item: Option<Item>): Frame {
      ToFrame(Message(Header(device, stream, fn, wBit, 0, system), item))
    }

    /** `send`: a new number, and no reply awaited. */
    method Send(m: Message)
      requires Valid()
      modifies this
      ensures Valid() && nextSystem == After(old(nextSystem)) && numbered == old(numbered) + 1 && inbox == old(inbox)
      ensures sent == old(sent) + [Outgoing(m.header.stream, m.header.fn, false, nextSystem, m.item)]
    {
      var frame := Outgoing(m.header.stream, m.header.fn, false, After(nextSystem), m.item);
      CountedGrows(sent, nextSystem, numbered, frame);
      nextSystem, numbered := After(nextSystem), numbered + 1;
      sent := sent + [frame];
    }

    /** `request`. */
    method Request(stream: byte, fn: byte, item: Option<Item>) returns (r: Result<Message, HostError>)
      requires Valid()
      modifies this, channel.stream
      ensures Valid() && nextSystem == After(old(nextSystem)) && numbered == old(numbered) + 1
      ensures sent == old(sent) + [Outgoing(stream, fn, true, nextSystem, item)]
      ensures var a := Await(old(channel.stream.Rest()), nextSystem, fn);
              r == a.result && inbox == old(inbox) + a.queued && (r.Ok? ==> channel.stream.Rest() == a.rest)
    {
      CountedGrows(sent, nextSystem, numbered, Outgoing(stream, fn, true, After(nextSystem), item));
      nextSystem, numbered := After(nextSystem), numbered + 1;
      sent := sent + [Outgoing(stream, fn, true, nextSystem, item)];
      ghost var bytes0, inbox0 := channel.stream.Rest(), inbox;
      ghost var queued: seq<Message> := [];
      while true
        invariant Valid() && nextSystem == After(old(nextSystem)) && numbered == old(numbered) + 1
        invariant sent == old(sent) + [Outgoing(stream, fn, true, nextSystem, item)]
        invariant inbox == inbox0 + queued
        invariant var a, b := Await(bytes0, nextSystem, fn), Await(channel.stream.Rest(), nextSystem, fn);
                  a == b.(queued := queued + b.queued)
        decreases |channel.stream.Rest()|
      {
        ghost var s := channel.stream.Rest();
        var received := channel.Recv();
        if received.Err? {
          assert queued + [] == queued;
          return Err(ChannelFailed);
        }
        var frame := received.value;
        if frame.header.sType == 0 {
          var parsed := FromParts(frame.header, frame.body);
          if parsed.None? {
            assert queued + [] == queued;
            return Err(BadItem);
          }
          if Answers(parsed.value, nextSystem, fn) {
            assert queued + [] == queued;
            return Ok(parsed.value);
          }
          inbox := inbox + [parsed.value];
          ghost var later := Await(channel.stream.Rest(), nextSystem, fn).queued;
          assert queued + ([parsed.value] + later) == (queued + [parsed.value]) + later;
          queued := queued + [parsed.value];
        }
      }
    }

    /** The frame that acknowledges an event, with the event's own system bytes. */
    function Acknowledgement(m: Message): Frame
      requires Acknowledged(m).Some?
    {
      var (stream, fn) := Acknowledged(m).value;
      Outgoing(stream, fn, false, m.header.system, Some(B([0])))
    }

    method Acknowledge(m: Message) returns (acknowledged: bool)
      requires Valid()
      modifies this
      ensures Valid() && nextSystem == old(nextSystem) && numbered == old(numbered) && inbox == old(inbox)
      ensures acknowledged == Acknowledged(m).Some?
      ensures sent == if acknowledged then old(sent) + [Acknowledgement(m)] else old(sent)
    {
      acknowledged := Acknowledged(m).Some?;
      if acknowledged {
        CountedKeeps(sent, nextSystem, numbered, Acknowledgement(m));
        hide Counted;
        sent := sent + [Acknowledgement(m)];
      }
    }

    /** `next_event`: the inbox in order, then the wire; what comes off the wire is acknowledged with its
        own system bytes. */
    method NextEvent() returns (r: Result<Message, HostError>)
      requires Valid()
      modifies this, channel.stream
      ensures Valid() && nextSystem == old(nextSystem) && numbered == old(numbered)
      ensures old(inbox) != [] ==>
                r == Ok(old(inbox)[0]) && inbox == old(inbox)[1..] && sent == old(sent)
                && channel.stream.Rest() == old(channel.stream.Rest())
      ensures old(inbox) == [] ==>
                var a := NextOnWire(old(channel.stream.Rest()));
                && r == a.result && inbox == []
                && (r.Err? ==> sent == old(sent))
                && (r.Ok? ==> channel.stream.Rest() == a.rest && Acknowledged(r.value).Some?
                              && sent == old(sent) + [Acknowledgement(r.value)])
    {
      if inbox != [] {
        r := Ok(inbox[0]);
        inbox := inbox[1..];
        return;
      }
      hide Counted, FromParts, Receive, Acknowledged, ToFrame;
      ghost var bytes0 := channel.stream.Rest();
      while true
        invariant Valid() && nextSystem == old(nextSystem) && numbered == old(numbered) && inbox == [] && sent == old(sent)
        invariant NextOnWire(bytes0) == NextOnWire(channel.stream.Rest())
        decreases |channel.stream.Rest()|
      {
        var received := channel.Recv();
        if received.Err? {
          return Err(ChannelFailed);
        }
        var frame := received.value;
        if frame.header.sType == 0 {
          var parsed := FromParts(frame.header, frame.body);
          if parsed.None? {
            return Err(BadItem);
          }
          var acknowledged := Acknowledge(parsed.value);
          if acknowledged {
            return Ok(parsed.value);
          }
        }
      }
    }
  }

  // ----- what a request finds in a stream of messages -----

  /** Data messages that arrive as they were sent. */
  predicate Arriving(ms: seq<Message>) {
    forall i :: 0 <= i < |ms| ==> Deliverable(ms[i]) && ms[i].header.sType == 0
  }

  /** The bytes of messages sent one after another. */
  function Wire(ms: seq<Message>): bytes {
    EncodeFrames(FramesOf(ms))
  }

  lemma AwaitStep(m: Message, rest: bytes, system: u32, fn: byte)
    requires Deliverable(m) && m.header.sType == 0
    ensures Await(EncodeFrame(ToFrame(m)) + rest, system, fn) ==
              if Answers(m, system, fn) then Awaited(Ok(m), [], rest)
              else var later := Await(rest, system, fn); later.(queued := [m] + later.queued)
  {
    var s := EncodeFrame(ToFrame(m)) + rest;
    ReceiveOfFrame(ToFrame(m), rest);
    MessageRoundTrip(m);
    assert s[|EncodeFrame(ToFrame(m))|..] == rest;
    hide EncodeFrame, Receive, FromParts, Deliverable;
  }

  /** A request returns the first message that answers it; every message before that one goes to the
      inbox once and in order, and every byte after it stays on the wire. */
  lemma {:induction false} RequestFindsReply(before: seq<Message>, reply: Message, rest: bytes, system: u32, fn: byte)
    requires Arriving(before) && Arriving([reply]) && Answers(reply, system, fn)
    requires forall i :: 0 <= i < |before| ==> !Answers(before[i], system, fn)
    ensures Await(Wire(before) + (EncodeFrame(ToFrame(reply)) + rest), system, fn) == Awaited(Ok(reply), before, rest)
    decreases before
  {
    hide EncodeFrame, ToFrame, Receive, FromParts, Deliverable, Answers, Await;
    var after := EncodeFrame(ToFrame(reply)) + rest;
    if before == [] {
      assert Deliverable([reply][0]);
      AwaitStep(reply, rest, system, fn);
      assert Wire(before) + after == after;
    } else {
      var m, tail := before[0], before[1..];
      RequestFindsReply(tail, reply, rest, system, fn);
      AwaitStep(m, Wire(tail) + after, system, fn);
      assert FramesOf(before) == [ToFrame(m)] + FramesOf(tail);
      assert FramesOf(before)[1..] == FramesOf(tail);
      assert Wire(before) + after == EncodeFrame(ToFrame(m)) + (Wire(tail) + after);
      assert before == [m] + tail;
    }
  }

  /** An event report (function 11) or alarm (function 1) with the request's system bytes is taken for its
      reply exactly when the request's function is 10 or 0, which no primary message the equipment answers has. */
  lemma EventTakenForReplyExactly(m: Message, system: u32, fn: byte)
    requires m.header.system == system
    ensures m.header.fn == 11 ==> (Answers(m, system, fn) <==> fn == 10)
    ensures m.header.fn == 1 ==> (Answers(m, system, fn) <==> fn == 0)
  {
  }
}
