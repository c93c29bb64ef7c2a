/** The receiving half of a connection: bytes arrive in pieces of any size. */
module HsmsChannel {
  import opened Basics
  import opened Hsms

  /** One return of the operating system's read: some bytes, or an interruption to retry. */
  datatype Delivery = Data(data: bytes) | Interrupted

  ghost function Content(ds: seq<Delivery>): bytes {
    if ds == [] then []
    else if ds[0].Interrupted? then Content(ds[1..])
    else ds[0].data + Content(ds[1..])
  }

  /** A byte stream that will deliver `pending` and then end. */
  class ByteStream {
    var pending: seq<Delivery>

    ghost predicate Valid()
      reads this
    {
      forall j :: 0 <= j < |pending| && pending[j].Data? ==> pending[j].data != []
    }

    ghost function Rest(): bytes
      reads this
    {
      Content(pending)
    }

    constructor (pending: seq<Delivery>)
      requires forall j :: 0 <= j < |pending| && pending[j].Data? ==> pending[j].data != []
      ensures Valid() && Rest() == Content(pending)
    {
      this.pending := pending;
    }

    /** At most `max` bytes of the next piece; no bytes at all only at the end of the stream. */
    method Read(max: nat) returns (d: Delivery)
      requires Valid() && max > 0
      modifies this
      ensures Valid()
      ensures d.Interrupted? ==> Rest() == old(Rest()) && |pending| < |old(pending)|
      ensures d.Data? ==> |d.data| <= max && old(Rest()) == d.data + Rest()
      ensures d.Data? && d.data == [] ==> old(Rest()) == []
    {
      if pending == [] {
        return Data([]);
      }
      d := pending[0];
      if d.Data? && |d.data| > max {
        pending := [Data(d.data[max..])] + pending[1..];
        assert d.data == d.data[..max] + d.data[max..];
        d := Data(d.data[..max]);
      } else {
        pending := pending[1..];
      }
    }
  }

  /** `read_exact`: fills the buffer with the next bytes, or reports the end of the stream. */
  method ReadExact(stream: ByteStream, buf: array<byte>) returns (ok: bool)
    requires stream.Valid()
    modifies stream, buf
    ensures stream.Valid()
    ensures ok == (buf.Length <= |old(stream.Rest())|)
    ensures ok ==> buf[..] == old(stream.Rest())[..buf.Length] && stream.Rest() == old(stream.Rest())[buf.Length..]
  {
    ghost var rest := stream.Rest();
    var filled := 0;
    while filled < buf.Length
      invariant stream.Valid()
      invariant 0 <= filled <= buf.Length
      invariant rest == buf[..filled] + stream.Rest()
      decreases buf.Length - filled, |stream.pending|
    {
      ghost var done := buf[..filled];
      var d := stream.Read(buf.Length - filled);
      if d.Data? {
        var n := |d.data|;
        if n == 0 {
          return false;
        }
        forall k | 0 <= k < n {
          buf[filled + k] := d.data[k];
        }
        assert buf[..filled + n] == done + d.data;
        filled := filled + n;
      }
    }
    ok := true;
  }

  /** The connection as the receiver holds it. */
  class Channel {
    const stream: ByteStream

    constructor (stream: ByteStream)
      ensures this.stream == stream
    {
      this.stream := stream;
    }

    /** `recv`: depends only on the bytes, never on how they were cut into pieces. */
    method Recv() returns (r: Result<Frame, Received>)
      requires stream.Valid()
      modifies stream
      ensures stream.Valid()
      ensures match Receive(old(stream.Rest()))
              case Got(f, used) => r == Ok(f) && stream.Rest() == old(stream.Rest())[used..]
              case failure => r == Err(failure)
    {
      ghost var rest := stream.Rest();
      var lenBuf := new byte[4];
      var ok := ReadExact(stream, lenBuf);
      if !ok {
        return Err(Disconnected);
      }
      var len := FromBigEndian(lenBuf[..]);
      if !(10 <= len <= MAX_FRAME) {
        return Err(BadLength);
      }
      var body := new byte[len];
      ok := ReadExact(stream, body);
      if !ok {
        return Err(Disconnected);
      }
      var full := lenBuf[..] + body[..];
      assert full == rest[..4 + len];
      assert full[..4] == rest[..4] && full[4..14] == rest[4..14] && full[14..4 + len] == rest[14..4 + len];
      var frame := DecodeFrame(full);
      r := Ok(frame.value);
    }
  }
}
