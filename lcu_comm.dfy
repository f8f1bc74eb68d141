/**
 * The WCS command channel of `lcu_comm.c`: a TCP connection carrying
 * frames made of a 4-byte big-endian payload length followed by that many
 * JSON bytes.
 *
 * The connected socket is replaced by `incoming`, the segments successive
 * `recv` calls will see. A `recv` asking for `want` bytes takes at most
 * `want` bytes from the front of the first segment. An empty segment, or
 * the end of `incoming`, is the peer closing the connection (or a socket
 * error): `recv` then returns 0 and keeps returning it.
 */
module LcuComm {
  import opened Bytes

  // ---------------------------------------------------------------------
  // The byte stream

  /** The bytes the peer delivers before the connection ends. */
  function Available(incoming: seq<seq<Byte>>): seq<Byte> {
    if incoming == [] || incoming[0] == [] then []
    else incoming[0] + Available(incoming[1..])
  }

  /** `incoming` after a `recv` that took `k` bytes of the first segment. */
  function AfterRecv(incoming: seq<seq<Byte>>, k: nat): seq<seq<Byte>>
    requires incoming != [] && k <= |incoming[0]|
  {
    if k == |incoming[0]| then incoming[1..] else [incoming[0][k..]] + incoming[1..]
  }

  /** Taking bytes from the first segment takes them from the front of the stream. */
  lemma AvailableAfterRecv(incoming: seq<seq<Byte>>, k: nat)
    requires incoming != [] && 0 < k <= |incoming[0]|
    ensures Available(AfterRecv(incoming, k)) == Available(incoming)[k..]
  {
    var s := incoming[0];
    if k < |s| {
      var next := [s[k..]] + incoming[1..];
      assert next[0] == s[k..] && next[1..] == incoming[1..];
    }
  }

  // ---------------------------------------------------------------------
  // Frames

  /** The length prefix, decoded big-endian as at `lcu_comm.c` lines 126-130. */
  function Be32(b: seq<Byte>): (n: nat)
    requires |b| == 4
    ensures n < 0x1_0000_0000
  {
    ((b[0] as int * 0x100 + b[1] as int) * 0x100 + b[2] as int) * 0x100 + b[3] as int
  }

  /** The 4-byte big-endian encoding of a length, as the WCS client sends it: the number shifted right by 24, 16, 8 and 0 bits. */
  function Be32Bytes(n: nat): (b: seq<Byte>)
    requires n < 0x1_0000_0000
    ensures |b| == 4
  {
    var n1 := n / 0x100;
    var n2 := n1 / 0x100;
    [U8(n2 / 0x100), U8(n2), U8(n1), U8(n)]
  }

  /** Peeling one byte off the low end of a number and putting it back. */
  lemma ByteStep(n: nat)
    ensures n == (n / 0x100) * 0x100 + U8(n) as int
  {
    U8Value(n);
  }

  /** Decoding an encoded length gives the length back. */
  lemma Be32RoundTrip(n: nat)
    requires n < 0x1_0000_0000
    ensures Be32(Be32Bytes(n)) == n
  {
    var b := Be32Bytes(n);
    var n1 := n / 0x100;
    var n2 := n1 / 0x100;
    var n3 := n2 / 0x100;
    ByteStep(n);
    ByteStep(n1);
    ByteStep(n2);
    U8Value(n3);
    assert n3 < 0x100;
    assert b[0] as int == n3 && b[1] == U8(n2) && b[2] == U8(n1) && b[3] == U8(n);
    assert n3 * 0x100 + b[1] as int == n2;
    assert n2 * 0x100 + b[2] as int == n1;
  }

  /** A command frame as the WCS client builds it. */
  function Frame(payload: seq<Byte>): seq<Byte>
    requires |payload| < 0x1_0000_0000
  {
    Be32Bytes(|payload|) + payload
  }

  /** What one `LCU_Recv_Command` does with the bytes available. */
  datatype Outcome =
    | ShortHeader                          // fewer than 4 bytes before the peer closed
    | BadLength(len: nat)                  // a length of 0 or at least `max_len`
    | ShortPayload(len: nat)               // fewer than `len` payload bytes before the peer closed
    | Accepted(payload: seq<Byte>)         // a complete frame

  /**
   * The outcome of reading one frame from the stream `s` into a buffer of
   * `maxLen` bytes, and how many bytes of `s` it consumes.
   */
  function ReadFrame(s: seq<Byte>, maxLen: nat): (o: Outcome)
    ensures o.Accepted? ==> 0 < |o.payload| < maxLen && 4 + |o.payload| <= |s|
  {
    if |s| < 4 then ShortHeader
    else
      var len := Be32(s[..4]);
      if len == 0 || len >= maxLen then BadLength(len)
      else if |s| < 4 + len then ShortPayload(len)
      else Accepted(s[4..4 + len])
  }

  /** A frame built as the client builds it is accepted, with the bytes behind it left in the stream. */
  lemma FrameAccepted(payload: seq<Byte>, rest: seq<Byte>, maxLen: nat)
    requires 0 < |payload| < maxLen && |payload| < 0x1_0000_0000
    ensures ReadFrame(Frame(payload) + rest, maxLen) == Accepted(payload)
  {
    var s := Frame(payload) + rest;
    assert s[..4] == Be32Bytes(|payload|);
    Be32RoundTrip(|payload|);
    assert s[4..4 + |payload|] == payload;
  }

  /** A length prefix of 0 or of `maxLen` or more is refused whatever follows it. */
  lemma BadLengthRefused(header: seq<Byte>, rest: seq<Byte>, maxLen: nat)
    requires |header| == 4 && (Be32(header) == 0 || Be32(header) >= maxLen)
    ensures ReadFrame(header + rest, maxLen) == BadLength(Be32(header))
  {
    assert (header + rest)[..4] == header;
  }

  // ---------------------------------------------------------------------
  // The channel

  class CommandChannel {
    /** `client_sock` is a valid socket. */
    var clientOpen: bool
    /** What the coming `recv` calls on `client_sock` see. */
    var incoming: seq<seq<Byte>>

    /** The state `LCU_Comm_Init` leaves after `accept`. */
    constructor (segments: seq<seq<Byte>>)
      ensures clientOpen && incoming == segments
    {
      clientOpen := true;
      incoming := segments;
    }

    /** The bytes the coming `recv` calls can still deliver: none once the client socket is closed. */
    function Readable(): seq<Byte>
      reads this
    {
      if clientOpen then Available(incoming) else []
    }

    /** `close_client_socket`: closing an open client socket invalidates it; a closed one stays closed. */
    method CloseClient()
      modifies this`clientOpen
      ensures !clientOpen && Readable() == []
    {
      if clientOpen {
        clientOpen := false;
      }
    }

    /**
     * `recv(client_sock, buf + off, want, 0)`: a positive count of bytes
     * taken from the front of the stream and stored at `off`, or a result
     * of at most 0 once nothing can be delivered (-1 on a closed socket).
     */
    method Recv(buf: array<Byte>, off: nat, want: nat) returns (r: int)
      requires 0 < want && off + want <= buf.Length
      modifies this`incoming, buf
      ensures var s := old(Readable());
              if s == [] then
                r <= 0 && (clientOpen ==> r == 0) && (!clientOpen ==> r == -1)
                && incoming == old(incoming) && buf[..] == old(buf[..])
              else
                0 < r <= want && r <= |s|
                && buf[..off] == old(buf[..off]) && buf[off..off + r] == s[..r]
                && buf[off + r..] == old(buf[off + r..])
                && Readable() == s[r..]
    {
      if !clientOpen || incoming == [] || incoming[0] == [] {
        r := if clientOpen then 0 else -1;
        return;
      }
      var seg := incoming[0];
      var k := if want < |seg| then want else |seg|;
      forall i | 0 <= i < k {
        buf[off + i] := seg[i];
      }
      AvailableAfterRecv(incoming, k);
      assert seg[..k] == Available(incoming)[..k];
      incoming := AfterRecv(incoming, k);
      r := k;
    }

    /**
     * `recv_exact`: receives until `len` bytes are stored at the front of
     * `buf`, returning `len`, or returns -1 at the first receive of at
     * most 0 bytes, which happens exactly when the stream ends first.
     */
    method RecvExact(buf: array<Byte>, len: nat) returns (res: int)
      requires len <= buf.Length
      modifies this`incoming, buf
      ensures clientOpen == old(clientOpen)
      ensures var s := old(Readable());
              if len <= |s| then
                res == len && buf[..len] == s[..len] && Readable() == s[len..]
              else
                res == -1 && Readable() == []
      ensures buf[len..] == old(buf[len..])
    {
      ghost var s := Readable();
      ghost var tail := buf[len..];
      var total := 0;
      while total < len
        invariant 0 <= total <= len && total <= |s|
        invariant buf[..total] == s[..total] && Readable() == s[total..]
        invariant buf[len..] == tail
        invariant clientOpen == old(clientOpen)
      {
        ghost var before := buf[..];
        var r := Recv(buf, total, len - total);
        if r <= 0 {
          assert |s| == total;
          return -1;
        }
        BufferStep(before, buf[..], s, total, r, len);
        total := total + r;
      }
      res := total;
    }

    /**
     * `LCU_Recv_Command`: reads the length prefix, refuses a length of 0 or
     * of at least `maxLen` before reading any payload byte, reads the
     * payload into `jsonBuf` and terminates it with a NUL. Every failure
     * closes the client socket and returns -1; nothing re-opens it.
     */
    method RecvCommand(jsonBuf: array<Byte>, maxLen: nat) returns (res: int)
      requires maxLen <= jsonBuf.Length
      modifies this, jsonBuf
      ensures var s := old(Readable());
              match ReadFrame(s, maxLen)
              case Accepted(p) =>
                res == |p| && jsonBuf[..|p|] == p && jsonBuf[|p|] == 0
                && clientOpen && Readable() == s[4 + |p|..]
              case BadLength(_) =>
                res == -1 && !clientOpen && Available(incoming) == s[4..]
              case _ =>
                res == -1 && !clientOpen
    {
      ghost var s := Readable();
      var lenBuf := new Byte[4];
      var r := RecvExact(lenBuf, 4);
      if r < 0 {
        assert ReadFrame(s, maxLen) == ShortHeader;
        CloseClient();
        return -1;
      }
      assert s[..4] == lenBuf[..];
      var payloadLen := Be32(lenBuf[..]);
      if payloadLen == 0 || payloadLen >= maxLen {
        assert ReadFrame(s, maxLen) == BadLength(payloadLen);
        assert Available(incoming) == s[4..];
        CloseClient();
        return -1;
      }
      ghost var rest := Readable();
      assert rest == s[4..];
      r := RecvExact(jsonBuf, payloadLen);
      if r < 0 {
        assert ReadFrame(s, maxLen) == ShortPayload(payloadLen);
        CloseClient();
        return -1;
      }
      assert rest[..payloadLen] == s[4..4 + payloadLen];
      assert ReadFrame(s, maxLen) == Accepted(s[4..4 + payloadLen]);
      jsonBuf[payloadLen] := 0;
      assert jsonBuf[..payloadLen] == s[4..4 + payloadLen];
      res := payloadLen;
    }
  }

  /** One receive of `recv_exact` extends the filled prefix of the buffer by the bytes it took. */
  lemma BufferStep(before: seq<Byte>, after: seq<Byte>, s: seq<Byte>, total: nat, r: nat, len: nat)
    requires |before| == |after| && total + r <= len <= |before| && total + r <= |s|
    requires before[..total] == s[..total]
    requires after[..total] == before[..total] && after[total..total + r] == s[total..][..r]
    requires after[total + r..] == before[total + r..]
    ensures after[..total + r] == s[..total + r]
    ensures after[len..] == before[len..]
  {
    assert after[..total + r] == after[..total] + after[total..total + r];
    assert s[..total + r] == s[..total] + s[total..total + r];
    assert after[len..] == after[total + r..][len - (total + r)..];
  }
}
