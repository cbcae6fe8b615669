/**
 * Reading one length-prefixed frame, in the two ways the code base does it:
 * dashboard_server.py collects the 4-byte header with its `recv_all`
 * helper, while pc_dashboard.py and computer2_client.py take whatever a
 * single `recv(4)` returns as the header.
 */
module Framing {
  import opened Wrappers
  import opened Bytes
  import opened Json
  import opened Socket

  /** A call that returned a value (Python's None is `JNull`) or raised. */
  datatype RecvOutcome = Returned(value: Json) | Raised

  /**
   * dashboard_server.py's `recv_message` on the bytes still to come: the
   * outcome and the bytes left afterwards. A stream that ends inside the
   * header or the payload gives None and is used up; a zero-length payload
   * gives None because an empty bytearray is false; a payload `json.loads`
   * rejects raises.
   */
  function ReadFramed(p: seq<byte>, codec: Codec): (r: (RecvOutcome, seq<byte>))
    ensures |r.1| <= |p| && r.1 == p[|p| - |r.1|..]
    ensures r.0 != Returned(JNull) ==> |r.1| + 5 <= |p|
  {
    if |p| < 4 then (Returned(JNull), [])
    else
      var n := FromBytes(p[..4]);
      var body := p[4..];
      if |body| < n then (Returned(JNull), [])
      else if n == 0 then (Returned(JNull), body)
      else
        match codec.loads(body[..n])
        case None => (Raised, body[n..])
        case Some(j) => (Returned(j), body[n..])
  }

  /** A frame written by any `send_message` is read back as the message it carries, and no more is consumed. */
  lemma ReadFramedRoundTrip(codec: Codec, m: Json, rest: seq<byte>)
    requires Lawful(codec) && |codec.dumps(m)| < FrameLimit
    ensures ReadFramed(Frame(codec.dumps(m)) + rest, codec) == (Returned(m), rest)
  {
    var payload := codec.dumps(m);
    var p := Frame(payload) + rest;
    DumpsNonEmpty(codec, m);
    assert p[..4] == Frame(payload)[..4];
    assert p[4..] == payload + rest;
    assert (payload + rest)[..|payload|] == payload;
    assert (payload + rest)[|payload|..] == rest;
  }

  /** A stream that ends inside the 4-byte header reads as None and is used up. */
  lemma ReadFramedHeaderEof(p: seq<byte>, codec: Codec)
    requires |p| < 4
    ensures ReadFramed(p, codec) == (Returned(JNull), [])
  {
  }

  /** A stream that ends inside the payload reads as None and is used up. */
  lemma ReadFramedTruncated(header: seq<byte>, body: seq<byte>, codec: Codec)
    requires |header| == 4 && |body| < FromBytes(header)
    ensures ReadFramed(header + body, codec) == (Returned(JNull), [])
  {
    assert (header + body)[..4] == header;
    assert (header + body)[4..] == body;
  }

  /** A zero-length frame reads as None, whatever the codec makes of empty text, and only the header is consumed. */
  lemma ReadFramedZeroLength(rest: seq<byte>, codec: Codec)
    ensures ReadFramed(ToBytes4(0) + rest, codec) == (Returned(JNull), rest)
  {
    assert (ToBytes4(0) + rest)[..4] == ToBytes4(0);
    assert (ToBytes4(0) + rest)[4..] == rest;
  }

  /**
   * pc_dashboard.py's and computer2_client.py's `recv_message`: the header is
   * whatever one `recv(4)` returns (one to four bytes) read as a big-endian
   * number; then exactly that many bytes are collected. End of stream,
   * truncation and every parse error give None, with no exception.
   */
  function ReadFramedOneRecv(segs: seq<seq<byte>>, codec: Codec): (r: (Json, seq<seq<byte>>))
    requires Segmented(segs)
    ensures Segmented(r.1)
  {
    var (header, segs1) := RecvSpec(segs, 4);
    if header == [] then (JNull, segs1)
    else
      var (data, segs2) := ReadExact(segs1, FromBytes(header));
      if data.None? then (JNull, segs2)
      else
        match codec.loads(data.value)
        case None => (JNull, segs2)
        case Some(j) => (j, segs2)
  }

  /** The one-`recv` reader consumes a prefix of the stream, and a non-empty one whenever it returns a message. */
  lemma ReadFramedOneRecvConsumes(segs: seq<seq<byte>>, codec: Codec)
    requires Segmented(segs)
    ensures var r := ReadFramedOneRecv(segs, codec);
      && |Flatten(r.1)| <= |Flatten(segs)|
      && Flatten(r.1) == Flatten(segs)[|Flatten(segs)| - |Flatten(r.1)|..]
      && (r.0 != JNull ==> |Flatten(r.1)| < |Flatten(segs)|)
  {
    var (header, segs1) := RecvSpec(segs, 4);
    if header != [] {
      var n := FromBytes(header);
      ReadExactBytes(segs1, n);
      assert ReadFramedOneRecv(segs, codec).1 == ReadExact(segs1, n).1;
      TailAfterHeader(Flatten(segs), header, Flatten(segs1), Flatten(ReadExact(segs1, n).1), n);
    }
  }

  /** What is left after a non-empty header and then `n` more bytes (or everything) is a strictly shorter suffix. */
  lemma TailAfterHeader(f: seq<byte>, header: seq<byte>, f1: seq<byte>, left: seq<byte>, n: nat)
    requires f == header + f1 && header != []
    requires |f1| >= n ==> left == f1[n..]
    requires |f1| < n ==> left == []
    ensures |left| < |f| && left == f[|f| - |left|..]
  {
    if |f1| >= n {
      assert f[|header| + n..] == f1[n..];
    }
  }

  /**
   * When the whole header arrives in one piece, the one-`recv` reader gets
   * back exactly the message in the frame and leaves the bytes after it.
   */
  lemma ReadFramedOneRecvRoundTrip(codec: Codec, m: Json, segs: seq<seq<byte>>, more: seq<byte>)
    requires Lawful(codec) && |codec.dumps(m)| < FrameLimit
    requires Segmented(segs) && segs != [] && |segs[0]| >= 4
    requires Flatten(segs) == Frame(codec.dumps(m)) + more
    ensures ReadFramedOneRecv(segs, codec).0 == m
    ensures Flatten(ReadFramedOneRecv(segs, codec).1) == more
  {
    var payload := codec.dumps(m);
    var (header, segs1) := RecvSpec(segs, 4);
    ReadExactBytes(segs1, |payload|);
    assert segs == [segs[0]] + segs[1..];
    FlattenCons(segs[0], segs[1..]);
    assert header == segs[0][..4];
    assert header == Flatten(segs)[..4] == Frame(payload)[..4];
    assert Flatten(segs1) == payload + more;
    assert (payload + more)[..|payload|] == payload;
    assert (payload + more)[|payload|..] == more;
  }

  /**
   * The single `recv(4)` in the one-`recv` reader: a peer whose 4-byte
   * header arrives split after two bytes (for any payload shorter than
   * 64 KiB) is read as a zero-length frame, which a lawful codec rejects,
   * so the result is None; and the reader has consumed only two bytes,
   * leaving the stream out of step with the frame boundaries.
   */
  lemma ReadFramedOneRecvSplitHeader(codec: Codec, payload: seq<byte>)
    requires Lawful(codec) && 0 < |payload| < 0x1_0000
    ensures ReadFramedOneRecv([Frame(payload)[..2], Frame(payload)[2..]], codec).0 == JNull
    ensures Flatten(ReadFramedOneRecv([Frame(payload)[..2], Frame(payload)[2..]], codec).1) == Frame(payload)[2..]
  {
    var f := Frame(payload);
    var segs := [f[..2], f[2..]];
    FromBytes4(f[..4]);
    assert f[..2] == [f[0], f[1]];
    assert f[..2][..1] == [f[0]];
    assert f[0] == 0 && f[1] == 0 by {
      var n := |payload|;
      assert FromBytes(f[..4]) == n;
      assert f[..4][0] == f[0] && f[..4][1] == f[1];
    }
    assert f[..2][..1][..0] == [];
    assert FromBytes(f[..2][..1]) == 0;
    assert FromBytes(f[..2]) == 0;
    var (header, segs1) := RecvSpec(segs, 4);
    assert header == f[..2] && segs1 == [f[2..]];
    FlattenCons(f[2..], []);
    assert Flatten(segs1) == f[2..];
  }

  /** A zero-length frame is read as None by the one-`recv` reader too, there because `json.loads('')` raises. */
  lemma ReadFramedOneRecvZeroLength(codec: Codec, segs: seq<seq<byte>>)
    requires Lawful(codec) && Segmented(segs) && segs != [] && |segs[0]| >= 4
    requires Flatten(segs)[..4] == ToBytes4(0)
    ensures ReadFramedOneRecv(segs, codec).0 == JNull
    ensures Flatten(ReadFramedOneRecv(segs, codec).1) == Flatten(segs)[4..]
  {
    assert segs == [segs[0]] + segs[1..];
    FlattenCons(segs[0], segs[1..]);
    var (header, segs1) := RecvSpec(segs, 4);
    assert header == segs[0][..4] == ToBytes4(0);
  }

  /** Whether a `send_message` gets `m` out: it fits a 4-byte length and the connection takes writes. */
  predicate Sendable(codec: Codec, broken: bool, m: Json) {
    !broken && |codec.dumps(m)| < FrameLimit
  }

  /**
   * The payload loop of pc_dashboard.py's and computer2_client.py's
   * `recv_message`: `recv(n - len(data))` until `n` bytes are collected, or
   * None at the first empty chunk; `ReadExact` is what it reads.
   */
  method CollectPayload(sock: Channel, n: nat) returns (data: Option<seq<byte>>)
    requires sock.Valid()
    modifies sock`inbound
    ensures sock.Valid()
    ensures (data, sock.inbound) == ReadExact(old(sock.inbound), n)
  {
    ghost var body := sock.inbound;
    var buf: seq<byte> := [];
    PrefixedNothing(ReadExact(body, n));
    while |buf| < n
      invariant sock.Valid() && |buf| <= n
      invariant Prefixed(buf, ReadExact(sock.inbound, n - |buf|)) == ReadExact(body, n)
      decreases n - |buf|
    {
      ghost var before := sock.inbound;
      var chunk := sock.Recv(n - |buf|);
      if chunk == [] {
        return None;
      }
      ReadExactStep(before, n - |buf|, buf, chunk, sock.inbound);
      assert n - |buf + chunk| == n - |buf| - |chunk|;
      buf := buf + chunk;
    }
    PrefixedDone(buf, sock.inbound);
    return Some(buf);
  }

  /** The bytes a `send_message` puts on the wire: the frame, or nothing when it raises. */
  function Sent(codec: Codec, broken: bool, m: Json): seq<byte>
  {
    if Sendable(codec, broken, m) then Frame(codec.dumps(m)) else []
  }

}
