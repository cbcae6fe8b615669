/**
 * A connected TCP socket as one side sees it. What the peer has sent and
 * this side has not yet read is a sequence of non-empty segments: one
 * `recv(k)` returns at most `k` bytes of the first segment, and the empty
 * string once nothing is left (the peer closed). Every way the network can
 * chunk a byte stream is some segmentation, so a property proved for all
 * segmentations holds however `recv` happens to split the data.
 */
module Socket {
  import opened Wrappers
  import opened Bytes

  /** Every segment carries at least one byte. */
  predicate Segmented(segs: seq<seq<byte>>) {
    forall i :: 0 <= i < |segs| ==> segs[i] != []
  }

  lemma FlattenCons(x: seq<byte>, segs: seq<seq<byte>>)
    ensures Flatten([x] + segs) == x + Flatten(segs)
  {
    assert ([x] + segs)[0] == x;
    assert ([x] + segs)[1..] == segs;
  }

  /**
   * One `sock.recv(k)`: the chunk it returns and the segments left. The chunk
   * is the next bytes of the stream, at most `k` of them, and it is empty
   * (for k > 0) exactly when the peer has closed and nothing is left.
   */
  function RecvSpec(segs: seq<seq<byte>>, k: nat): (r: (seq<byte>, seq<seq<byte>>))
    requires Segmented(segs)
    ensures Segmented(r.1)
    ensures r.0 + Flatten(r.1) == Flatten(segs)
    ensures |r.0| <= k
    ensures k > 0 ==> (r.0 == [] <==> segs == [])
    ensures k == 0 ==> r == ([], segs)
  {
    if k == 0 || segs == [] then ([], segs)
    else if |segs[0]| <= k then
      assert segs == [segs[0]] + segs[1..];
      FlattenCons(segs[0], segs[1..]);
      (segs[0], segs[1..])
    else
      var r := (segs[0][..k], [segs[0][k..]] + segs[1..]);
      assert segs == [segs[0]] + segs[1..];
      FlattenCons(segs[0], segs[1..]);
      FlattenCons(segs[0][k..], segs[1..]);
      assert segs[0] == segs[0][..k] + segs[0][k..];
      r
  }

  /**
   * Calling `recv(n - len(data))` until `n` bytes are collected, stopping
   * with nothing at the first empty chunk. It yields exactly the next `n`
   * bytes when the stream still holds them, and otherwise fails having
   * consumed everything.
   */
  function ReadExact(segs: seq<seq<byte>>, n: nat): (r: (Option<seq<byte>>, seq<seq<byte>>))
    requires Segmented(segs)
    ensures Segmented(r.1)
    decreases n
  {
    if n == 0 then (Some([]), segs)
    else
      var (c, rest) := RecvSpec(segs, n);
      if c == [] then (None, rest)
      else
        var (more, rest') := ReadExact(rest, n - |c|);
        (if more.Some? then Some(c + more.value) else None, rest')
  }

  /** What `ReadExact` reads, in terms of the bytes of the stream. */
  lemma {:induction false} ReadExactBytes(segs: seq<seq<byte>>, n: nat)
    requires Segmented(segs)
    ensures var r := ReadExact(segs, n);
      && (|Flatten(segs)| >= n ==> r.0 == Some(Flatten(segs)[..n]) && Flatten(r.1) == Flatten(segs)[n..])
      && (|Flatten(segs)| < n ==> r.0 == None && r.1 == [])
    decreases n
  {
    if n > 0 {
      var (c, rest) := RecvSpec(segs, n);
      if c != [] {
        ReadExactBytes(rest, n - |c|);
        var f := Flatten(segs);
        assert f == c + Flatten(rest);
        assert |f| >= n ==> f[..n] == c + Flatten(rest)[..n - |c|] && f[n..] == Flatten(rest)[n - |c|..];
      }
    }
  }

  /** Puts `buf` in front of the bytes a read produced, if it produced any. */
  function Prefixed(buf: seq<byte>, r: (Option<seq<byte>>, seq<seq<byte>>)): (Option<seq<byte>>, seq<seq<byte>>)
  {
    (if r.0.Some? then Some(buf + r.0.value) else None, r.1)
  }

  /** Nothing collected yet: the read is as it stands. */
  lemma PrefixedNothing(r: (Option<seq<byte>>, seq<seq<byte>>))
    ensures Prefixed([], r) == r
  {
    if r.0.Some? {
      assert [] + r.0.value == r.0.value;
    }
  }

  /** All `n` bytes collected: the read yields the buffer and leaves the segments as they are. */
  lemma PrefixedDone(buf: seq<byte>, segs: seq<seq<byte>>)
    requires Segmented(segs)
    ensures Prefixed(buf, ReadExact(segs, 0)) == (Some(buf), segs)
  {
    assert buf + [] == buf;
  }

  /** One round of the collecting loop: a non-empty chunk `c` becomes the end of what is collected. */
  lemma ReadExactStep(segs: seq<seq<byte>>, n: nat, buf: seq<byte>, c: seq<byte>, rest: seq<seq<byte>>)
    requires Segmented(segs) && n > 0 && (c, rest) == RecvSpec(segs, n) && c != []
    ensures Segmented(rest) && |c| <= n
    ensures Prefixed(buf, ReadExact(segs, n)) == Prefixed(buf + c, ReadExact(rest, n - |c|))
  {
    var r := ReadExact(rest, n - |c|);
    if r.0.Some? {
      assert buf + (c + r.0.value) == (buf + c) + r.0.value;
    }
  }

  /** One side of a connection. */
  class Channel {
    /** What the peer has sent and this side has not read yet. */
    var inbound: seq<seq<byte>>
    /** Everything this side has written, in order. */
    var outbound: seq<byte>
    /** The connection is reset: every write raises. */
    var broken: bool
    /** `close()` has been called. */
    var closed: bool

    ghost predicate Valid()
      reads this
    {
      Segmented(inbound)
    }

    /** The bytes still to be read, however they are segmented. */
    ghost function Pending(): seq<byte>
      reads this
    {
      Flatten(inbound)
    }

    constructor (segments: seq<seq<byte>>, reset: bool)
      requires Segmented(segments)
      ensures Valid()
      ensures inbound == segments && outbound == [] && broken == reset && !closed
    {
      inbound, outbound, broken, closed := segments, [], reset, false;
    }

    /** `sock.recv(k)`. */
    method Recv(k: nat) returns (chunk: seq<byte>)
      requires Valid()
      modifies this`inbound
      ensures Valid()
      ensures (chunk, inbound) == RecvSpec(old(inbound), k)
    {
      chunk, inbound := RecvSpec(inbound, k).0, RecvSpec(inbound, k).1;
    }

    /** `sock.sendall(data)`: all of `data` is written, or it raises (`ok` false) on a reset connection. */
    method SendAll(data: seq<byte>) returns (ok: bool)
      modifies this`outbound
      ensures ok == !broken
      ensures outbound == if ok then old(outbound) + data else old(outbound)
    {
      ok := !broken;
      if ok {
        outbound := outbound + data;
      }
    }

    /**
     * `sock.send(data)`: a blocking send writes some non-empty prefix of
     * `data` (all of it if `data` is no longer than what the kernel takes),
     * or raises (`ok` false) on a reset connection.
     */
    method Send(data: seq<byte>) returns (ok: bool, ghost sent: nat)
      modifies this`outbound
      ensures ok == !broken
      ensures ok ==> sent <= |data| && (data != [] ==> sent > 0) && outbound == old(outbound) + data[..sent]
      ensures !ok ==> outbound == old(outbound)
    {
      ok := !broken;
      sent := 0;
      if ok {
        var n: nat :| n <= |data| && (data != [] ==> n > 0);
        outbound := outbound + data[..n];
        sent := n;
      }
    }

    /** `sock.close()`. */
    method Close()
      modifies this`closed
      ensures closed
    {
      closed := true;
    }
  }
}
