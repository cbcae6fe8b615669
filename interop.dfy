/**
 * computer2_client.py talking to pc_dashboard.py: the frames the client
 * writes are the frames the PC hub reads, the hub's replies are what the
 * client tests for, and a streaming session leaves the last screenshot in
 * the hub's cache.
 */
module Interop {
  import opened Wrappers
  import opened Bytes
  import opened Json
  import opened Socket
  import opened Framing
  import opened PyDict
  import Pc = PcDashboard
  import Client = Computer2Client

  /**
   * The segments the hub sees when each `sendall` of the client arrives as
   * a piece of its own: the 4-byte header, then the payload.
   */
  function WireSegments(codec: Codec, ms: seq<Json>): seq<seq<byte>>
  {
    if ms == [] then []
    else if |codec.dumps(ms[0])| < FrameLimit then
      [ToBytes4(|codec.dumps(ms[0])|), codec.dumps(ms[0])] + WireSegments(codec, ms[1..])
    else WireSegments(codec, ms[1..])
  }

  /** Those segments carry exactly the bytes the client wrote, and none is empty. */
  lemma {:induction false} WireSegmentsAreTheStream(codec: Codec, ms: seq<Json>)
    requires Lawful(codec)
    ensures Segmented(WireSegments(codec, ms))
    ensures Flatten(WireSegments(codec, ms)) == Client.Frames(codec, ms)
  {
    if ms != [] {
      WireSegmentsAreTheStream(codec, ms[1..]);
      var p := codec.dumps(ms[0]);
      if |p| < FrameLimit {
        DumpsNonEmpty(codec, ms[0]);
        var rest := WireSegments(codec, ms[1..]);
        FlattenCons(ToBytes4(|p|), [p] + rest);
        FlattenCons(p, rest);
        assert [ToBytes4(|p|), p] + rest == [ToBytes4(|p|)] + ([p] + rest);
      }
    }
  }

  /**
   * The PC hub's reader on a client frame that arrives as the client wrote
   * it, header and payload apart: it gets the message and leaves the rest of
   * the stream exactly as it was segmented.
   */
  lemma PcReadsSplitFrame(codec: Codec, m: Json, rest: seq<seq<byte>>)
    requires Lawful(codec) && |codec.dumps(m)| < FrameLimit && Segmented(rest)
    ensures Segmented([ToBytes4(|codec.dumps(m)|), codec.dumps(m)] + rest)
    ensures ReadFramedOneRecv([ToBytes4(|codec.dumps(m)|), codec.dumps(m)] + rest, codec) == (m, rest)
  {
    var p := codec.dumps(m);
    DumpsNonEmpty(codec, m);
    var segs := [ToBytes4(|p|), p] + rest;
    assert segs[1..] == [p] + rest && ([p] + rest)[1..] == rest;
    assert RecvSpec(segs, 4) == (ToBytes4(|p|), [p] + rest);
    assert RecvSpec([p] + rest, |p|) == (p, rest);
    assert p + [] == p;
    assert ReadExact([p] + rest, |p|) == (Some(p), rest);
    assert codec.loads(p) == Some(m);
  }

  /** The same when the network has joined header and payload into one piece. */
  lemma PcReadsJoinedFrame(codec: Codec, m: Json, rest: seq<seq<byte>>)
    requires Lawful(codec) && |codec.dumps(m)| < FrameLimit && Segmented(rest)
    ensures Segmented([Frame(codec.dumps(m))] + rest)
    ensures ReadFramedOneRecv([Frame(codec.dumps(m))] + rest, codec) == (m, rest)
  {
    var p := codec.dumps(m);
    DumpsNonEmpty(codec, m);
    var f := Frame(p);
    var segs := [f] + rest;
    assert f[..4] == ToBytes4(|p|) && f[4..] == p;
    FourBytesRoundTrip(f[..4]);
    assert FromBytes(f[..4]) == |p|;
    assert segs[0] == f && segs[1..] == rest;
    assert RecvSpec(segs, 4) == (f[..4], [p] + rest);
    assert ([p] + rest)[1..] == rest;
    assert RecvSpec([p] + rest, |p|) == (p, rest);
    assert p + [] == p;
    assert ReadExact([p] + rest, |p|) == (Some(p), rest);
    assert codec.loads(p) == Some(m);
  }

  /** One screenshot message read by the PC hub's session loop: the cache gets its data under the session's id. */
  lemma PcSessionStep(codec: Codec, m: Json, rest: seq<seq<byte>>, cache: map<Json, Json>, id: Json)
    requires Lawful(codec) && |codec.dumps(m)| < FrameLimit && Client.IsScreenshot(m) && Segmented(rest)
    ensures Segmented([ToBytes4(|codec.dumps(m)|), codec.dumps(m)] + rest)
    ensures Pc.SessionCache([ToBytes4(|codec.dumps(m)|), codec.dumps(m)] + rest, codec, cache, id)
            == Pc.SessionCache(rest, codec, cache[id := Get(m.fields, "data", JNull)], id)
  {
    PcReadsSplitFrame(codec, m, rest);
    assert "type" in m.fields;
    assert Truthy(m);
  }

  /**
   * A session of screenshot messages, each arriving as written: the PC hub
   * reads them all, and the cache ends holding, under the session's id, the
   * data of the last one.
   */
  lemma {:induction false} PcSessionKeepsLastScreenshot(codec: Codec, ms: seq<Json>, cache: map<Json, Json>, id: Json)
    requires Lawful(codec) && ms != []
    requires forall i :: 0 <= i < |ms| ==> |codec.dumps(ms[i])| < FrameLimit && Client.IsScreenshot(ms[i])
    ensures Segmented(WireSegments(codec, ms))
    ensures var last := ms[|ms| - 1];
      last.JObj? && Pc.SessionCache(WireSegments(codec, ms), codec, cache, id) == cache[id := Get(last.fields, "data", JNull)]
  {
    WireSegmentsAreTheStream(codec, ms);
    var m := ms[0];
    var tail := ms[1..];
    var rest := WireSegments(codec, tail);
    WireSegmentsAreTheStream(codec, tail);
    assert WireSegments(codec, ms) == [ToBytes4(|codec.dumps(m)|), codec.dumps(m)] + rest;
    var cache' := cache[id := Get(m.fields, "data", JNull)];
    PcSessionStep(codec, m, rest, cache, id);
    if tail == [] {
      assert ReadFramedOneRecv([], codec).0 == JNull;
    } else {
      forall i | 0 <= i < |tail|
        ensures |codec.dumps(tail[i])| < FrameLimit && Client.IsScreenshot(tail[i])
      {
        assert tail[i] == ms[i + 1];
      }
      PcSessionKeepsLastScreenshot(codec, tail, cache', id);
      assert tail[|tail| - 1] == ms[|ms| - 1];
      OverwriteTwice(cache, id, Get(m.fields, "data", JNull), Get(ms[|ms| - 1].fields, "data", JNull));
    }
  }

  /**
   * A client streaming session with its captures read by the PC hub: when
   * the client sent anything, the hub's cache holds the data of the last
   * screenshot it sent, under the id the client authenticated with.
   */
  lemma ClientStreamReachesPcCache(codec: Codec, ticks: seq<Client.Tick>, cache: map<Json, Json>)
    requires Lawful(codec)
    ensures Segmented(WireSegments(codec, Client.StreamSpec(codec, false, ticks).0))
    ensures var sent := Client.StreamSpec(codec, false, ticks).0;
      && (sent == [] ==> Pc.SessionCache(WireSegments(codec, sent), codec, cache, JStr(Client.COMPUTER_NAME)) == cache)
      && (sent != [] ==> var last := sent[|sent| - 1];
            && Client.IsScreenshot(last)
            && Pc.SessionCache(WireSegments(codec, sent), codec, cache, JStr(Client.COMPUTER_NAME))
               == cache[JStr(Client.COMPUTER_NAME) := Get(last.fields, "data", JNull)])
  {
    var sent := Client.StreamSpec(codec, false, ticks).0;
    WireSegmentsAreTheStream(codec, sent);
    Client.StreamSendsScreenshots(codec, false, ticks);
    if sent == [] {
      assert ReadFramedOneRecv([], codec).0 == JNull;
    } else {
      PcSessionKeepsLastScreenshot(codec, sent, cache, JStr(Client.COMPUTER_NAME));
    }
  }

  // -------------------------------------------------------------- handshake

  /** With the tokens each program ships with, the PC hub refuses the client. */
  lemma DefaultTokensRefused()
    ensures Pc.Decide(Client.AuthMessage(Client.AUTH_TOKEN)) == Pc.Refuse
  {
    var m := Client.AuthMessage(Client.AUTH_TOKEN);
    assert m.fields["token"] == JStr("MySecretPassword123");
    assert JStr("MySecretPassword123") != JStr(Pc.AUTH_TOKEN) by {
      assert "MySecretPassword123"[0] != Pc.AUTH_TOKEN[0];
    }
  }

  /** A client configured with the hub's token is accepted under its computer name. */
  lemma MatchingTokenAccepted()
    ensures Pc.Decide(Client.AuthMessage(Pc.AUTH_TOKEN)) == Pc.Accept(JStr(Client.COMPUTER_NAME))
    ensures Pc.OutcomeOf(Pc.Decide(Client.AuthMessage(Pc.AUTH_TOKEN))) == Pc.Served
  {
  }

  /** The client's acceptance test passes on the hub's success reply and fails on its error reply. */
  lemma PcRepliesUnderstood()
    ensures Client.Accepted(Pc.SuccessReply)
    ensures !Client.Accepted(Pc.ErrorReply)
  {
    assert Pc.ErrorReply.fields["status"] == JStr("error");
    assert JStr("error") != JStr("success") by {
      assert "error"[0] != "success"[0];
    }
  }

  /**
   * The handshake over the wire: the reply frame the PC hub writes after a
   * decision, read by the client with the same one-`recv(4)` reader, is an
   * acceptance exactly when the hub accepted.
   */
  lemma HandshakeReplyReadByClient(codec: Codec, d: Pc.Decision, rest: seq<seq<byte>>)
    requires Lawful(codec) && Segmented(rest) && !d.Crash?
    requires |codec.dumps(Pc.SuccessReply)| < FrameLimit && |codec.dumps(Pc.ErrorReply)| < FrameLimit
    ensures Pc.AuthReply(d, codec, false) != []
    ensures Segmented([Pc.AuthReply(d, codec, false)] + rest)
    ensures Client.Accepted(ReadFramedOneRecv([Pc.AuthReply(d, codec, false)] + rest, codec).0) <==> d.Accept?
  {
    PcRepliesUnderstood();
    var reply := if d.Accept? then Pc.SuccessReply else Pc.ErrorReply;
    assert Pc.AuthReply(d, codec, false) == Frame(codec.dumps(reply));
    PcReadsJoinedFrame(codec, reply, rest);
  }
}
