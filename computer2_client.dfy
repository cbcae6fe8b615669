/**
 * computer2_client.py: the screen-sharing client that connects to the PC
 * hub of pc_dashboard.py, authenticates with a token and then streams
 * screenshots as length-prefixed JSON frames.
 */
module Computer2Client {
  import opened Wrappers
  import opened Bytes
  import opened Json
  import opened Socket
  import opened Framing

  const AUTH_TOKEN: string := "MySecretPassword123"
  const COMPUTER_NAME: string := "Computer2"

  /** The first message: exactly the token and the name this computer is shown under. */
  function AuthMessage(token: string): (m: Json)
    ensures m.JObj? && m.fields.Keys == {"token", "computer_id"}
    ensures m.fields["token"] == JStr(token) && m.fields["computer_id"] == JStr(COMPUTER_NAME)
  {
    JObj(map["token" := JStr(token), "computer_id" := JStr(COMPUTER_NAME)])
  }

  /**
   * The acceptance test on the hub's reply: `not response` fails on None and
   * on every false value, and `.get` raises on a true value that is not a
   * dict, which the surrounding `try` turns into a failure as well.
   */
  predicate Accepted(response: Json) {
    response.JObj? && Get(response.fields, "status", JNull) == JStr("success")
  }

  /** Only a dict whose 'status' field is the string 'success' is an acceptance. */
  lemma AcceptedIff(response: Json)
    ensures Accepted(response) <==> response.JObj? && "status" in response.fields && response.fields["status"] == JStr("success")
    ensures !Truthy(response) ==> !Accepted(response)
  {
  }

  /** The message `connection_loop` sends for one capture. */
  function ScreenshotMessage(data: string, timestamp: string): (m: Json)
    ensures m.JObj? && m.fields.Keys == {"type", "computer_id", "data", "timestamp"}
    ensures m.fields["type"] == JStr("screenshot") && m.fields["computer_id"] == JStr(COMPUTER_NAME)
    ensures m.fields["data"] == JStr(data) && m.fields["timestamp"] == JStr(timestamp)
  {
    JObj(map["type" := JStr("screenshot"), "computer_id" := JStr(COMPUTER_NAME),
             "data" := JStr(data), "timestamp" := JStr(timestamp)])
  }

  /** One pass of the loop: what `capture_screen` returned (base64 text or None) and the clock when the message is built. */
  datatype Tick = Tick(capture: Option<string>, timestamp: string)

  /** `if screenshot_data:`: None and the empty text are skipped. */
  predicate Captured(t: Tick) {
    t.capture.Some? && t.capture.value != ""
  }

  /** A message of the shape `ScreenshotMessage` builds, carrying non-empty data. */
  predicate IsScreenshot(m: Json) {
    m.JObj? && Get(m.fields, "type", JNull) == JStr("screenshot")
    && Get(m.fields, "data", JNull).JStr? && Get(m.fields, "data", JNull).s != ""
  }

  /**
   * The streaming loop over a finite run of ticks: the messages it sends, in
   * order, and whether it stopped at a send that failed. A tick without a
   * capture sends nothing; the first failed send ends the loop.
   */
  function StreamSpec(codec: Codec, broken: bool, ticks: seq<Tick>): (r: (seq<Json>, bool))
    decreases |ticks|
  {
    if ticks == [] then ([], false)
    else
      var rest := StreamSpec(codec, broken, ticks[1..]);
      if !Captured(ticks[0]) then
        rest
      else
        var m := ScreenshotMessage(ticks[0].capture.value, ticks[0].timestamp);
        if !Sendable(codec, broken, m) then ([], true)
        else ([m] + rest.0, rest.1)
  }

  /** The loop sends at most one message per tick, each a screenshot message that fits a frame. */
  lemma {:induction false} StreamSendsScreenshots(codec: Codec, broken: bool, ticks: seq<Tick>)
    ensures var r := StreamSpec(codec, broken, ticks);
      && |r.0| <= |ticks|
      && forall i :: 0 <= i < |r.0| ==> Sendable(codec, broken, r.0[i]) && IsScreenshot(r.0[i])
  {
    if ticks != [] {
      StreamSendsScreenshots(codec, broken, ticks[1..]);
      var rest := StreamSpec(codec, broken, ticks[1..]);
      if Captured(ticks[0]) {
        var m := ScreenshotMessage(ticks[0].capture.value, ticks[0].timestamp);
        if Sendable(codec, broken, m) {
          assert forall i :: 1 <= i < |rest.0| + 1 ==> ([m] + rest.0)[i] == rest.0[i - 1];
        }
      }
    }
  }

  /** On a reset connection nothing is sent. */
  lemma {:induction false} StreamBrokenSendsNothing(codec: Codec, ticks: seq<Tick>)
    ensures StreamSpec(codec, true, ticks).0 == []
  {
    if ticks != [] {
      StreamBrokenSendsNothing(codec, ticks[1..]);
    }
  }

  /** Ticks whose capture is None or empty send nothing and never end the loop. */
  lemma {:induction false} StreamWithoutCapturesSendsNothing(codec: Codec, broken: bool, ticks: seq<Tick>)
    requires forall i :: 0 <= i < |ticks| ==> !Captured(ticks[i])
    ensures StreamSpec(codec, broken, ticks) == ([], false)
  {
    if ticks != [] {
      assert !Captured(ticks[0]);
      assert forall i :: 0 <= i < |ticks[1..]| ==> ticks[1..][i] == ticks[i + 1];
      StreamWithoutCapturesSendsNothing(codec, broken, ticks[1..]);
    }
  }

  /** The loop stops early exactly when some capture could not be sent. */
  lemma {:induction false} StreamFailsIff(codec: Codec, broken: bool, ticks: seq<Tick>)
    ensures StreamSpec(codec, broken, ticks).1
            <==> exists i :: 0 <= i < |ticks| && Captured(ticks[i])
                             && !Sendable(codec, broken, ScreenshotMessage(ticks[i].capture.value, ticks[i].timestamp))
  {
    if ticks != [] {
      StreamFailsIff(codec, broken, ticks[1..]);
      var tail := ticks[1..];
      var r := StreamSpec(codec, broken, ticks);
      if Captured(ticks[0]) && !Sendable(codec, broken, ScreenshotMessage(ticks[0].capture.value, ticks[0].timestamp)) {
        assert r.1;
      } else {
        assert r.1 == StreamSpec(codec, broken, tail).1;
        if r.1 {
          var j :| 0 <= j < |tail| && Captured(tail[j])
                   && !Sendable(codec, broken, ScreenshotMessage(tail[j].capture.value, tail[j].timestamp));
          assert tail[j] == ticks[j + 1];
        } else {
          forall i | 0 <= i < |ticks| && Captured(ticks[i])
            ensures Sendable(codec, broken, ScreenshotMessage(ticks[i].capture.value, ticks[i].timestamp))
          {
            if i > 0 {
              assert ticks[i] == tail[i - 1];
            }
          }
        }
      }
    }
  }

  /** The bytes `send_message` writes on a working connection for each message in turn. */
  function Frames(codec: Codec, ms: seq<Json>): (r: seq<byte>)
  {
    if ms == [] then [] else Sent(codec, false, ms[0]) + Frames(codec, ms[1..])
  }

  /** When every capture is present and every message fits a frame, each tick sends exactly one message, with its own capture. */
  lemma {:induction false} StreamSendsEveryCapture(codec: Codec, ticks: seq<Tick>)
    requires forall i :: 0 <= i < |ticks| ==> Captured(ticks[i]) && |codec.dumps(ScreenshotMessage(ticks[i].capture.value, ticks[i].timestamp))| < FrameLimit
    ensures !StreamSpec(codec, false, ticks).1
    ensures |StreamSpec(codec, false, ticks).0| == |ticks|
    ensures forall i :: 0 <= i < |ticks| ==> Captured(ticks[i]) && StreamSpec(codec, false, ticks).0[i] == ScreenshotMessage(ticks[i].capture.value, ticks[i].timestamp)
  {
    if ticks != [] {
      StreamSendsEveryCapture(codec, ticks[1..]);
      var rest := StreamSpec(codec, false, ticks[1..]);
      var m := ScreenshotMessage(ticks[0].capture.value, ticks[0].timestamp);
      assert StreamSpec(codec, false, ticks).0 == [m] + rest.0;
      forall i | 1 <= i < |ticks|
        ensures StreamSpec(codec, false, ticks).0[i] == ScreenshotMessage(ticks[i].capture.value, ticks[i].timestamp)
      {
        assert ticks[1..][i - 1] == ticks[i];
      }
    }
  }

  /** `ConnectionWindow`, without its widgets: the connection state the buttons and the loop share. */
  class ConnectionWindow {
    var running: bool
    /** `self.socket`; null is Python's None. */
    var socket: Channel?

    constructor ()
      ensures !running && socket == null
    {
      running, socket := false, null;
    }

    /**
     * `send_message`: the header with one `sendall` and the payload with
     * another, then True; False, with nothing more written, when there is no
     * socket, the payload is too long for a 4-byte header, or a write raises.
     */
    method SendMessage(message: Json, codec: Codec) returns (ok: bool)
      modifies socket
      ensures socket == null ==> !ok
      ensures socket != null ==> ok == Sendable(codec, socket.broken, message)
      ensures socket != null ==> socket.outbound == old(socket.outbound) + Sent(codec, socket.broken, message)
      ensures socket != null ==> socket.inbound == old(socket.inbound) && socket.closed == old(socket.closed)
                                 && socket.broken == old(socket.broken)
    {
      if socket == null {
        return false;
      }
      var messageBytes := codec.dumps(message);
      if |messageBytes| >= FrameLimit {
        return false;
      }
      ok := socket.SendAll(ToBytes4(|messageBytes|));
      if !ok {
        return false;
      }
      ok := socket.SendAll(messageBytes);
    }

    /** `recv_message`: one length-prefixed message read from `self.socket`, or None when there is no socket. */
    method RecvMessage(codec: Codec) returns (m: Json)
      requires socket != null ==> socket.Valid()
      modifies socket
      ensures socket == null ==> m == JNull
      ensures socket != null ==> socket.Valid() && (m, socket.inbound) == ReadFramedOneRecv(old(socket.inbound), codec)
      ensures socket != null ==> socket.outbound == old(socket.outbound) && socket.closed == old(socket.closed)
                                 && socket.broken == old(socket.broken)
    {
      if socket == null {
        return JNull;
      }
      var sock := socket;
      var rawLength := sock.Recv(4);
      if rawLength == [] {
        return JNull;
      }
      var data := CollectPayload(sock, FromBytes(rawLength));
      if data.None? {
        return JNull;
      }
      match codec.loads(data.value)
      case None =>
        return JNull;
      case Some(j) =>
        return j;
    }

    /**
     * `start_connection` on a freshly connected socket `sock`: send the auth
     * message, read one reply, and start streaming only when it is an
     * acceptance; otherwise the socket is closed and dropped.
     */
    method StartConnection(sock: Channel, codec: Codec) returns (accepted: bool)
      requires sock.Valid()
      modifies this, sock
      ensures sock.Valid()
      ensures var sendOk := Sendable(codec, old(sock.broken), AuthMessage(AUTH_TOKEN));
        var reply := ReadFramedOneRecv(old(sock.inbound), codec);
        && sock.outbound == old(sock.outbound) + Sent(codec, old(sock.broken), AuthMessage(AUTH_TOKEN))
        && sock.inbound == (if sendOk then reply.1 else old(sock.inbound))
        && accepted == (sendOk && Accepted(reply.0))
      ensures accepted ==> running && socket == sock && sock.closed == old(sock.closed)
      ensures !accepted ==> running == old(running) && socket == null && sock.closed
      ensures sock.broken == old(sock.broken)
    {
      socket := sock;
      var ok := SendMessage(AuthMessage(AUTH_TOKEN), codec);
      if !ok {
        sock.Close();
        socket := null;
        return false;
      }
      var response := RecvMessage(codec);
      if !Accepted(response) {
        sock.Close();
        socket := null;
        return false;
      }
      running := true;
      return true;
    }

    /** `stop_connection`: the loop is told to stop and the socket, if any, is closed and dropped. */
    method StopConnection()
      modifies this, socket
      ensures !running && socket == null
      ensures old(socket) != null ==> old(socket).closed && old(socket).inbound == old(socket.inbound)
                                      && old(socket).outbound == old(socket.outbound)
    {
      running := false;
      if socket != null {
        socket.Close();
        socket := null;
      }
    }

    /** `on_connection_lost`: the loop has ended; the socket is dropped without being closed. */
    method OnConnectionLost()
      modifies this
      ensures !running && socket == null
    {
      running := false;
      socket := null;
    }

    /**
     * `connection_loop`, started after a successful `start_connection`, over
     * the ticks `ticks`: it sends a screenshot message for every capture as
     * `StreamSpec` says, and at the first failed send it breaks out and
     * hands over to `on_connection_lost`. `ended` says the loop ended within
     * these ticks; otherwise it is still streaming.
     */
    method ConnectionLoop(ticks: seq<Tick>, codec: Codec) returns (ended: bool)
      requires running && socket != null
      modifies this, socket
      ensures var spec := StreamSpec(codec, old(socket.broken), ticks);
        && old(socket).outbound == old(socket.outbound) + Frames(codec, spec.0)
        && ended == spec.1
      ensures ended ==> !running && socket == null
      ensures !ended ==> running && socket == old(socket)
      ensures old(socket).inbound == old(socket.inbound) && old(socket).closed == old(socket.closed)
              && old(socket).broken == old(socket.broken)
    {
      var sock := socket;
      ghost var spec := StreamSpec(codec, sock.broken, ticks);
      ghost var sent: seq<Json> := [];
      var i := 0;
      ended := false;
      assert ticks[0..] == ticks;
      JoinStart(spec);
      while running && i < |ticks|
        modifies sock
        invariant 0 <= i <= |ticks|
        invariant spec == Join(sent, StreamSpec(codec, sock.broken, ticks[i..]))
        invariant sock.outbound == old(sock.outbound) + Frames(codec, sent)
        invariant sock.inbound == old(sock.inbound) && sock.closed == old(sock.closed) && sock.broken == old(sock.broken)
        decreases |ticks| - i
      {
        var t := ticks[i];
        StreamStep(codec, sock.broken, ticks, i);
        if Captured(t) {
          var message := ScreenshotMessage(t.capture.value, t.timestamp);
          var ok := SendMessage(message, codec);
          if !ok {
            JoinEnd(sent, true);
            ended := true;
            break;
          }
          FramesSnoc(codec, sent, message);
          JoinSnoc(sent, message, StreamSpec(codec, sock.broken, ticks[i + 1..]));
          sent := sent + [message];
        }
        i := i + 1;
      }
      if ended {
        OnConnectionLost();
      } else {
        assert ticks[i..] == [];
        JoinEnd(sent, false);
      }
    }
  }

  /** The messages sent so far, followed by what the rest of the loop sends. */
  function Join(sent: seq<Json>, r: (seq<Json>, bool)): (seq<Json>, bool)
  {
    (sent + r.0, r.1)
  }

  lemma JoinStart(r: (seq<Json>, bool))
    ensures Join([], r) == r
  {
    assert [] + r.0 == r.0;
  }

  lemma JoinSnoc(sent: seq<Json>, m: Json, r: (seq<Json>, bool))
    ensures Join(sent, ([m] + r.0, r.1)) == Join(sent + [m], r)
  {
    assert sent + ([m] + r.0) == (sent + [m]) + r.0;
  }

  lemma JoinEnd(sent: seq<Json>, failed: bool)
    ensures Join(sent, ([], failed)) == (sent, failed)
  {
    assert sent + [] == sent;
  }

  /** The loop's specification from tick `i` on, unfolded by one tick. */
  lemma StreamStep(codec: Codec, broken: bool, ticks: seq<Tick>, i: nat)
    requires i < |ticks|
    ensures var t := ticks[i];
      var rest := StreamSpec(codec, broken, ticks[i + 1..]);
      StreamSpec(codec, broken, ticks[i..])
        == if !Captured(t) then rest
           else if !Sendable(codec, broken, ScreenshotMessage(t.capture.value, t.timestamp)) then ([], true)
           else ([ScreenshotMessage(t.capture.value, t.timestamp)] + rest.0, rest.1)
  {
    assert ticks[i..][0] == ticks[i];
    assert ticks[i..][1..] == ticks[i + 1..];
  }

  /** Appending one message appends its frame. */
  lemma {:induction false} FramesSnoc(codec: Codec, ms: seq<Json>, m: Json)
    requires |codec.dumps(m)| < FrameLimit
    ensures Frames(codec, ms + [m]) == Frames(codec, ms) + Frame(codec.dumps(m))
  {
    if ms != [] {
      assert (ms + [m])[1..] == ms[1..] + [m];
      FramesSnoc(codec, ms[1..], m);
    } else {
      assert [m][1..] == [];
    }
  }
}
