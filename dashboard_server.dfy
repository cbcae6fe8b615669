/**
 * dashboard_server.py: the hub that laptops connect to. Live laptops are a
 * list (the same id may appear more than once), the dashboard shows the
 * last 20 history events, and the latest screenshot is cached per laptop id.
 */
module DashboardServer {
  import opened Wrappers
  import opened Bytes
  import opened Json
  import opened Socket
  import opened Framing
  import opened PyList
  import opened PyDict
  import opened Http

  const AUTH_TOKEN: string := "your_secure_password_here"
  const HISTORY_SHOWN: nat := 20
  const WAITING: string := "Waiting for connections"

  /** One element of `connected_laptops`. */
  datatype LaptopEntry = LaptopEntry(id: Json, address: string, connectedAt: string, status: string)

  function EntryId(e: LaptopEntry): Json { e.id }

  datatype EventKind = Connected | Disconnected

  /** One element of `connection_history`; `address` is recorded on connection only. */
  datatype LaptopEvent = LaptopEvent(event: EventKind, laptop: Json, address: Option<string>, time: string)

  /** What `get_status` returns. */
  datatype StatusView = StatusView(serverStatus: string, connectedLaptops: seq<LaptopEntry>,
                           connectionHistory: seq<LaptopEvent>, screenshotIds: set<Json>)

  /** `DashboardData`: each method is one critical section of its lock. */
  class DashboardData {
    var connectedLaptops: seq<LaptopEntry>
    var connectionHistory: seq<LaptopEvent>
    var lastScreenshots: map<Json, Json>
    var serverStatus: string

    constructor ()
      ensures connectedLaptops == [] && connectionHistory == [] && lastScreenshots == map[]
      ensures serverStatus == WAITING
    {
      connectedLaptops, connectionHistory, lastScreenshots := [], [], map[];
      serverStatus := WAITING;
    }

    /**
     * `add_laptop(laptop_id, addr)`, with `addr` already rendered by `str`. The
     * id is hashable: the only caller has just used it as a dict key.
     */
    method AddLaptop(id: Json, addr: string, now: string)
      requires Hashable(id)
      modifies this
      ensures connectedLaptops == old(connectedLaptops) + [LaptopEntry(id, addr, now, "Connected")]
      ensures connectionHistory == old(connectionHistory) + [LaptopEvent(Connected, id, Some(addr), now)]
      ensures serverStatus == "Laptop Connected: " + PyStr(id)
      ensures lastScreenshots == old(lastScreenshots)
    {
      connectedLaptops := connectedLaptops + [LaptopEntry(id, addr, now, "Connected")];
      connectionHistory := connectionHistory + [LaptopEvent(Connected, id, Some(addr), now)];
      serverStatus := "Laptop Connected: " + PyStr(id);
    }

    /**
     * `remove_laptop(laptop_id)`: every entry with that id goes, the others stay
     * in order; a disconnection is always logged; the status returns to waiting
     * only when no laptop is left.
     */
    method RemoveLaptop(id: Json, now: string)
      modifies this
      ensures connectedLaptops == Without(old(connectedLaptops), EntryId, id)
      ensures connectionHistory == old(connectionHistory) + [LaptopEvent(Disconnected, id, None, now)]
      ensures serverStatus == if connectedLaptops == [] then WAITING else old(serverStatus)
      ensures lastScreenshots == old(lastScreenshots)
    {
      connectedLaptops := Without(connectedLaptops, EntryId, id);
      connectionHistory := connectionHistory + [LaptopEvent(Disconnected, id, None, now)];
      if connectedLaptops == [] {
        serverStatus := WAITING;
      }
    }

    /** `update_screenshot`: the cached frame for `id` is replaced. */
    method UpdateScreenshot(id: Json, data: Json)
      modifies this`lastScreenshots
      ensures lastScreenshots == old(lastScreenshots)[id := data]
    {
      lastScreenshots := lastScreenshots[id := data];
    }

    /** `get_status`: a copy of the state, with only the newest 20 history events, oldest first. */
    function GetStatus(): (s: StatusView)
      reads this
      ensures s.serverStatus == serverStatus && s.connectedLaptops == connectedLaptops
      ensures |s.connectionHistory| == if |connectionHistory| < HISTORY_SHOWN then |connectionHistory| else HISTORY_SHOWN
      ensures s.connectionHistory == connectionHistory[|connectionHistory| - |s.connectionHistory|..]
      ensures forall k :: k in s.screenshotIds <==> k in lastScreenshots
    {
      StatusView(serverStatus, connectedLaptops, Tail(connectionHistory, HISTORY_SHOWN), lastScreenshots.Keys)
    }
  }

  /** Removing a laptop twice leaves the live list as removing it once does. */
  lemma RemoveTwice(entries: seq<LaptopEntry>, id: Json)
    ensures Without(Without(entries, EntryId, id), EntryId, id) == Without(entries, EntryId, id)
  {
    WithoutIdempotent(entries, EntryId, id);
  }

  /** Adding a laptop and then removing its id leaves the live list as removing the id alone. */
  lemma AddThenRemove(entries: seq<LaptopEntry>, id: Json, addr: string, now: string)
    ensures Without(entries + [LaptopEntry(id, addr, now, "Connected")], EntryId, id) == Without(entries, EntryId, id)
  {
    WithoutSnoc(entries, LaptopEntry(id, addr, now, "Connected"), EntryId);
  }

  /** The status goes back to waiting after a removal exactly when every live entry had that id. */
  lemma RemoveEmptiesIff(entries: seq<LaptopEntry>, id: Json)
    ensures Without(entries, EntryId, id) == [] <==> forall i :: 0 <= i < |entries| ==> entries[i].id == id
  {
    WithoutEmpty(entries, EntryId, id);
  }

  // ---------------------------------------------------------------- framing

  /**
   * `recv_all(sock, n)`: exactly the next `n` bytes, or None (having used up
   * the stream) if it ends first. Each round either returns or grows the
   * buffer, which bounds the loop.
   */
  method RecvAll(sock: Channel, n: nat) returns (data: Option<seq<byte>>)
    requires sock.Valid()
    modifies sock`inbound
    ensures sock.Valid()
    ensures |old(sock.Pending())| >= n ==> data == Some(old(sock.Pending())[..n]) && sock.Pending() == old(sock.Pending())[n..]
    ensures |old(sock.Pending())| < n ==> data.None? && sock.Pending() == []
  {
    ghost var p := sock.Pending();
    var buf: seq<byte> := [];
    while |buf| < n
      invariant sock.Valid() && |buf| <= n
      invariant buf + sock.Pending() == p
      decreases n - |buf|
    {
      ghost var before := sock.Pending();
      var packet := sock.Recv(n - |buf|);
      if packet == [] {
        assert sock.Pending() == [];
        assert buf == p;
        return None;
      }
      assert packet + sock.Pending() == before;
      assert (buf + packet) + sock.Pending() == buf + (packet + sock.Pending());
      buf := buf + packet;
    }
    assert p[..n] == buf && p[n..] == sock.Pending();
    return Some(buf);
  }

  /** `recv_message(sock)`: the outcome `ReadFramed` gives on the bytes still to come. */
  method RecvMessage(sock: Channel, codec: Codec) returns (r: RecvOutcome)
    requires sock.Valid()
    modifies sock`inbound
    ensures sock.Valid()
    ensures (r, sock.Pending()) == ReadFramed(old(sock.Pending()), codec)
  {
    ghost var p := sock.Pending();
    var rawLength := RecvAll(sock, 4);
    if rawLength.None? || rawLength.value == [] {
      return Returned(JNull);
    }
    var messageLength := FromBytes(rawLength.value);
    ghost var body := sock.Pending();
    assert messageLength == FromBytes(p[..4]) && body == p[4..];
    var messageData := RecvAll(sock, messageLength);
    if messageData.None? || messageData.value == [] {
      return Returned(JNull);
    }
    assert messageData.value == body[..messageLength] && sock.Pending() == body[messageLength..];
    match codec.loads(messageData.value)
    case None =>
      return Raised;
    case Some(j) =>
      return Returned(j);
  }

  /**
   * `send_message(sock, message)`: the frame of the serialised message, or an
   * exception (`raised`), with nothing written, when the length does not fit
   * 4 bytes (OverflowError) or the connection is reset.
   */
  method SendMessage(sock: Channel, message: Json, codec: Codec) returns (raised: bool)
    modifies sock
    ensures raised == !Sendable(codec, old(sock.broken), message)
    ensures sock.outbound == old(sock.outbound) + Sent(codec, old(sock.broken), message)
    ensures sock.inbound == old(sock.inbound) && sock.broken == old(sock.broken) && sock.closed == old(sock.closed)
  {
    var messageBytes := codec.dumps(message);
    if |messageBytes| >= FrameLimit {
      return true;
    }
    var ok := sock.SendAll(ToBytes4(|messageBytes|));
    if !ok {
      return true;
    }
    ok := sock.SendAll(messageBytes);
    return !ok;
  }

  // -------------------------------------------------------------- handshake

  /** The branch `authenticate_laptop` takes on what it received, before replying. */
  datatype Decision = NoMessage | BadToken | Accept(id: Json)

  function Decide(got: RecvOutcome): (d: Decision)
    ensures d.Accept? <==> got.Returned? && got.value.JObj? && got.value.fields != map[]
                           && Get(got.value.fields, "token", JNull) == JStr(AUTH_TOKEN)
    ensures d == BadToken <==> got.Returned? && got.value.JObj? && got.value.fields != map[]
                               && Get(got.value.fields, "token", JNull) != JStr(AUTH_TOKEN)
    ensures d.Accept? ==> d.id == Get(got.value.fields, "laptop_id", JStr("unknown"))
  {
    match got
    case Raised => NoMessage
    case Returned(m) =>
      if !Truthy(m) then NoMessage
      else if !m.JObj? then NoMessage
      else if Get(m.fields, "token", JNull) != JStr(AUTH_TOKEN) then BadToken
      else Accept(Get(m.fields, "laptop_id", JStr("unknown")))
  }

  const ErrorReply: Json := StatusReply("error", Some("Authentication failed"))
  const SuccessReply: Json := StatusReply("success", Some("Authenticated"))

  /** The id `authenticate_laptop` returns (None is `JNull`): failing to send the success reply also fails. */
  function AuthResult(got: RecvOutcome, codec: Codec, broken: bool): Json
  {
    match Decide(got)
    case Accept(id) => if Sendable(codec, broken, SuccessReply) then id else JNull
    case _ => JNull
  }

  /** The reply `authenticate_laptop` writes. */
  function AuthReply(got: RecvOutcome, codec: Codec, broken: bool): seq<byte>
  {
    match Decide(got)
    case NoMessage => []
    case BadToken => Sent(codec, broken, ErrorReply)
    case Accept(_) => Sent(codec, broken, SuccessReply)
  }

  /** A rejected or missing handshake yields no id; an accepted one yields the claimed id or 'unknown'. */
  lemma AuthResultSpec(got: RecvOutcome, codec: Codec, broken: bool)
    ensures AuthResult(got, codec, broken) != JNull ==>
      && got.Returned? && got.value.JObj?
      && Get(got.value.fields, "token", JNull) == JStr(AUTH_TOKEN)
      && AuthResult(got, codec, broken) == Get(got.value.fields, "laptop_id", JStr("unknown"))
      && AuthReply(got, codec, broken) == Frame(codec.dumps(SuccessReply))
    ensures Decide(got) == BadToken ==>
      AuthResult(got, codec, broken) == JNull && AuthReply(got, codec, broken) == Sent(codec, broken, ErrorReply)
  {
  }

  /**
   * The handshake end to end: an auth frame carrying the right token and no
   * `laptop_id` is accepted as 'unknown' with a success reply; with a wrong
   * token it is refused with an error reply.
   */
  lemma HandshakeOverWire(codec: Codec, fields: map<string, Json>, rest: seq<byte>, broken: bool)
    requires Lawful(codec) && |codec.dumps(JObj(fields))| < FrameLimit && "token" in fields
    ensures var got := ReadFramed(Frame(codec.dumps(JObj(fields))) + rest, codec).0;
      && (fields["token"] == JStr(AUTH_TOKEN) && "laptop_id" !in fields && Sendable(codec, broken, SuccessReply) ==>
            AuthResult(got, codec, broken) == JStr("unknown") && AuthReply(got, codec, broken) == Frame(codec.dumps(SuccessReply)))
      && (fields["token"] != JStr(AUTH_TOKEN) ==>
            AuthResult(got, codec, broken) == JNull && AuthReply(got, codec, broken) == Sent(codec, broken, ErrorReply))
  {
    ReadFramedRoundTrip(codec, JObj(fields), rest);
  }

  // ---------------------------------------------------------------- session

  /** The branch `process_laptop_message` takes on a dict message. */
  datatype LaptopMessage = ScreenshotMsg(data: Json) | StatusMsg(status: Json) | OtherMsg

  function Classify(fields: map<string, Json>): (r: LaptopMessage)
    ensures r.ScreenshotMsg? <==> Get(fields, "type", JNull) == JStr("screenshot")
    ensures r.StatusMsg? <==> Get(fields, "type", JNull) == JStr("status")
    ensures r.ScreenshotMsg? ==> r.data == Get(fields, "data", JNull)
  {
    var t := Get(fields, "type", JNull);
    if t == JStr("screenshot") then ScreenshotMsg(Get(fields, "data", JNull))
    else if t == JStr("status") then StatusMsg(Get(fields, "status", JNull))
    else OtherMsg
  }

  /** The effect of one dict message on the screenshot cache. */
  function Apply(cache: map<Json, Json>, id: Json, fields: map<string, Json>): map<Json, Json>
  {
    match Classify(fields)
    case ScreenshotMsg(data) => cache[id := data]
    case _ => cache
  }

  /** Only a screenshot message changes the cache; status and unknown types leave it as it was. */
  lemma ApplySpec(cache: map<Json, Json>, id: Json, fields: map<string, Json>)
    ensures Get(fields, "type", JNull) != JStr("screenshot") ==> Apply(cache, id, fields) == cache
    ensures Get(fields, "type", JNull) == JStr("screenshot") ==>
      Apply(cache, id, fields) == cache[id := Get(fields, "data", JNull)]
  {
  }

  /**
   * The screenshot cache after the session loop has read the bytes `p`: it
   * stops at the first message that is None (end of stream, truncation, an
   * empty payload or any false value), that raised, or that is not a dict.
   */
  function SessionCache(p: seq<byte>, codec: Codec, cache: map<Json, Json>, id: Json): map<Json, Json>
    decreases |p|
  {
    var (got, rest) := ReadFramed(p, codec);
    if got.Raised? || !Truthy(got.value) || !got.value.JObj? then cache
    else SessionCache(rest, codec, Apply(cache, id, got.value.fields), id)
  }

  /** The message a screenshot update is sent as. */
  function ScreenshotMessage(data: Json): Json
  {
    JObj(map["type" := JStr("screenshot"), "data" := data])
  }

  /** One decoded dict frame at the front of the stream is one step of the session. */
  lemma SessionCacheStep(codec: Codec, cache: map<Json, Json>, id: Json, m: Json, rest: seq<byte>)
    requires Lawful(codec) && |codec.dumps(m)| < FrameLimit && m.JObj? && m.fields != map[]
    ensures SessionCache(Frame(codec.dumps(m)) + rest, codec, cache, id) == SessionCache(rest, codec, Apply(cache, id, m.fields), id)
  {
    ReadFramedRoundTrip(codec, m, rest);
  }

  /** A screenshot message stores its data under the sender's id. */
  lemma ApplyScreenshot(cache: map<Json, Json>, id: Json, data: Json)
    ensures ScreenshotMessage(data).fields != map[]
    ensures Apply(cache, id, ScreenshotMessage(data).fields) == cache[id := data]
  {
    var f := ScreenshotMessage(data).fields;
    assert "type" in f && f["type"] == JStr("screenshot");
    assert "data" in f && f["data"] == data;
  }

  /** What a laptop sends for a list of screenshots, one frame each, back to back. */
  function ScreenshotStream(codec: Codec, frames: seq<Json>): seq<byte>
    requires forall i :: 0 <= i < |frames| ==> |codec.dumps(ScreenshotMessage(frames[i]))| < FrameLimit
  {
    if frames == [] then [] else Frame(codec.dumps(ScreenshotMessage(frames[0]))) + ScreenshotStream(codec, frames[1..])
  }

  /** A closed connection leaves the cache as it is. */
  lemma SessionCacheAtEof(codec: Codec, cache: map<Json, Json>, id: Json)
    ensures SessionCache([], codec, cache, id) == cache
  {
    assert ReadFramed([], codec) == (Returned(JNull), []);
  }

  /** The first screenshot frame of a stream is stored, and the session goes on with the rest. */
  lemma ScreenshotStreamStep(codec: Codec, cache: map<Json, Json>, id: Json, frames: seq<Json>)
    requires Lawful(codec) && frames != []
    requires forall i :: 0 <= i < |frames| ==> |codec.dumps(ScreenshotMessage(frames[i]))| < FrameLimit
    ensures SessionCache(ScreenshotStream(codec, frames), codec, cache, id)
              == SessionCache(ScreenshotStream(codec, frames[1..]), codec, cache[id := frames[0]], id)
  {
    var m := ScreenshotMessage(frames[0]);
    var tail := ScreenshotStream(codec, frames[1..]);
    assert ScreenshotStream(codec, frames) == Frame(codec.dumps(m)) + tail;
    ApplyScreenshot(cache, id, frames[0]);
    SessionCacheStep(codec, cache, id, m, tail);
  }

  /**
   * A laptop that sends one or more screenshot frames and then closes leaves
   * exactly the last one in the cache under its id (with none sent the cache
   * is unchanged, by `SessionCacheAtEof`).
   */
  lemma {:induction false} SessionKeepsLastScreenshot(codec: Codec, cache: map<Json, Json>, id: Json, frames: seq<Json>)
    requires Lawful(codec) && frames != []
    requires forall i :: 0 <= i < |frames| ==> |codec.dumps(ScreenshotMessage(frames[i]))| < FrameLimit
    ensures SessionCache(ScreenshotStream(codec, frames), codec, cache, id) == cache[id := frames[|frames| - 1]]
    decreases |frames|
  {
    ScreenshotStreamStep(codec, cache, id, frames);
    if |frames| == 1 {
      assert frames[1..] == [];
      SessionCacheAtEof(codec, cache[id := frames[0]], id);
    } else {
      SessionKeepsLastScreenshot(codec, cache[id := frames[0]], id, frames[1..]);
      OverwriteTwice(cache, id, frames[0], frames[|frames| - 1]);
    }
  }

  /** How `handle_laptop` ended. */
  datatype Outcome =
    | Rejected  // no usable id: the socket is closed and nothing is registered
    | Crashed   // the id cannot be a dict key: TypeError ends the thread before registration
    | Served    // registered, served until the loop ended, then cleaned up

  /** `ConnectionListener`: the per-connection part. */
  class ConnectionListener {
    var running: bool
    var laptopSockets: map<Json, Channel>
    /** The process-wide `dashboard` object. */
    const dashboard: DashboardData

    constructor (dashboard: DashboardData)
      ensures this.dashboard == dashboard && !running && laptopSockets == map[]
    {
      this.dashboard := dashboard;
      running := false;
      laptopSockets := map[];
    }

    /**
     * `authenticate_laptop`: reads the first message and replies; the id is
     * None (`JNull`) unless the token matched and the success reply went out.
     */
    method AuthenticateLaptop(sock: Channel, codec: Codec) returns (id: Json)
      requires sock.Valid()
      modifies sock
      ensures sock.Valid()
      ensures var got := ReadFramed(old(sock.Pending()), codec);
        && sock.Pending() == got.1
        && id == AuthResult(got.0, codec, old(sock.broken))
        && sock.outbound == old(sock.outbound) + AuthReply(got.0, codec, old(sock.broken))
      ensures sock.broken == old(sock.broken) && sock.closed == old(sock.closed)
    {
      var authMsg := RecvMessage(sock, codec);
      if authMsg.Raised? || !Truthy(authMsg.value) || !authMsg.value.JObj? {
        return JNull;
      }
      var fields := authMsg.value.fields;
      if Get(fields, "token", JNull) != JStr(AUTH_TOKEN) {
        var _ := SendMessage(sock, ErrorReply, codec);
        return JNull;
      }
      var laptopId := Get(fields, "laptop_id", JStr("unknown"));
      var raised := SendMessage(sock, SuccessReply, codec);
      if raised {
        return JNull;
      }
      return laptopId;
    }

    /** `process_laptop_message`: `raised` when the message is not a dict (`.get` fails). */
    method ProcessLaptopMessage(id: Json, message: Json) returns (raised: bool)
      modifies dashboard`lastScreenshots
      ensures raised == !message.JObj?
      ensures dashboard.lastScreenshots == if raised then old(dashboard.lastScreenshots)
                                           else Apply(old(dashboard.lastScreenshots), id, message.fields)
    {
      if !message.JObj? {
        return true;
      }
      var kind := Classify(message.fields);
      if kind.ScreenshotMsg? {
        dashboard.UpdateScreenshot(id, kind.data);
      }
      return false;
    }

    /**
     * The `while self.running` loop of `handle_laptop`: it leaves the cache
     * as `SessionCache` says and stops at the first message that ends the
     * session.
     */
    method MessageLoop(sock: Channel, id: Json, codec: Codec)
      requires sock.Valid()
      modifies sock, dashboard
      ensures sock.Valid()
      ensures sock.outbound == old(sock.outbound) && sock.closed == old(sock.closed) && sock.broken == old(sock.broken)
      ensures dashboard.connectedLaptops == old(dashboard.connectedLaptops)
      ensures dashboard.connectionHistory == old(dashboard.connectionHistory)
      ensures dashboard.serverStatus == old(dashboard.serverStatus)
      ensures dashboard.lastScreenshots == if running then SessionCache(old(sock.Pending()), codec, old(dashboard.lastScreenshots), id)
                                           else old(dashboard.lastScreenshots)
    {
      ghost var result := SessionCache(sock.Pending(), codec, dashboard.lastScreenshots, id);
      while running
        invariant sock.Valid()
        invariant SessionCache(sock.Pending(), codec, dashboard.lastScreenshots, id) == result
        invariant !running ==> dashboard.lastScreenshots == old(dashboard.lastScreenshots)
        invariant sock.outbound == old(sock.outbound) && sock.closed == old(sock.closed) && sock.broken == old(sock.broken)
        invariant dashboard.connectedLaptops == old(dashboard.connectedLaptops)
        invariant dashboard.connectionHistory == old(dashboard.connectionHistory)
        invariant dashboard.serverStatus == old(dashboard.serverStatus)
        decreases |sock.Pending()|
      {
        ghost var p := sock.Pending();
        ghost var cache := dashboard.lastScreenshots;
        var message := RecvMessage(sock, codec);
        if message.Raised? || !Truthy(message.value) {
          return;
        }
        var raised := ProcessLaptopMessage(id, message.value);
        if raised {
          return;
        }
        assert SessionCache(p, codec, cache, id) == SessionCache(sock.Pending(), codec, dashboard.lastScreenshots, id);
      }
    }

    /**
     * The part of `handle_laptop` after a usable id: registration, the message
     * loop, and the clean-up in `finally`.
     */
    method ServeLaptop(sock: Channel, id: Json, addr: string, now: string, later: string, codec: Codec)
      requires sock.Valid() && Hashable(id)
      modifies this`laptopSockets, dashboard, sock
      ensures laptopSockets == old(laptopSockets) - {id}
      ensures dashboard.connectedLaptops == Without(old(dashboard.connectedLaptops), EntryId, id)
      ensures dashboard.connectionHistory == old(dashboard.connectionHistory)
                + [LaptopEvent(Connected, id, Some(addr), now)] + [LaptopEvent(Disconnected, id, None, later)]
      ensures dashboard.lastScreenshots == if running then SessionCache(old(sock.Pending()), codec, old(dashboard.lastScreenshots), id)
                                           else old(dashboard.lastScreenshots)
      ensures dashboard.serverStatus == if dashboard.connectedLaptops == [] then WAITING else "Laptop Connected: " + PyStr(id)
      ensures sock.closed && sock.outbound == old(sock.outbound)
    {
      ghost var entries := dashboard.connectedLaptops;
      ghost var sockets := laptopSockets;
      laptopSockets := laptopSockets[id := sock];
      dashboard.AddLaptop(id, addr, now);
      ghost var status := dashboard.serverStatus;
      MessageLoop(sock, id, codec);
      SetThenDelete(sockets, id, sock);
      AddThenRemove(entries, id, addr, now);
      Disconnect(sock, id, later);
    }

    /** The `finally` block of `handle_laptop`: the id leaves both registries and the socket is closed. */
    method Disconnect(sock: Channel, id: Json, later: string)
      modifies this`laptopSockets, dashboard, sock`closed
      ensures laptopSockets == old(laptopSockets) - {id}
      ensures dashboard.connectedLaptops == Without(old(dashboard.connectedLaptops), EntryId, id)
      ensures dashboard.connectionHistory == old(dashboard.connectionHistory) + [LaptopEvent(Disconnected, id, None, later)]
      ensures dashboard.lastScreenshots == old(dashboard.lastScreenshots)
      ensures dashboard.serverStatus == if dashboard.connectedLaptops == [] then WAITING else old(dashboard.serverStatus)
      ensures sock.closed
    {
      if id in laptopSockets {
        laptopSockets := laptopSockets - {id};
      } else {
        DeleteAbsent(laptopSockets, id);
      }
      dashboard.RemoveLaptop(id, later);
      sock.Close();
    }

    /**
     * `handle_laptop(sock, addr)`: handshake, then serving. `now` and `later`
     * stand for the clock at connection and at disconnection.
     */
    method HandleLaptop(sock: Channel, addr: string, now: string, later: string, codec: Codec) returns (outcome: Outcome)
      requires sock.Valid()
      modifies this`laptopSockets, dashboard, sock
      ensures var got := ReadFramed(old(sock.Pending()), codec);
        var id := AuthResult(got.0, codec, old(sock.broken));
        && outcome == (if !Truthy(id) then Rejected else if !Hashable(id) then Crashed else Served)
        && sock.outbound == old(sock.outbound) + AuthReply(got.0, codec, old(sock.broken))
        && (outcome != Served ==> laptopSockets == old(laptopSockets) && unchanged(dashboard))
        && (outcome == Rejected ==> sock.closed)
        && (outcome == Crashed ==> sock.closed == old(sock.closed))
        && (outcome == Served ==>
              && laptopSockets == old(laptopSockets) - {id}
              && dashboard.connectedLaptops == Without(old(dashboard.connectedLaptops), EntryId, id)
              && dashboard.connectionHistory == old(dashboard.connectionHistory)
                   + [LaptopEvent(Connected, id, Some(addr), now), LaptopEvent(Disconnected, id, None, later)]
              && dashboard.lastScreenshots == (if running then SessionCache(got.1, codec, old(dashboard.lastScreenshots), id)
                                               else old(dashboard.lastScreenshots))
              && dashboard.serverStatus == (if dashboard.connectedLaptops == [] then WAITING
                                            else "Laptop Connected: " + PyStr(id))
              && sock.closed)
    {
      var laptopId := AuthenticateLaptop(sock, codec);
      if !Truthy(laptopId) {
        sock.Close();
        return Rejected;
      }
      if !Hashable(laptopId) {
        return Crashed;
      }
      ServeLaptop(sock, laptopId, addr, now, later, codec);
      return Served;
    }
  }

  // ------------------------------------------------------------------ HTTP

  /** `do_GET`: the response chosen by the path of the request target. */
  function DoGet(d: DashboardData, target: string, b64: Base64Decoder): (r: Response<StatusView>)
    reads d
    ensures UrlPath(target) == "/" ==> r == Page
    ensures UrlPath(target) == "/api/status" ==> r == StatusBody(d.GetStatus())
    ensures RoutePerClient(UrlPath(target)) == NotFound ==> r == Error(404)
  {
    match RoutePerClient(UrlPath(target))
    case Dashboard => Page
    case Status => StatusBody(d.GetStatus())
    case Screenshot(id) => ServeCachedScreenshot(d.lastScreenshots, id, b64)
    case NotFound => Error(404)
  }

  /** The screenshot URL of a laptop id that needs no escaping is answered by `serve_screenshot` for exactly that id. */
  lemma DoGetScreenshot(d: DashboardData, id: string, b64: Base64Decoder)
    requires '/' !in id && '?' !in id && '#' !in id && ';' !in id
    ensures DoGet(d, ScreenshotPrefix + id, b64) == ServeCachedScreenshot(d.lastScreenshots, id, b64)
  {
    ScreenshotTargetRoute(id);
  }
}
