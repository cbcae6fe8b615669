/**
 * remote_server.py: the hub on the controlled laptop. Clients are a list
 * keyed by the text of their address, there is a single screenshot slot,
 * and messages are raw JSON written with `send`, without length framing.
 */
module RemoteServer {
  import opened Wrappers
  import opened Bytes
  import opened Json
  import opened Socket
  import opened PyList
  import opened Http

  const AUTH_TOKEN: string := "your_secure_password_here"
  const HISTORY_SHOWN: nat := 20
  const OFFLINE: string := "Offline"
  const WAITING: string := "Online - Waiting for connection"
  const CLIENT_CONNECTED: string := "Online - Client Connected"

  /** One element of `connected_clients`. */
  datatype ClientEntry = ClientEntry(address: string, connectedAt: string, status: string)

  function EntryAddress(e: ClientEntry): string { e.address }

  datatype EventKind = Connected | Disconnected

  /** One element of `connection_history`. */
  datatype ClientEvent = ClientEvent(event: EventKind, address: string, time: string)

  /** What `get_status` returns. */
  datatype StatusView = StatusView(serverStatus: string, connectedClients: seq<ClientEntry>,
                                   connectionHistory: seq<ClientEvent>, hasScreenshot: bool)

  /** `DashboardData`: each method is one critical section of its lock. */
  class DashboardData {
    var connectedClients: seq<ClientEntry>
    var connectionHistory: seq<ClientEvent>
    var serverStatus: string
    /** The base64 text of the last capture, or None. */
    var lastScreenshot: Option<string>

    constructor ()
      ensures connectedClients == [] && connectionHistory == [] && serverStatus == OFFLINE && lastScreenshot == None
    {
      connectedClients, connectionHistory, serverStatus, lastScreenshot := [], [], OFFLINE, None;
    }

    /** `add_client(addr, connected_time)`, with both already rendered as text. */
    method AddClient(addr: string, connectedTime: string)
      modifies this
      ensures connectedClients == old(connectedClients) + [ClientEntry(addr, connectedTime, "Connected")]
      ensures connectionHistory == old(connectionHistory) + [ClientEvent(Connected, addr, connectedTime)]
      ensures serverStatus == CLIENT_CONNECTED
      ensures lastScreenshot == old(lastScreenshot)
    {
      connectedClients := connectedClients + [ClientEntry(addr, connectedTime, "Connected")];
      connectionHistory := connectionHistory + [ClientEvent(Connected, addr, connectedTime)];
      serverStatus := CLIENT_CONNECTED;
    }

    /**
     * `remove_client(addr)`: every entry with that address goes, the others
     * stay in order; a disconnection is always logged; the status returns to
     * waiting only when no client is left.
     */
    method RemoveClient(addr: string, now: string)
      modifies this
      ensures connectedClients == Without(old(connectedClients), EntryAddress, addr)
      ensures connectionHistory == old(connectionHistory) + [ClientEvent(Disconnected, addr, now)]
      ensures serverStatus == if connectedClients == [] then WAITING else old(serverStatus)
      ensures lastScreenshot == old(lastScreenshot)
    {
      connectedClients := Without(connectedClients, EntryAddress, addr);
      connectionHistory := connectionHistory + [ClientEvent(Disconnected, addr, now)];
      if connectedClients == [] {
        serverStatus := WAITING;
      }
    }

    /** `update_screenshot`: the slot holds the new capture, even a None one. */
    method UpdateScreenshot(data: Option<string>)
      modifies this`lastScreenshot
      ensures lastScreenshot == data
    {
      lastScreenshot := data;
    }

    /** `set_server_online`. */
    method SetServerOnline()
      modifies this`serverStatus
      ensures serverStatus == WAITING
    {
      serverStatus := WAITING;
    }

    /** `get_status`: a copy of the state, with the newest 20 history events, oldest first. */
    function GetStatus(): (s: StatusView)
      reads this
      ensures s.serverStatus == serverStatus && s.connectedClients == connectedClients
      ensures |s.connectionHistory| == if |connectionHistory| < HISTORY_SHOWN then |connectionHistory| else HISTORY_SHOWN
      ensures s.connectionHistory == connectionHistory[|connectionHistory| - |s.connectionHistory|..]
      ensures s.hasScreenshot <==> lastScreenshot.Some?
    {
      StatusView(serverStatus, connectedClients, Tail(connectionHistory, HISTORY_SHOWN), lastScreenshot.Some?)
    }
  }

  /** Removing a client twice leaves the live list as removing it once does. */
  lemma RemoveTwice(entries: seq<ClientEntry>, addr: string)
    ensures Without(Without(entries, EntryAddress, addr), EntryAddress, addr) == Without(entries, EntryAddress, addr)
  {
    WithoutIdempotent(entries, EntryAddress, addr);
  }

  /** A client that connects and then disconnects leaves the live list as removing its address alone does. */
  lemma AddThenRemove(entries: seq<ClientEntry>, addr: string, time: string)
    ensures Without(entries + [ClientEntry(addr, time, "Connected")], EntryAddress, addr) == Without(entries, EntryAddress, addr)
  {
    WithoutSnoc(entries, ClientEntry(addr, time, "Connected"), EntryAddress);
  }

  /** A removal leaves the other addresses' entries exactly as they were, in order. */
  lemma RemoveKeepsOthers(entries: seq<ClientEntry>, addr: string)
    requires forall i :: 0 <= i < |entries| ==> entries[i].address != addr
    ensures Without(entries, EntryAddress, addr) == entries
  {
    WithoutNone(entries, EntryAddress, addr);
  }

  // -------------------------------------------------------------- handshake

  /** The branch `authenticate_client` takes on what `json.loads` made of the first chunk. */
  datatype AuthDecision = Unparsed | Mismatch | Match

  function DecideAuth(parsed: Option<Json>): (d: AuthDecision)
    ensures d == Match <==> parsed.Some? && parsed.value.JObj? && Get(parsed.value.fields, "token", JNull) == JStr(AUTH_TOKEN)
    ensures d == Mismatch <==> parsed.Some? && parsed.value.JObj? && Get(parsed.value.fields, "token", JNull) != JStr(AUTH_TOKEN)
  {
    match parsed
    case None => Unparsed
    case Some(m) =>
      if !m.JObj? then Unparsed
      else if Get(m.fields, "token", JNull) != JStr(AUTH_TOKEN) then Mismatch
      else Match
  }

  const ErrorReply: Json := StatusReply("error", Some("Authentication failed"))
  const SuccessReply: Json := StatusReply("success", Some("Authenticated"))

  /**
   * What one `sock.send(data)` leaves on the wire: nothing on a reset
   * connection, otherwise a prefix of `data` that is non-empty when `data` is.
   */
  ghost predicate PartialWrite(before: seq<byte>, after: seq<byte>, data: seq<byte>, broken: bool)
  {
    if broken then after == before
    else exists n :: 0 <= n <= |data| && (data != [] ==> n > 0) && after == before + data[..n]
  }

  /** The message that `process_command` answers `get_screen` with. */
  function ScreenReply(capture: Option<string>, timestamp: string): (r: Json)
    ensures r.JObj? && r.fields.Keys == {"type", "data", "timestamp"}
    ensures r.fields["type"] == JStr("screen") && r.fields["timestamp"] == JStr(timestamp)
    ensures r.fields["data"] == if capture.Some? then JStr(capture.value) else JNull
  {
    JObj(map["type" := JStr("screen"), "data" := (if capture.Some? then JStr(capture.value) else JNull),
             "timestamp" := JStr(timestamp)])
  }

  // --------------------------------------------------------------- commands

  /** The branch `process_command` takes on a dict command: the provider call it makes, with its arguments. */
  datatype Command =
    | GetScreen
    | MouseMove(x: Json, y: Json)
    | MouseClick(x: Json, y: Json, button: Json)
    | KeyPress(key: Json)
    | Unknown

  function Dispatch(fields: map<string, Json>): (c: Command)
    ensures c == GetScreen <==> Get(fields, "type", JNull) == JStr("get_screen")
    ensures c.MouseMove? <==> Get(fields, "type", JNull) == JStr("mouse_move")
    ensures c.MouseClick? <==> Get(fields, "type", JNull) == JStr("mouse_click")
    ensures c.KeyPress? <==> Get(fields, "type", JNull) == JStr("key_press")
    ensures c.MouseMove? || c.MouseClick? ==> c.x == Get(fields, "x", JNull) && c.y == Get(fields, "y", JNull)
    ensures c.MouseClick? ==> c.button == Get(fields, "button", JStr("left"))
    ensures c.KeyPress? ==> c.key == Get(fields, "key", JNull)
  {
    var t := Get(fields, "type", JNull);
    if t == JStr("get_screen") then GetScreen
    else if t == JStr("mouse_move") then MouseMove(Get(fields, "x", JNull), Get(fields, "y", JNull))
    else if t == JStr("mouse_click") then MouseClick(Get(fields, "x", JNull), Get(fields, "y", JNull), Get(fields, "button", JStr("left")))
    else if t == JStr("key_press") then KeyPress(Get(fields, "key", JNull))
    else Unknown
  }

  /** A click without a 'button' field is a left click. */
  lemma ClickDefaultsToLeft(fields: map<string, Json>)
    requires Get(fields, "type", JNull) == JStr("mouse_click") && "button" !in fields
    ensures Dispatch(fields) == MouseClick(Get(fields, "x", JNull), Get(fields, "y", JNull), JStr("left"))
  {
  }

  /** `RemoteServer`: the parts between the socket and the dashboard. */
  class RemoteServer {
    /** The process-wide `dashboard` object. */
    const dashboard: DashboardData

    constructor (dashboard: DashboardData)
      ensures this.dashboard == dashboard
    {
      this.dashboard := dashboard;
    }

    /**
     * `authenticate_client`: one raw `recv(1024)` is parsed as the whole auth
     * message; True only when the token matches and the success reply is
     * sent. A parse failure or a non-dict gives False with no reply.
     */
    method AuthenticateClient(sock: Channel, codec: Codec) returns (ok: bool)
      requires sock.Valid()
      modifies sock
      ensures sock.Valid()
      ensures var first := RecvSpec(old(sock.inbound), 1024);
        var d := DecideAuth(codec.loads(first.0));
        && sock.inbound == first.1
        && ok == (d == Match && !old(sock.broken))
        && (d == Unparsed ==> sock.outbound == old(sock.outbound))
        && (d == Mismatch ==> PartialWrite(old(sock.outbound), sock.outbound, codec.dumps(ErrorReply), old(sock.broken)))
        && (d == Match ==> PartialWrite(old(sock.outbound), sock.outbound, codec.dumps(SuccessReply), old(sock.broken)))
      ensures sock.broken == old(sock.broken) && sock.closed == old(sock.closed)
    {
      var authData := sock.Recv(1024);
      var parsed := codec.loads(authData);
      if parsed.None? || !parsed.value.JObj? {
        return false;
      }
      if Get(parsed.value.fields, "token", JNull) != JStr(AUTH_TOKEN) {
        var _, _ := sock.Send(codec.dumps(ErrorReply));
        return false;
      }
      var sent, _ := sock.Send(codec.dumps(SuccessReply));
      return sent;
    }

    /**
     * `process_command(client_socket, command)`. `capture` is what
     * `capture_screen` returns and `timestamp` the clock at the reply;
     * `call` is the windows_impl call made. `raised`: the command is not a
     * dict, or the reply to `get_screen` could not be sent.
     */
    method ProcessCommand(sock: Channel, command: Json, capture: Option<string>, timestamp: string, codec: Codec)
      returns (raised: bool, call: Command)
      modifies sock, dashboard
      ensures call == if command.JObj? then Dispatch(command.fields) else Unknown
      ensures raised == (!command.JObj? || (call == GetScreen && sock.broken))
      ensures dashboard.lastScreenshot == if call == GetScreen then capture else old(dashboard.lastScreenshot)
      ensures dashboard.connectedClients == old(dashboard.connectedClients)
      ensures dashboard.connectionHistory == old(dashboard.connectionHistory)
      ensures dashboard.serverStatus == old(dashboard.serverStatus)
      ensures call == GetScreen ==> PartialWrite(old(sock.outbound), sock.outbound, codec.dumps(ScreenReply(capture, timestamp)), sock.broken)
      ensures call != GetScreen ==> sock.outbound == old(sock.outbound)
      ensures sock.inbound == old(sock.inbound) && sock.broken == old(sock.broken) && sock.closed == old(sock.closed)
    {
      if !command.JObj? {
        return true, Unknown;
      }
      call := Dispatch(command.fields);
      raised := false;
      if call == GetScreen {
        dashboard.UpdateScreenshot(capture);
        var sent, _ := sock.Send(codec.dumps(ScreenReply(capture, timestamp)));
        raised := !sent;
      }
    }
  }

  // ------------------------------------------------------------------ HTTP

  /**
   * `serve_screenshot`: 404 when the slot is None or empty; the decoded image
   * otherwise, and when the text is not valid base64 the handler raises and
   * no response is written.
   */
  function ServeScreenshot(slot: Option<string>, b64: Base64Decoder): (r: Response<StatusView>)
    ensures r == Error(404) <==> slot.None? || slot.value == ""
    ensures r.Image? <==> slot.Some? && slot.value != "" && b64(slot.value).Some?
    ensures r.Image? ==> r.bytes == b64(slot.value).value
    ensures r == Aborted <==> slot.Some? && slot.value != "" && b64(slot.value).None?
  {
    match slot
    case None => Error(404)
    case Some(s) =>
      if s == "" then Error(404)
      else match b64(s)
        case Some(b) => Image(b)
        case None => Aborted
  }

  /** `do_GET`: the three exact paths, and 404 for anything else. */
  function DoGet(d: DashboardData, target: string, b64: Base64Decoder): (r: Response<StatusView>)
    reads d
    ensures UrlPath(target) == "/" ==> r == Page
    ensures UrlPath(target) == "/api/status" ==> r == StatusBody(d.GetStatus())
    ensures UrlPath(target) == "/api/screenshot" ==> r == ServeScreenshot(d.lastScreenshot, b64)
    ensures UrlPath(target) !in {"/", "/api/status", "/api/screenshot"} ==> r == Error(404)
  {
    match RouteSingle(UrlPath(target))
    case Dashboard => Page
    case Status => StatusBody(d.GetStatus())
    case Screenshot(_) => ServeScreenshot(d.lastScreenshot, b64)
    case NotFound => Error(404)
  }

  /** A query string does not change the route: '/api/screenshot?t=…' is the screenshot. */
  lemma DoGetScreenshotWithQuery(d: DashboardData, query: string, b64: Base64Decoder)
    requires '#' !in query
    ensures DoGet(d, "/api/screenshot" + "?" + query, b64) == ServeScreenshot(d.lastScreenshot, b64)
  {
    assert "/api/screenshot"[..2] == "/a";
    UrlPathQuery("/api/screenshot", query);
  }
}
