/**
 * pc_dashboard.py: the hub that Computer 2 connects to. Live computers are a
 * dict keyed by computer id (a reconnection replaces the entry), the
 * dashboard shows the last 10 history events, and `recv_message` takes the
 * frame header from a single `recv(4)`.
 */
module PcDashboard {
  import opened Wrappers
  import opened Bytes
  import opened Json
  import opened Socket
  import opened Framing
  import opened PyList
  import opened PyDict
  import opened Http

  const AUTH_TOKEN: string := "your_secure_password_here"
  const HISTORY_SHOWN: nat := 10

  /** One value of `connected_computers`. */
  datatype ComputerEntry = ComputerEntry(id: Json, address: string, connectedAt: string)

  datatype EventKind = Connected | Disconnected

  /** One element of `connection_history`. */
  datatype ComputerEvent = ComputerEvent(event: EventKind, computer: Json, time: string)

  /** What `get_status` returns; the two lists are taken as sets, their order being that of the dicts. */
  datatype StatusView = StatusView(connectedComputers: set<ComputerEntry>, connectionHistory: seq<ComputerEvent>,
                                   screenshotIds: set<Json>)

  /** `DashboardData`: each method is one critical section of its lock. */
  class DashboardData {
    var connectedComputers: map<Json, ComputerEntry>
    var connectionHistory: seq<ComputerEvent>
    var lastScreenshots: map<Json, Json>

    /** Every live entry is filed under its own id. */
    ghost predicate Valid()
      reads this
    {
      forall k :: k in connectedComputers ==> connectedComputers[k].id == k
    }

    constructor ()
      ensures Valid()
      ensures connectedComputers == map[] && connectionHistory == [] && lastScreenshots == map[]
    {
      connectedComputers, connectionHistory, lastScreenshots := map[], [], map[];
    }

    /** `add_computer(computer_id, addr)`: a new entry, or one replacing the earlier entry for the same id. */
    method AddComputer(id: Json, addr: string, now: string)
      requires Valid() && Hashable(id)
      modifies this
      ensures Valid()
      ensures connectedComputers == old(connectedComputers)[id := ComputerEntry(id, addr, now)]
      ensures connectionHistory == old(connectionHistory) + [ComputerEvent(Connected, id, now)]
      ensures lastScreenshots == old(lastScreenshots)
    {
      connectedComputers := connectedComputers[id := ComputerEntry(id, addr, now)];
      connectionHistory := connectionHistory + [ComputerEvent(Connected, id, now)];
    }

    /** `remove_computer(computer_id)`: the entry goes if present; a disconnection is logged either way. */
    method RemoveComputer(id: Json, now: string)
      requires Valid()
      modifies this
      ensures Valid()
      ensures connectedComputers == old(connectedComputers) - {id}
      ensures connectionHistory == old(connectionHistory) + [ComputerEvent(Disconnected, id, now)]
      ensures lastScreenshots == old(lastScreenshots)
    {
      if id in connectedComputers {
        connectedComputers := connectedComputers - {id};
      } else {
        DeleteAbsent(connectedComputers, id);
      }
      connectionHistory := connectionHistory + [ComputerEvent(Disconnected, id, now)];
    }

    /** `update_screenshot`: the cached frame for `id` is replaced. */
    method UpdateScreenshot(id: Json, data: Json)
      modifies this`lastScreenshots
      ensures lastScreenshots == old(lastScreenshots)[id := data]
    {
      lastScreenshots := lastScreenshots[id := data];
    }

    /** `get_status`: the live entries, the newest 10 history events (oldest first) and the ids with a frame. */
    function GetStatus(): (s: StatusView)
      reads this
      ensures forall k :: k in connectedComputers ==> connectedComputers[k] in s.connectedComputers
      ensures Valid() ==> forall e :: e in s.connectedComputers ==> e.id in connectedComputers && connectedComputers[e.id] == e
      ensures |s.connectionHistory| == if |connectionHistory| < HISTORY_SHOWN then |connectionHistory| else HISTORY_SHOWN
      ensures s.connectionHistory == connectionHistory[|connectionHistory| - |s.connectionHistory|..]
      ensures forall k :: k in s.screenshotIds <==> k in lastScreenshots
    {
      StatusView(connectedComputers.Values, Tail(connectionHistory, HISTORY_SHOWN), lastScreenshots.Keys)
    }
  }

  /**
   * Last writer wins: a computer that registers twice has one entry, the
   * later one, and the ids are those of registering once.
   */
  lemma ReAddReplaces(live: map<Json, ComputerEntry>, id: Json, first: string, firstAt: string, second: string, secondAt: string)
    ensures var r := live[id := ComputerEntry(id, first, firstAt)][id := ComputerEntry(id, second, secondAt)];
      && r == live[id := ComputerEntry(id, second, secondAt)]
      && r.Keys == live.Keys + {id}
      && r[id].address == second
  {
    OverwriteTwice(live, id, ComputerEntry(id, first, firstAt), ComputerEntry(id, second, secondAt));
  }

  /** Removing an id that is not live leaves the live computers as they were. */
  lemma RemoveAbsentUnchanged(live: map<Json, ComputerEntry>, id: Json)
    requires id !in live
    ensures live - {id} == live
  {
    DeleteAbsent(live, id);
  }

  /** A computer that connects and then disconnects leaves the live computers as removing its id alone does. */
  lemma AddThenRemove(live: map<Json, ComputerEntry>, id: Json, addr: string, time: string)
    ensures live[id := ComputerEntry(id, addr, time)] - {id} == live - {id}
  {
    SetThenDelete(live, id, ComputerEntry(id, addr, time));
  }

  // -------------------------------------------------------------- handshake

  /** The branch `handle_computer` takes on the first message. */
  datatype Decision =
    | Refuse        // nothing usable or a wrong token: error reply, then close
    | Crash         // a true value that is not a dict: `.get` raises, outside any try
    | Accept(id: Json)

  function Decide(auth: Json): (d: Decision)
    ensures d == Refuse <==> !Truthy(auth) || (auth.JObj? && Get(auth.fields, "token", JNull) != JStr(AUTH_TOKEN))
    ensures d == Crash <==> Truthy(auth) && !auth.JObj?
    ensures d.Accept? ==> auth.JObj? && Get(auth.fields, "token", JNull) == JStr(AUTH_TOKEN)
                          && d.id == Get(auth.fields, "computer_id", JStr("unknown"))
  {
    if !Truthy(auth) then Refuse
    else if !auth.JObj? then Crash
    else if Get(auth.fields, "token", JNull) != JStr(AUTH_TOKEN) then Refuse
    else Accept(Get(auth.fields, "computer_id", JStr("unknown")))
  }

  const ErrorReply: Json := StatusReply("error", None)
  const SuccessReply: Json := StatusReply("success", None)

  /** The reply written for a decision; a failed send is ignored. */
  function AuthReply(d: Decision, codec: Codec, broken: bool): seq<byte>
  {
    match d
    case Refuse => Sent(codec, broken, ErrorReply)
    case Crash => []
    case Accept(_) => Sent(codec, broken, SuccessReply)
  }

  /** How `handle_computer` ended. */
  datatype Outcome =
    | Rejected  // refused: the socket is closed and nothing is registered
    | Crashed   // an exception outside any try ended the thread: nothing is registered, the socket stays open
    | Served    // registered, served until the loop ended, then cleaned up

  function OutcomeOf(d: Decision): (o: Outcome)
    ensures o == Served <==> d.Accept? && Hashable(d.id)
  {
    match d
    case Refuse => Rejected
    case Crash => Crashed
    case Accept(id) => if Hashable(id) then Served else Crashed
  }

  // ---------------------------------------------------------------- session

  /** The effect of one dict message on the screenshot cache: only type 'screenshot' stores its 'data'. */
  function Apply(cache: map<Json, Json>, id: Json, fields: map<string, Json>): (r: map<Json, Json>)
    ensures Get(fields, "type", JNull) != JStr("screenshot") ==> r == cache
    ensures Get(fields, "type", JNull) == JStr("screenshot") ==> id in r && r[id] == Get(fields, "data", JNull)
  {
    if Get(fields, "type", JNull) == JStr("screenshot") then cache[id := Get(fields, "data", JNull)] else cache
  }

  /**
   * The screenshot cache after the session loop has read the segments
   * `segs`: it stops at the first message that is None or false (end of
   * stream, truncation, a parse error) or that is not a dict.
   */
  function SessionCache(segs: seq<seq<byte>>, codec: Codec, cache: map<Json, Json>, id: Json): map<Json, Json>
    requires Segmented(segs)
    decreases |Flatten(segs)|
  {
    var r := ReadFramedOneRecv(segs, codec);
    ReadFramedOneRecvConsumes(segs, codec);
    if !Truthy(r.0) || !r.0.JObj? then cache
    else SessionCache(r.1, codec, Apply(cache, id, r.0.fields), id)
  }

  /** `ConnectionListener`: the per-connection part. */
  class ConnectionListener {
    var running: bool
    var computerSockets: map<Json, Channel>
    /** The process-wide `dashboard` object. */
    const dashboard: DashboardData

    constructor (dashboard: DashboardData)
      ensures this.dashboard == dashboard && !running && computerSockets == map[]
    {
      this.dashboard := dashboard;
      running := false;
      computerSockets := map[];
    }

    /** `recv_message(sock)`: the message `ReadFramedOneRecv` reads from the segments still to come. */
    method RecvMessage(sock: Channel, codec: Codec) returns (m: Json)
      requires sock.Valid()
      modifies sock`inbound
      ensures sock.Valid()
      ensures (m, sock.inbound) == ReadFramedOneRecv(old(sock.inbound), codec)
    {
      var rawLength := sock.Recv(4);
      if rawLength == [] {
        return JNull;
      }
      var data := CollectPayload(sock, FromBytes(rawLength));
      if data.None? {
        return JNull;
      }
      match codec.loads(data.value)
      case None =>
        return JNull;
      case Some(j) =>
        return j;
    }

    /** `send_message(sock, message)`: the frame, or False with nothing written when it cannot be sent. */
    method SendMessage(sock: Channel, message: Json, codec: Codec) returns (ok: bool)
      modifies sock`outbound
      ensures ok == Sendable(codec, sock.broken, message)
      ensures sock.outbound == old(sock.outbound) + Sent(codec, sock.broken, message)
    {
      var messageBytes := codec.dumps(message);
      if |messageBytes| >= FrameLimit {
        return false;
      }
      ok := sock.SendAll(ToBytes4(|messageBytes|));
      if !ok {
        return false;
      }
      ok := sock.SendAll(messageBytes);
    }

    /**
     * The `while self.running` loop of `handle_computer`: it leaves the cache
     * as `SessionCache` says.
     */
    method MessageLoop(sock: Channel, id: Json, codec: Codec)
      requires sock.Valid()
      modifies sock, dashboard
      ensures sock.Valid()
      ensures sock.outbound == old(sock.outbound) && sock.closed == old(sock.closed) && sock.broken == old(sock.broken)
      ensures dashboard.connectedComputers == old(dashboard.connectedComputers)
      ensures dashboard.connectionHistory == old(dashboard.connectionHistory)
      ensures dashboard.lastScreenshots == if running then SessionCache(old(sock.inbound), codec, old(dashboard.lastScreenshots), id)
                                           else old(dashboard.lastScreenshots)
    {
      ghost var result := SessionCache(sock.inbound, codec, dashboard.lastScreenshots, id);
      while running
        invariant sock.Valid()
        invariant SessionCache(sock.inbound, codec, dashboard.lastScreenshots, id) == result
        invariant !running ==> dashboard.lastScreenshots == old(dashboard.lastScreenshots)
        invariant sock.outbound == old(sock.outbound) && sock.closed == old(sock.closed) && sock.broken == old(sock.broken)
        invariant dashboard.connectedComputers == old(dashboard.connectedComputers)
        invariant dashboard.connectionHistory == old(dashboard.connectionHistory)
        decreases |Flatten(sock.inbound)|
      {
        ReadFramedOneRecvConsumes(sock.inbound, codec);
        var message := RecvMessage(sock, codec);
        if !Truthy(message) || !message.JObj? {
          return;
        }
        if Get(message.fields, "type", JNull) == JStr("screenshot") {
          dashboard.UpdateScreenshot(id, Get(message.fields, "data", JNull));
        }
      }
    }

    /** The part of `handle_computer` after the success reply, for an id that can be a dict key. */
    method ServeComputer(sock: Channel, id: Json, addr: string, now: string, later: string, codec: Codec)
      requires sock.Valid() && dashboard.Valid() && Hashable(id)
      modifies this`computerSockets, dashboard, sock
      ensures dashboard.Valid()
      ensures computerSockets == old(computerSockets) - {id}
      ensures dashboard.connectedComputers == old(dashboard.connectedComputers) - {id}
      ensures dashboard.connectionHistory == old(dashboard.connectionHistory)
                + [ComputerEvent(Connected, id, now)] + [ComputerEvent(Disconnected, id, later)]
      ensures dashboard.lastScreenshots == if running then SessionCache(old(sock.inbound), codec, old(dashboard.lastScreenshots), id)
                                           else old(dashboard.lastScreenshots)
      ensures sock.closed && sock.outbound == old(sock.outbound)
    {
      ghost var computers := dashboard.connectedComputers;
      ghost var sockets := computerSockets;
      computerSockets := computerSockets[id := sock];
      dashboard.AddComputer(id, addr, now);
      MessageLoop(sock, id, codec);
      if id in computerSockets {
        computerSockets := computerSockets - {id};
      }
      SetThenDelete(sockets, id, sock);
      SetThenDelete(computers, id, ComputerEntry(id, addr, now));
      dashboard.RemoveComputer(id, later);
      sock.Close();
    }

    /**
     * `handle_computer(sock, addr)`. `now` and `later` stand for the clock at
     * connection and at disconnection.
     */
    method HandleComputer(sock: Channel, addr: string, now: string, later: string, codec: Codec) returns (outcome: Outcome)
      requires sock.Valid() && dashboard.Valid()
      modifies this`computerSockets, dashboard, sock
      ensures dashboard.Valid()
      ensures var first := ReadFramedOneRecv(old(sock.inbound), codec);
        var d := Decide(first.0);
        && outcome == OutcomeOf(d)
        && sock.outbound == old(sock.outbound) + AuthReply(d, codec, old(sock.broken))
        && (outcome != Served ==> computerSockets == old(computerSockets) && unchanged(dashboard))
        && (outcome == Rejected ==> sock.closed)
        && (outcome == Crashed ==> sock.closed == old(sock.closed))
        && (outcome == Served ==>
              && computerSockets == old(computerSockets) - {d.id}
              && dashboard.connectedComputers == old(dashboard.connectedComputers) - {d.id}
              && dashboard.connectionHistory == old(dashboard.connectionHistory)
                   + [ComputerEvent(Connected, d.id, now)] + [ComputerEvent(Disconnected, d.id, later)]
              && dashboard.lastScreenshots == (if running then SessionCache(first.1, codec, old(dashboard.lastScreenshots), d.id)
                                               else old(dashboard.lastScreenshots))
              && sock.closed)
    {
      var authMsg := RecvMessage(sock, codec);
      if !Truthy(authMsg) {
        var _ := SendMessage(sock, ErrorReply, codec);
        sock.Close();
        return Rejected;
      }
      if !authMsg.JObj? {
        return Crashed;
      }
      if Get(authMsg.fields, "token", JNull) != JStr(AUTH_TOKEN) {
        var _ := SendMessage(sock, ErrorReply, codec);
        sock.Close();
        return Rejected;
      }
      var computerId := Get(authMsg.fields, "computer_id", JStr("unknown"));
      var _ := SendMessage(sock, SuccessReply, codec);
      if !Hashable(computerId) {
        return Crashed;
      }
      ServeComputer(sock, computerId, addr, now, later, codec);
      return Served;
    }
  }

  // ------------------------------------------------------------------ HTTP

  /** `do_GET`: the response chosen by the path of the request target. */
  function DoGet(d: DashboardData, target: string, b64: Base64Decoder): (r: Response<StatusView>)
    reads d
    ensures UrlPath(target) == "/" ==> r == Page
    ensures UrlPath(target) == "/api/status" ==> r == StatusBody(d.GetStatus())
    ensures RoutePerClient(UrlPath(target)) == NotFound ==> r == Error(404)
  {
    match RoutePerClient(UrlPath(target))
    case Dashboard => Page
    case Status => StatusBody(d.GetStatus())
    case Screenshot(id) => ServeCachedScreenshot(d.lastScreenshots, id, b64)
    case NotFound => Error(404)
  }

  /** The screenshot URL of a computer id that needs no escaping is answered by `serve_screenshot` for exactly that id. */
  lemma DoGetScreenshot(d: DashboardData, id: string, b64: Base64Decoder)
    requires '/' !in id && '?' !in id && '#' !in id && ';' !in id
    ensures DoGet(d, ScreenshotPrefix + id, b64) == ServeCachedScreenshot(d.lastScreenshots, id, b64)
  {
    ScreenshotTargetRoute(id);
  }
}
