# Screen-sharing hubs and client, modelled in Dafny

This project models the hub side of a small screen-sharing system. It also
models the client that streams screenshots to one of the hubs. The hub
comes in three variants:

- `dashboard_server.py`: laptops connect to it. It keeps a list of live
  laptops (one id may appear more than once), shows the newest 20 history
  events, and caches the latest screenshot per laptop.
- `pc_dashboard.py`: Computer 2 connects to it. It keeps a dict of live
  computers (a reconnection replaces the entry), shows the newest 10 events,
  and caches screenshots per computer. It reads the frame header with a
  single `recv(4)`.
- `remote_server.py`: the hub on the controlled machine. Clients are a list
  keyed by their address, and it has one screenshot slot. It exchanges raw
  JSON with `send`, without length framing, and dispatches input commands.

`computer2_client.py` is the client of `pc_dashboard.py`.

Each hub has four parts, and each is modelled:

- **Framing.** A 4-byte big-endian length, then a UTF-8 JSON payload.
- **Token handshake.** The first message must carry the shared token.
- **Session registry.** `DashboardData`: the live clients, an append-only
  history of which only a tail is shown, the screenshot cache and a status
  text.
- **Dispatch and routing.** Message or command dispatch on the `type` field,
  and the routes of `do_GET`.

## Modules

| module | what it holds |
|---|---|
| `Wrappers` | `Option` |
| `Bytes` | bytes, `int.from_bytes` / `to_bytes(4)`, the frame |
| `Json` | decoded JSON values, truthiness, `dict.get`, `str()`, the codec |
| `PyList` | `s[-n:]`, and the filtering comprehension used by the `remove_*` methods |
| `PyDict` | equalities of dict updates |
| `Socket` | one side of a connection (`Channel`) and `recv` |
| `Framing` | the two frame readers and `send_message`'s output |
| `Http` | `urlparse(...).path`, the route choice, `serve_screenshot` |
| `DashboardServer`, `PcDashboard`, `RemoteServer` | the three hubs |
| `Computer2Client` | the client |
| `Interop` | the client talking to the PC hub |

## How things are represented

**Bytes on the wire.** What the peer has sent but this side has not yet
read is a sequence of non-empty segments. One `recv(k)` returns at most `k`
bytes of the first segment. It returns the empty string once nothing is
left. Any way the network can chunk a stream is some segmentation. So a
property proved for all segmentations holds for every chunking `recv` can
produce. Writes go to `outbound`. `broken` stands for a reset connection,
on which every write raises.

**JSON.** JSON is a `Codec` pair: `dumps` stands for
`json.dumps(...).encode('utf-8')`, and `loads` for the decode-and-parse,
which may fail. The only thing assumed about it is `Lawful`:

- parsing what `dumps` wrote gives the value back;
- the empty text does not parse.

Python's `None` is `JNull`. A hub's client id is whatever JSON value the
`.get` returned. Ids that Python cannot use as dict keys (lists and dicts)
make the registration raise `TypeError`.

**Base64.** `base64.b64decode` (section 4 of RFC 4648) is a parameter that
returns either the bytes or None, where the library raises.

**Clock and screen.** Timestamps and screen captures are parameters.

**Locks.** Each `with self.lock:` method is one atomic method of a class.

## Model

| member | source | states |
|---|---|---|
| Bytes.ToBytes4 | dashboard_server.py:382 | the 4-byte big-endian header of a length below 2^32 reads back as that length |
| Bytes.FourBytesRoundTrip | dashboard_server.py:369 | every 4-byte header is the encoding of the number it reads as, and that number is below 2^32 |
| Bytes.Frame | dashboard_server.py:378-383 | a frame is 4 header bytes that read as the payload's length, followed by exactly the payload |
| Bytes.FlattenAppend | dashboard_server.py:355-361 | the bytes of two runs of segments are the bytes of each, in order |
| Json.PyStr | dashboard_server.py:44 | `str()` of a string id is the string itself; of a non-negative number, decimal digits that read back as it; of a negative one, '-' followed by the digits of its magnitude |
| Json.PyStrNumberInjective | dashboard_server.py:44 | two different numeric ids never give the same status text |
| Json.DecimalValue | dashboard_server.py:44 | the decimal text of a number reads back as that number |
| Json.DecimalInjective | dashboard_server.py:44 | two different numbers never print the same |
| Json.DumpsNonEmpty | pc_dashboard.py:278 | under a lawful codec, every serialised message is non-empty, since empty text does not parse |
| Json.StatusReply | dashboard_server.py:401-405 | the reply dict holds exactly `status` and, when given, `message`, with those values |
| PyList.Tail | dashboard_server.py:69 | for a window n > 0, as the hubs use, `s[-n:]` has min(n, len) elements, and they are the last ones of `s` in order |
| PyList.TailAppend | dashboard_server.py:38-43 | appending an event slides the shown window: the oldest shown event drops out once the window is full |
| PyList.TailOfLongAppend | dashboard_server.py:69 | after n or more new events, exactly the last n new events are shown |
| PyList.Without | dashboard_server.py:48-51 | no kept element has the key; every other element keeps its multiplicity; the list is no longer |
| PyList.WithoutAppend | dashboard_server.py:48-51 | the filter keeps order: it distributes over concatenation |
| PyList.WithoutNone | dashboard_server.py:48-51 | removing a key that no element has leaves the list unchanged |
| PyList.WithoutIdempotent | dashboard_server.py:48-51 | removing the same key twice is the same as removing it once |
| PyList.WithoutSnoc | dashboard_server.py:48-51 | removing the key of the element just appended removes every trace of that append |
| PyList.WithoutEmpty | dashboard_server.py:57 | the list becomes empty exactly when every element had the removed key |
| PyDict.OverwriteTwice | dashboard_server.py:62 | of two writes to the same key, the second wins |
| PyDict.SetThenDelete | dashboard_server.py:439-440 | inserting a key and then deleting it leaves the dict as deleting the key alone does |
| PyDict.DeleteAbsent | pc_dashboard.py:43-44 | deleting a key that is absent leaves the dict unchanged |
| Socket.RecvSpec | dashboard_server.py:357 | `recv(k)` returns at most k of the next bytes and leaves the rest in order; for k > 0 it returns empty exactly when the peer has closed and nothing is left |
| Socket.ReadExact | pc_dashboard.py:272-277 | reading leaves a valid segmentation |
| Socket.ReadExactBytes | pc_dashboard.py:272-277 | the `recv`-until-n loop yields exactly the next n bytes when the stream holds them, and otherwise fails having used everything up |
| Socket.ReadExactStep | pc_dashboard.py:273-277 | one non-empty chunk of at most the bytes still wanted moves from the stream to the end of the buffer without changing the outcome |
| Socket.PrefixedNothing | pc_dashboard.py:272 | with an empty buffer the outcome is the read itself |
| Socket.PrefixedDone | pc_dashboard.py:278 | once n bytes are collected, the buffer is the result and the stream is left as it is |
| Socket.Channel.constructor | dashboard_server.py:412 | a fresh connection with the given segments still to be read and nothing written |
| Socket.Channel.Recv | dashboard_server.py:357 | one `recv(k)`, as `RecvSpec` describes |
| Socket.Channel.SendAll | dashboard_server.py:382-383 | `sendall` writes all of the data, or raises on a reset connection; a reset is taken to come before the first byte, so nothing is written then |
| Socket.Channel.Send | remote_server.py:363 | `send` writes a prefix of the data, non-empty when the data is, or raises on a reset connection |
| Socket.Channel.Close | dashboard_server.py:443 | the connection is closed |
| Framing.ReadFramed | dashboard_server.py:363-376 | reading consumes a prefix of the stream, and every outcome other than None consumes at least a header and one payload byte |
| Framing.ReadFramedRoundTrip | dashboard_server.py:363-383 | `recv_message` on a frame written by `send_message` returns that message and consumes that frame and nothing more |
| Framing.ReadFramedHeaderEof | dashboard_server.py:366-368 | a stream that ends inside the header gives None and is used up |
| Framing.ReadFramedTruncated | dashboard_server.py:372-374 | a stream that ends inside the payload gives None and is used up |
| Framing.ReadFramedZeroLength | dashboard_server.py:372-374 | a zero-length payload gives None, because an empty bytearray is false, and only the header is consumed |
| Framing.ReadFramedOneRecv | pc_dashboard.py:266-280 | the single-`recv(4)` reader leaves a valid segmentation |
| Framing.ReadFramedOneRecvConsumes | pc_dashboard.py:266-280 | the single-`recv(4)` reader consumes a prefix of the stream, and a non-empty prefix whenever it returns a message |
| Framing.TailAfterHeader | pc_dashboard.py:268-277 | what is left after a non-empty header and the payload is a strictly shorter suffix of the stream |
| Framing.ReadFramedOneRecvRoundTrip | pc_dashboard.py:266-280 | when the header arrives in one piece, the frame's message is returned and exactly the bytes after the frame are left |
| Framing.ReadFramedOneRecvSplitHeader | pc_dashboard.py:268-271 | the single `recv(4)` is not retried: for any payload under 64 KiB, a header that arrives split after two bytes is read as length 0, gives None, and leaves the stream out of step with the frames |
| Framing.ReadFramedOneRecvZeroLength | pc_dashboard.py:278-280 | a zero-length frame gives None, because parsing empty text raises, and only the header is consumed |
| Framing.CollectPayload | pc_dashboard.py:272-277 | the payload loop reads what `ReadExact` reads: exactly n bytes, or None at the first empty chunk |
| Http.UrlPath | dashboard_server.py:83-84 | the path never contains a query or a fragment, and a ';' may remain only before the last '/' |
| Http.PrefixAvoids | dashboard_server.py:83 | a prefix that stops before the first occurrence of a character does not contain it |
| Http.PrefixKeepsOut | dashboard_server.py:83 | a prefix of a string lacks every character the string lacks |
| Http.UrlPathPlain | dashboard_server.py:83-84 | a target that is already a plain path is its own path |
| Http.UrlPathQuery | remote_server.py:94-95 | appending a query string does not change the path |
| Http.IndexOfAbsent | dashboard_server.py:83 | searching for a character that is absent runs to the end |
| Http.LastSegment | dashboard_server.py:91 | `split('/')[-1]` is the part after the last '/': a suffix without '/', preceded by '/' when shorter than the path |
| Http.RoutePerClient | dashboard_server.py:86-94 | '/' and '/api/status' match exactly; any path starting with '/api/screenshot/' is a screenshot of its last segment; every other path is 404 |
| Http.RoutePerClientScreenshot | pc_dashboard.py:78-80 | '/api/screenshot/<id>', for an id without '/', asks for exactly that id |
| Http.ScreenshotTargetRoute | pc_dashboard.py:70-80 | the screenshot URL of an id without '/', '?', '#' or ';' is routed to exactly that id |
| Http.RouteSingle | remote_server.py:93-104 | '/', '/api/status' and '/api/screenshot' each match exactly, and nothing else matches |
| Http.ServeCachedScreenshot | dashboard_server.py:335-351 | 404 exactly when the id has no cached frame; the image exactly when the cached value is a string that decodes; 500 in every other case |
| DashboardServer.DashboardData.constructor | dashboard_server.py:23-28 | no laptops, no history, an empty cache, and the status 'Waiting for connections' |
| DashboardServer.DashboardData.AddLaptop | dashboard_server.py:30-44 | appends exactly one entry, even for an id that is already live, and one 'connected' event; the status names the laptop; the cache is unchanged |
| DashboardServer.DashboardData.RemoveLaptop | dashboard_server.py:46-58 | removes every entry with the id and keeps the rest in order; always logs one 'disconnected' event; the status returns to waiting only when no laptop is left |
| DashboardServer.DashboardData.UpdateScreenshot | dashboard_server.py:60-62 | the frame cached for the id is replaced, and the other ids keep theirs |
| DashboardServer.DashboardData.GetStatus | dashboard_server.py:64-71 | the status and the live list as they are; the last min(20, len) history events in insertion order; exactly the cached ids |
| DashboardServer.RemoveTwice | dashboard_server.py:46-51 | a second removal of the same id leaves the live list unchanged |
| DashboardServer.AddThenRemove | dashboard_server.py:30-51 | connecting and then disconnecting leaves the live list as removing the id alone does |
| DashboardServer.RemoveEmptiesIff | dashboard_server.py:57-58 | the status returns to waiting exactly when every live entry had the removed id |
| DashboardServer.RecvAll | dashboard_server.py:353-361 | exactly the next n bytes when the stream holds them, with the rest left; otherwise None with the stream used up |
| DashboardServer.RecvMessage | dashboard_server.py:363-376 | returns or raises as `ReadFramed` says, and leaves the bytes it says |
| DashboardServer.SendMessage | dashboard_server.py:378-383 | writes the frame of the serialised message; raises when the length does not fit 4 bytes (writing nothing) or the connection is reset (taken to be before the header, so writing nothing) |
| DashboardServer.Decide | dashboard_server.py:393-404 | accepts exactly a non-empty dict whose token matches, under its 'laptop_id' or 'unknown'; refuses with an error reply exactly a non-empty dict with another token; anything else gets no reply |
| DashboardServer.AuthResultSpec | dashboard_server.py:393-410 | an id is returned only for a matching token, and then with the success reply frame; a token mismatch returns None after the error reply |
| DashboardServer.HandshakeOverWire | dashboard_server.py:363-410 | over the wire: the right token without 'laptop_id' is accepted as 'unknown' with a success reply; a wrong token is refused with an error reply |
| DashboardServer.Classify | dashboard_server.py:447-458 | screenshot exactly for type 'screenshot', carrying its 'data'; status exactly for type 'status' |
| DashboardServer.ApplySpec | dashboard_server.py:447-458 | only a 'screenshot' message changes the cache, storing its data under the sender; 'status' and unknown types change nothing |
| DashboardServer.SessionCacheStep | dashboard_server.py:427-433 | a decoded dict frame at the front of the stream is one step of the session loop |
| DashboardServer.ApplyScreenshot | dashboard_server.py:451-454 | a screenshot message stores its data under the sender's id |
| DashboardServer.SessionCacheAtEof | dashboard_server.py:429-431 | a closed connection leaves the cache as it is |
| DashboardServer.ScreenshotStreamStep | dashboard_server.py:427-433 | the first screenshot frame of a stream is stored, and the session goes on with the rest |
| DashboardServer.SessionKeepsLastScreenshot | dashboard_server.py:427-454 | a laptop that sends screenshot frames and then closes leaves exactly the last one cached under its id |
| DashboardServer.ConnectionListener.constructor | dashboard_server.py:387-391 | not running, with no laptop sockets |
| DashboardServer.ConnectionListener.AuthenticateLaptop | dashboard_server.py:393-410 | reads one frame and writes the reply of its decision; the id is None unless the token matched and the success reply went out |
| DashboardServer.ConnectionListener.ProcessLaptopMessage | dashboard_server.py:447-458 | raises exactly on a non-dict message; otherwise the cache changes only as `Apply` says, and nothing else changes |
| DashboardServer.ConnectionListener.MessageLoop | dashboard_server.py:426-436 | the loop leaves the cache as the session specification says and changes no other registry state and writes nothing |
| DashboardServer.ConnectionListener.ServeLaptop | dashboard_server.py:423-445 | registers the laptop, runs the loop, then removes the id from both the socket dict and the live list; logs one 'connected' and one 'disconnected' event; closes the socket |
| DashboardServer.ConnectionListener.Disconnect | dashboard_server.py:437-445 | the id leaves the socket dict and the live list; one 'disconnected' event; the cache is kept; the socket is closed |
| DashboardServer.ConnectionListener.HandleLaptop | dashboard_server.py:412-445 | a refused handshake closes the socket and registers nothing; an unhashable id crashes before registration; a served laptop ends deregistered, with both events logged and the cache as the session left it |
| DashboardServer.DoGet | dashboard_server.py:82-94 | the dashboard for '/', the status for '/api/status', 404 for any path no route matches |
| DashboardServer.DoGetScreenshot | dashboard_server.py:90-92 | the screenshot URL of a laptop id without special characters serves exactly that id's cached frame |
| PcDashboard.DashboardData.constructor | pc_dashboard.py:21-25 | no computers, no history, an empty cache |
| PcDashboard.DashboardData.AddComputer | pc_dashboard.py:27-39 | the entry for the id is set, replacing an earlier one; one 'connected' event per call; the cache is unchanged |
| PcDashboard.DashboardData.RemoveComputer | pc_dashboard.py:41-50 | the id is deleted when present and the other ids are untouched; one 'disconnected' event is always logged |
| PcDashboard.DashboardData.UpdateScreenshot | pc_dashboard.py:52-54 | the frame cached for the id is replaced |
| PcDashboard.DashboardData.GetStatus | pc_dashboard.py:56-62 | exactly the live entries; the last min(10, len) history events in order; exactly the cached ids |
| PcDashboard.ReAddReplaces | pc_dashboard.py:27-33 | adding an id twice leaves one entry, carrying the later address, and the same ids as adding it once |
| PcDashboard.RemoveAbsentUnchanged | pc_dashboard.py:43-44 | removing an id that is not live leaves the live computers unchanged |
| PcDashboard.AddThenRemove | pc_dashboard.py:27-50 | connecting and then disconnecting leaves the live computers as removing the id alone does |
| PcDashboard.Decide | pc_dashboard.py:296-302 | refuses exactly a missing or false message or a dict with another token; crashes on a true value that is not a dict; otherwise accepts under 'computer_id' or 'unknown' |
| PcDashboard.OutcomeOf | pc_dashboard.py:302-306 | the computer is served exactly when it is accepted with an id that can be a dict key |
| PcDashboard.Apply | pc_dashboard.py:314-315 | only a 'screenshot' message changes the cache, storing its 'data' under the sender |
| PcDashboard.ConnectionListener.constructor | pc_dashboard.py:260-264 | not running, with no computer sockets |
| PcDashboard.ConnectionListener.RecvMessage | pc_dashboard.py:266-280 | reads what the single-`recv(4)` reader reads: None on an empty header, on an early close or on a parse error, and otherwise the message |
| PcDashboard.ConnectionListener.SendMessage | pc_dashboard.py:282-290 | writes the frame and returns True; returns False for an oversized payload or a reset connection, a reset being taken to come before the header so nothing is written |
| PcDashboard.ConnectionListener.MessageLoop | pc_dashboard.py:308-317 | the loop leaves the cache as the session specification says and changes nothing else |
| PcDashboard.ConnectionListener.ServeComputer | pc_dashboard.py:305-325 | registers, runs the loop, then removes the id from both dicts; logs both events; closes the socket |
| PcDashboard.ConnectionListener.HandleComputer | pc_dashboard.py:292-325 | a refusal gets the error reply, closes the socket and registers nothing; a crash registers nothing; a served computer gets the success reply and ends deregistered, with the cache as the session left it |
| PcDashboard.DoGet | pc_dashboard.py:70-82 | the dashboard for '/', the status for '/api/status', 404 for any path no route matches |
| PcDashboard.DoGetScreenshot | pc_dashboard.py:78-80 | the screenshot URL of a computer id without special characters serves exactly that id's cached frame |
| RemoteServer.DashboardData.constructor | remote_server.py:31-36 | no clients, no history, status 'Offline', an empty slot |
| RemoteServer.DashboardData.AddClient | remote_server.py:38-50 | appends one entry and one 'connected' event; the status becomes 'Online - Client Connected'; the slot is unchanged |
| RemoteServer.DashboardData.RemoveClient | remote_server.py:52-64 | removes every entry with that address and keeps the rest in order; always logs one 'disconnected' event; the status returns to waiting only when no client is left |
| RemoteServer.DashboardData.UpdateScreenshot | remote_server.py:66-68 | the slot holds the new capture, even a None one |
| RemoteServer.DashboardData.SetServerOnline | remote_server.py:70-72 | the status becomes 'Online - Waiting for connection' |
| RemoteServer.DashboardData.GetStatus | remote_server.py:74-81 | the status and the list as they are; the last min(20, len) events in order; `has_screenshot` exactly when the slot is not None |
| RemoteServer.RemoveTwice | remote_server.py:52-56 | a second removal of the same address leaves the list unchanged |
| RemoteServer.AddThenRemove | remote_server.py:38-56 | connecting and then disconnecting leaves the list as removing the address alone does |
| RemoteServer.RemoveKeepsOthers | remote_server.py:52-56 | removing an address no entry has leaves the list exactly as it was |
| RemoteServer.DecideAuth | remote_server.py:358-364 | a match exactly for a parsed dict with the right token; a mismatch exactly for a parsed dict with another token |
| RemoteServer.ScreenReply | remote_server.py:413-417 | the reply holds exactly 'type' = 'screen', the captured data (None when there is none) and the timestamp |
| RemoteServer.Dispatch | remote_server.py:406-431 | each type selects its call: x and y for a move or click, a button defaulting to 'left', a key for a key press; any other type is unknown |
| RemoteServer.ClickDefaultsToLeft | remote_server.py:424-427 | a click without 'button' is a left click |
| RemoteServer.RemoteServer.constructor | remote_server.py:339-343 | the server works on the shared dashboard |
| RemoteServer.RemoteServer.AuthenticateClient | remote_server.py:355-372 | True exactly when the first chunk parses to a dict with the right token and the success reply's send succeeds; a mismatch writes the error reply; an unparsable chunk writes nothing |
| RemoteServer.RemoteServer.ProcessCommand | remote_server.py:406-431 | 'get_screen' stores the capture in the slot and writes the screen reply; the other types make their call and write nothing; no other registry state changes |
| RemoteServer.ServeScreenshot | remote_server.py:324-336 | 404 exactly when the slot is None or empty; the image exactly when it decodes; no response at all when decoding raises |
| RemoteServer.DoGet | remote_server.py:93-104 | exactly the three routes, and 404 for every other path |
| RemoteServer.DoGetScreenshotWithQuery | remote_server.py:93-104 | '/api/screenshot' with a query string is still the screenshot |
| Computer2Client.AuthMessage | computer2_client.py:149-152 | the auth message holds exactly the token and the computer name |
| Computer2Client.AcceptedIff | computer2_client.py:158-160 | accepted exactly when the reply is a dict whose 'status' is 'success'; never for None or a false value |
| Computer2Client.ScreenshotMessage | computer2_client.py:116-121 | the message holds exactly type 'screenshot', the computer name, the data and the timestamp |
| Computer2Client.StreamSendsScreenshots | computer2_client.py:111-124 | the loop sends at most one message per tick, and each one is a screenshot message that fits a frame |
| Computer2Client.StreamBrokenSendsNothing | computer2_client.py:123-124 | on a reset connection nothing is sent |
| Computer2Client.StreamWithoutCapturesSendsNothing | computer2_client.py:114-115 | ticks without a capture send nothing and never end the loop |
| Computer2Client.StreamFailsIff | computer2_client.py:123-124 | the loop stops early exactly when some capture could not be sent |
| Computer2Client.StreamSendsEveryCapture | computer2_client.py:111-124 | when every capture is present and fits, each tick sends exactly its own screenshot message, in order |
| Computer2Client.ConnectionWindow.constructor | computer2_client.py:48-49 | not running, with no socket |
| Computer2Client.ConnectionWindow.SendMessage | computer2_client.py:75-85 | writes the frame and returns True; returns False without a socket, for an oversized payload or on a reset connection, a reset being taken to come before the header so nothing is written |
| Computer2Client.ConnectionWindow.RecvMessage | computer2_client.py:87-107 | reads what the single-`recv(4)` reader reads, and None without a socket |
| Computer2Client.ConnectionWindow.StartConnection | computer2_client.py:135-179 | sends the auth message and reads one reply; streaming starts exactly when the send worked and the reply is an acceptance; otherwise the socket is closed and dropped |
| Computer2Client.ConnectionWindow.StopConnection | computer2_client.py:181-194 | not running; the socket, if any, is closed and dropped |
| Computer2Client.ConnectionWindow.OnConnectionLost | computer2_client.py:196-203 | not running; the socket is dropped without being closed |
| Computer2Client.ConnectionWindow.ConnectionLoop | computer2_client.py:109-133 | writes the frames of exactly the messages the stream specification sends; ends exactly at a failed send, and then hands over to `OnConnectionLost` |
| Interop.WireSegmentsAreTheStream | computer2_client.py:80-81 | the header and payload pieces of the client's two `sendall` calls are non-empty and carry exactly the bytes it wrote |
| Interop.PcReadsSplitFrame | pc_dashboard.py:266-280 | the PC hub reads the client's frame with header and payload arriving apart, returns the message, and leaves the rest of the stream as it was |
| Interop.PcReadsJoinedFrame | pc_dashboard.py:266-280 | the same when header and payload arrive joined in one piece |
| Interop.PcSessionStep | pc_dashboard.py:308-315 | one client screenshot message read by the hub stores its data under the session's id |
| Interop.PcSessionKeepsLastScreenshot | pc_dashboard.py:308-315 | after a run of client screenshot messages, the hub caches exactly the data of the last one under the session's id |
| Interop.ClientStreamReachesPcCache | computer2_client.py:109-124 | what a client streaming session sends leaves the PC hub caching the last screenshot it sent, under the client's name; nothing sent leaves the cache as it was |
| Interop.DefaultTokensRefused | computer2_client.py:20 | with the tokens the two programs ship with, the PC hub refuses the client |
| Interop.MatchingTokenAccepted | pc_dashboard.py:296-306 | a client configured with the hub's token is accepted and served under its computer name |
| Interop.PcRepliesUnderstood | computer2_client.py:158-160 | the client accepts the hub's success reply and not its error reply |
| Interop.HandshakeReplyReadByClient | computer2_client.py:157-160 | the hub's reply frame, read by the client, is an acceptance exactly when the hub accepted |

## Left out

- JSON text and base64 internals: the codec and the decoder are parameters. Only `Lawful` is assumed of the codec, and the decoder has no property at all.
- JSON numbers are integers: floats, NaN and Python's `True == 1` dict-key collision are not modelled.
- Http.UrlPath: only targets without a scheme are modelled (what `BaseHTTPRequestHandler` passes in origin form). Two steps of `urlsplit` are left out: stripping leading C0 control characters and spaces, and deleting tab, CR and LF anywhere in the target. So a target such as "\x01/api/status", which Python routes to the status, is routed to 404 by the model.
- PcDashboard.DashboardData.GetStatus: returns the live entries and the screenshot ids as sets, because their list order is the dict's insertion order, which the model does not keep.
- DashboardServer.DashboardData.GetStatus: returns the screenshot ids as a set, for the same reason; the order of `list(self.last_screenshots.keys())` is not captured.
- DashboardServer.DashboardData.AddLaptop: its two `datetime.now()` calls are one `now` parameter, so the entry's time and the event's time are equal. PcDashboard.DashboardData.AddComputer merges its two calls the same way. Every other clock read is also a parameter.
- Socket.Channel.SendAll: `broken` is fixed when the connection is built, so a reset never comes in the middle of a `sendall` or between two of them. In the source, a failed `sendall` may already have written part of its data, and a reset between the header and the payload leaves the header on the wire.
- DashboardServer.SendMessage: a reset is taken to write nothing, so the outcome where the header is sent and the payload then fails is not modelled.
- PcDashboard.ConnectionListener.SendMessage: likewise, False always comes with nothing written, while the source can return False with the header, or part of a frame, already on the wire.
- Computer2Client.ConnectionWindow.SendMessage: likewise, False always comes with nothing written, while the source can return False after a partial frame.
- A connection reset while reading is treated as the end of the stream. Every reader reacts to both in the same way: None, or an exception caught into None.
- Threads and locks: each locked method is atomic. `running` is never changed by another thread during a loop.
- TLS, real sockets, bind/listen/accept loops, `settimeout`, the HTTP server plumbing, headers and the HTML pages are left out. A route's answer is a `Response` value.
- `remote_server.py`'s `handle_client` loop and its `clients` list are left out. The loop splits raw `recv(4096)` chunks with no message boundaries, so only `process_command` is modelled.
- windows_impl.py: its calls are the `call` result of `RemoteServer.RemoteServer.ProcessCommand`, and a capture is a parameter. They have no effect on registry state.
- Computer2Client: the Tkinter window, `on_closing`, `run` and `capture_screen` are left out. A capture is a tick's parameter. As written, `capture_screen` refers to `Image`, which the file does not import, so it would always take its `except` branch. That makes every tick one without a capture (`Computer2Client.StreamWithoutCapturesSendsNothing`).
- Computer2Client.ConnectionWindow.StartConnection: it starts from a connected socket. A failed `connect()` is not modelled, nor is the thread start; `ConnectionLoop` is a separate call.
- Computer2Client.ConnectionWindow.ConnectionLoop: it runs over a finite sequence of ticks. A run that is still going at the end of the ticks reports that it has not ended.
- `Framing.CollectPayload` is the single model of the payload loop that pc_dashboard.py and computer2_client.py both contain.
- laptop_client.py, remote_client.py, build_exe.py, setup.py, generate_certs.py and test_installation.py are not part of this model.
