# Chat-event connectors: a Dafny model

This project models the connection and dispatch core of the chat overlay's
networking utilities (`src/utils/networking-utils.ts`). Two connectors reach
the same chat-event service. The stream connector uses server-sent events.
The socket connector uses a web socket and authenticates by sending a token
frame once the socket opens. Both decode each inbound envelope and route it
to at most one consumer callback.

The model has three parts:

- `Routing` (routing.dfy): the decoded envelope (`Auth`; `Irc` with a
  nested `irc_type` tag and an opaque payload; or `Other` for an
  `event_type` the switch has no case for), the callback invocations
  (`Action`), and the message switch `Route` that both connectors share.
  `RouteAll` routes a run of messages in arrival order. Lemmas prove that
  onChat and onClearChat fire once per matching envelope, with its payload,
  in order, and that every other envelope fires nothing.
- `Urls` (urls.dfy): the two endpoint templates, and parsers that serve as
  their inverses. The parsers show that each address carries exactly the
  parts it is built from. The stream address carries the token; the socket
  address is built from host and port alone.
- `Connectors` (connectors.dfy): one class per connector. Each handler is a
  method, and the transport calls the handlers one at a time in arrival
  order. A connector keeps a `trace` of invoked callbacks, the frames it has
  `sent` (socket only) and a `closed` flag (set when the connector closes its
  own transport). A ghost `log` keeps all of these effects in one
  interleaved sequence. `Valid()` ties the fields to the log and states the
  ordering invariants: the stream closes only right after reporting an
  error, and the socket's only frame is the auth frame, sent immediately
  before each connect callback. Scenario methods drive fresh connectors
  through whole lifecycles.

`wrappers.dfy` holds the `Option` type.

Abstractions:

- The consumer callbacks are not functions. Calling one appends an
  `Action` to `trace`.
- The payload types `IRCData` and `IRCEventClearChatData` are declared in
  `twitch-chat-utils.ts`, which is not part of this model. Both are the
  type parameter `D`.
- Raw transport events (`Event`, `CloseEvent`) are the type parameter `E`.
- `JSON.stringify({ token })` is the abstract frame `AuthFrame(token)`.
- The message handlers take an already-decoded `Envelope`.

## Model

| member | source | states |
|---|---|---|
| `Routing.Route` | src/utils/networking-utils.ts:69-87 | a callback is chosen exactly when the envelope is irc with tag PrivateMessage or ClearChatMessage; it is onChat for PrivateMessage and onClearChat for ClearChatMessage, and it receives the envelope's irc_data |
| `Routing.RouteTrace` | src/utils/networking-utils.ts:69-87 | one message adds at most one invocation to the trace, and none exactly when the switch selects no callback |
| `Routing.PrivateMessageInvokesOnChat` | src/utils/networking-utils.ts:73-77 | a PrivateMessage envelope adds exactly `[Chat(irc_data)]`: onChat once, nothing else |
| `Routing.ClearChatMessageInvokesOnClearChat` | src/utils/networking-utils.ts:80-82 | a ClearChatMessage envelope adds exactly `[ClearChat(irc_data)]`: onClearChat once, nothing else |
| `Routing.OtherEnvelopesInvokeNothing` | src/utils/networking-utils.ts:69-87 | auth, PingMessage, PongMessage, every irc_type without a case and every event_type other than auth and irc (neither switch has a default branch) add nothing to the trace |
| `Routing.RouteAll` | src/utils/networking-utils.ts:62-95 | a run of messages yields at most one invocation per message, and each is onChat or onClearChat |
| `Routing.RouteAllAppend` | src/utils/networking-utils.ts:62-95 | routing a run is routing its parts in order: no invocation is reordered, lost or duplicated |
| `Routing.OneInvocationPerRoutedMessage` | src/utils/networking-utils.ts:73-82 | over any run, the payloads passed to onChat (or onClearChat) are exactly those of the PrivateMessage (or ClearChatMessage) envelopes, in arrival order |
| `Urls.SseUrl` | src/utils/networking-utils.ts:33 | the stream address starts with `http://`, ends with the token, and has the template's length |
| `Urls.WsUrl` | src/utils/networking-utils.ts:120 | the socket address starts with `ws://`, ends with `/v1/subscribe`, and takes no token |
| `Urls.SseUrlRoundTrip` | src/utils/networking-utils.ts:33 | parsing the stream address gives back host, port and token, whenever the host has no ':' and the port no '/' |
| `Urls.ParseSseUrlSound` | src/utils/networking-utils.ts:33 | every address the stream parser accepts is exactly `http://host:port/v1/sse?token=token` for the parts it returns |
| `Urls.WsUrlRoundTrip` | src/utils/networking-utils.ts:120 | parsing the socket address gives back host and port under the same condition |
| `Urls.ParseWsUrlSound` | src/utils/networking-utils.ts:120 | every address the socket parser accepts is exactly `ws://host:port/v1/subscribe` for the parts it returns |
| `Urls.SseUrlDeterminesToken` | src/utils/networking-utils.ts:33 | for a fixed host and port, two tokens give equal stream addresses exactly when the tokens are equal |
| `Connectors.SseConnector.constructor` | src/utils/networking-utils.ts:33-39 | the stream opens at `SseUrl(host, port, token)`, with an empty trace, not closed |
| `Connectors.SseConnector.OnError` | src/utils/networking-utils.ts:47-53 | the trace gains exactly `[Error(e)]`, the log records the error callback followed by the close, and the connector is closed afterwards |
| `Connectors.SseConnector.OnOpen` | src/utils/networking-utils.ts:55-60 | the trace gains exactly `[Connect(e)]` and the closed flag does not change |
| `Connectors.SseConnector.OnMessage` | src/utils/networking-utils.ts:62-95 | the trace gains exactly the envelope's routed invocation (`RouteTrace`) and the closed flag does not change |
| `Connectors.WsConnector.constructor` | src/utils/networking-utils.ts:120 | the socket opens at `WsUrl(host, port)`, which does not depend on the token, with empty trace and outbound frames |
| `Connectors.WsConnector.OnOpen` | src/utils/networking-utils.ts:165-173 | exactly one frame, `AuthFrame(token)`, is sent; the trace gains exactly `[Connect(e)]`; the log places the send immediately before the connect callback |
| `Connectors.WsConnector.OnClose` | src/utils/networking-utils.ts:122-124 | the trace gains exactly `[Close(e)]`; no frame is sent and the closed flag does not change |
| `Connectors.WsConnector.OnError` | src/utils/networking-utils.ts:126-128 | the trace gains exactly `[Error(e)]`; no frame is sent and the socket is not closed |
| `Connectors.WsConnector.OnMessage` | src/utils/networking-utils.ts:130-163 | the trace gains exactly the envelope's routed invocation (`RouteTrace`); no frame is sent and the closed flag does not change |
| `Connectors.SameRoutingOnBothTransports` | src/utils/networking-utils.ts:62-163 | fed the same envelope, the stream and socket connectors produce the same trace, namely `RouteTrace(env)` |
| `Connectors.StreamChatScenario` | src/utils/networking-utils.ts:23-95 | with host "x", port "8080" and token "t1", the address is `http://x:8080/v1/sse?token=t1`, and one PrivateMessage invokes onChat once with its payload |
| `Connectors.StreamErrorScenario` | src/utils/networking-utils.ts:47-60 | a stream that opens and then fails reports `[Connect, Error]` and ends closed |
| `Connectors.SocketLifecycleScenario` | src/utils/networking-utils.ts:101-173 | a socket that opens, receives a message, fails and closes sends exactly `[AuthFrame(token)]`, reports `[Connect] + RouteTrace(env) + [Error, Close]`, and is never closed by the connector |

## Left out

- Creating the `EventSource` and `WebSocket`, registering the listeners, and delivering events asynchronously. These are browser primitives and the event loop. The handler methods are called in arrival order instead.
- Handlers can still be called after the stream connector has closed its transport. A real `EventSource` delivers no more events after `close()`; that guarantee belongs to the browser and is not modelled.
- The socket's own open/closed state is not modelled. `closed` records only whether the connector closed its transport, and this one never does, so a close event leaves `closed` false.
- `JSON.parse` and `JSON.stringify` are library calls. The handlers take a decoded `Envelope`, and the auth frame is the abstract `AuthFrame(token)`. The source does not catch two kinds of bad payload, and the model adds no error path for either. Text that is not JSON makes `JSON.parse` throw. JSON with the wrong shape, such as `{"event_type":"irc"}` without `event_data`, throws a TypeError when the switch reads `event_data.irc_type`. For the same reason, an encode/decode round trip of envelopes is not modelled.
- The consumer callbacks are modelled as trace entries, so they always return. In the source a callback may throw, and then the rest of that handler does not run.
- `Connectors.SseConnector.OnError`: "closed afterwards" holds only when `onError` returns normally. If `onError` throws, `eventSource.close()` is never reached.
- Debug mode (`debugModeFromURL`), all `console.log`/`console.error` tracing and the debug-only `ping` listener are left out. They only affect output, not control flow. Three of these log lines expose the token: the socket's connection message and its auth-frame message print it, and the stream's connection message prints the stream address, which contains it.
- `AbstractrrrHealthResponse` is a type declaration with no behaviour.
- The stream connector has no `sent` field. Server-sent events are one-way, and `Valid()` states that its log holds no frame.
- The address templates do not percent-encode anything. A token containing `#`, `&` or `%` reaches a real URL reader altered. The parsers here are plain string splits, so "each address carries exactly the parts it is built from" holds for them only, not for standard URL parsing.
- `Urls.SseUrlRoundTrip`, `Urls.WsUrlRoundTrip`: proved only for hosts without ':' and ports without '/'. Other values make the address ambiguous to parse back; the template builds them all the same.
