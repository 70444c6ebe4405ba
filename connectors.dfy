/**
 The two connectors and their event handlers. Each connector object stands
 for one connection attempt: the transport delivers events one at a time,
 in arrival order, and each delivery is one call of a handler method, which
 runs to completion. A connector records what its handlers do:
   - trace:  the consumer callbacks invoked, in order;
   - sent:   the frames written to the socket (web-socket connector only);
   - closed: whether the connector closed its own transport.
 The ghost `log` keeps all of these effects in one interleaved sequence, so
 that the order between a send, a callback and a close can be stated.
 */
module Connectors {
  import opened Routing
  import opened Urls

  /** The caller's configuration; the five callback slots are the trace. */
  datatype ConnectionConfig = ConnectionConfig(port: string, token: string, host: string)

  /** An outbound socket frame. The only one ever written is the
      authentication frame, the JSON object {"token": token}. */
  datatype Frame = AuthFrame(token: string)

  /** One observable effect of a handler. */
  datatype Effect<D, E> =
    | Invoke(action: Action<D, E>)
    | Send(frame: Frame)
    | CloseTransport

  /** The callback invocations of a log, in order. */
  function Invocations<D, E>(log: seq<Effect<D, E>>): (t: seq<Action<D, E>>)
    ensures |t| <= |log|
  {
    if log == [] then []
    else
      var prefix := Invocations(log[..|log| - 1]);
      if log[|log| - 1].Invoke? then prefix + [log[|log| - 1].action] else prefix
  }

  /** The frames sent in a log, in order. */
  function Frames<D, E>(log: seq<Effect<D, E>>): (f: seq<Frame>)
    ensures |f| <= |log|
  {
    if log == [] then []
    else
      var prefix := Frames(log[..|log| - 1]);
      if log[|log| - 1].Send? then prefix + [log[|log| - 1].frame] else prefix
  }

  predicate ClosesTransport<D, E>(log: seq<Effect<D, E>>) {
    exists i :: 0 <= i < |log| && log[i].CloseTransport?
  }

  /** The effects of invoking the callbacks of `t`, one after another. */
  function InvokeAll<D, E>(t: seq<Action<D, E>>): (log: seq<Effect<D, E>>)
    ensures |log| == |t|
    ensures forall i :: 0 <= i < |t| ==> log[i] == Invoke(t[i])
  {
    if t == [] then [] else InvokeAll(t[..|t| - 1]) + [Invoke(t[|t| - 1])]
  }

  lemma {:induction false} InvocationsAppend<D, E>(a: seq<Effect<D, E>>, b: seq<Effect<D, E>>)
    ensures Invocations(a + b) == Invocations(a) + Invocations(b)
  {
    if b == [] {
      assert a + b == a;
    } else {
      var last := |b| - 1;
      assert (a + b)[..|a + b| - 1] == a + b[..last];
      InvocationsAppend(a, b[..last]);
    }
  }

  lemma {:induction false} FramesAppend<D, E>(a: seq<Effect<D, E>>, b: seq<Effect<D, E>>)
    ensures Frames(a + b) == Frames(a) + Frames(b)
  {
    if b == [] {
      assert a + b == a;
    } else {
      var last := |b| - 1;
      assert (a + b)[..|a + b| - 1] == a + b[..last];
      FramesAppend(a, b[..last]);
    }
  }

  /** Invoking callbacks adds exactly those callbacks to the trace and sends
      nothing. */
  lemma {:induction false} InvokeAllEffects<D, E>(t: seq<Action<D, E>>)
    ensures Invocations(InvokeAll(t)) == t
    ensures Frames(InvokeAll(t)) == []
  {
    if t != [] {
      var init := t[..|t| - 1];
      InvokeAllEffects(init);
      InvocationsAppend(InvokeAll(init), [Invoke(t[|t| - 1])]);
      FramesAppend(InvokeAll(init), [Invoke(t[|t| - 1])]);
      assert init + [t[|t| - 1]] == t;
    }
  }

  /** Stream connector: the transport closes only right after the error
      callback has been invoked. */
  ghost predicate ClosesOnlyAfterError<D, E>(log: seq<Effect<D, E>>) {
    forall i :: 0 <= i < |log| && log[i].CloseTransport? ==>
      0 < i && log[i - 1].Invoke? && log[i - 1].action.Error?
  }

  /** Socket connector: every frame is the authentication frame for `token`
      and is immediately followed by the connect callback, and every connect
      callback immediately follows such a frame. */
  ghost predicate AuthPrecedesConnect<D, E>(log: seq<Effect<D, E>>, token: string) {
    && (forall i :: 0 <= i < |log| && log[i].Send? ==>
          log[i].frame == AuthFrame(token) && i + 1 < |log| && log[i + 1].Invoke? && log[i + 1].action.Connect?)
    && (forall i :: 0 <= i < |log| && log[i].Invoke? && log[i].action.Connect? ==>
          0 < i && log[i - 1] == Send(AuthFrame(token)))
  }

  /** The server-sent-events connector. No close callback is wired on this
      transport, and the stream is one-way, so it never sends a frame. */
  class SseConnector<D, E> {
    const config: ConnectionConfig
    const url: string
    var trace: seq<Action<D, E>>
    var closed: bool
    ghost var log: seq<Effect<D, E>>

    ghost predicate Valid()
      reads this
    {
      && url == SseUrl(config.host, config.port, config.token)
      && trace == Invocations(log)
      && Frames(log) == []
      && closed == ClosesTransport(log)
      && ClosesOnlyAfterError(log)
    }

    /** Opens the stream at the address built from the configuration. */
    constructor (config: ConnectionConfig)
      ensures Valid()
      ensures this.config == config
      ensures url == SseUrl(config.host, config.port, config.token)
      ensures trace == [] && !closed && log == []
    {
      this.config := config;
      url := SseUrl(config.host, config.port, config.token);
      trace := [];
      closed := false;
      log := [];
    }

    /** `onerror`: report the error, then close the stream. */
    method OnError(event: E)
      requires Valid()
      modifies this
      ensures Valid()
      ensures log == old(log) + [Invoke(Error(event)), CloseTransport]
      ensures trace == old(trace) + [Error(event)]
      ensures closed
    {
      ghost var effects := [Invoke(Error(event)), CloseTransport];
      InvocationsAppend(log, effects);
      FramesAppend(log, effects);
      assert effects[..1] == [Invoke(Error(event))];
      log := log + effects;
      trace := trace + [Error(event)];
      closed := true;
      assert log[|log| - 1].CloseTransport?;
    }

    /** `onopen`: report the connection. */
    method OnOpen(event: E)
      requires Valid()
      modifies this
      ensures Valid()
      ensures log == old(log) + [Invoke(Connect(event))]
      ensures trace == old(trace) + [Connect(event)]
      ensures closed == old(closed)
    {
      Report(Connect(event));
    }

    /** The "message" listener, fed the decoded envelope. */
    method OnMessage(env: Envelope<D>)
      requires Valid()
      modifies this
      ensures Valid()
      ensures log == old(log) + InvokeAll(RouteTrace(env))
      ensures trace == old(trace) + RouteTrace(env)
      ensures closed == old(closed)
    {
      match Route<D, E>(env)
      case None =>
      case Some(a) =>
        Report(a);
        assert InvokeAll(RouteTrace<D, E>(env)) == [Invoke(a)];
    }

    /** Invokes one callback. */
    method Report(a: Action<D, E>)
      requires Valid()
      modifies this
      ensures Valid()
      ensures log == old(log) + [Invoke(a)]
      ensures trace == old(trace) + [a]
      ensures closed == old(closed)
    {
      InvocationsAppend(log, [Invoke(a)]);
      FramesAppend(log, [Invoke(a)]);
      log := log + [Invoke(a)];
      trace := trace + [a];
      assert closed == ClosesTransport(log) by {
        assert forall i :: 0 <= i < |old(log)| ==> log[i] == old(log)[i];
      }
    }
  }

  /** The web-socket connector. It never closes its socket itself. */
  class WsConnector<D, E> {
    const config: ConnectionConfig
    const url: string
    var trace: seq<Action<D, E>>
    var sent: seq<Frame>
    var closed: bool
    ghost var log: seq<Effect<D, E>>

    ghost predicate Valid()
      reads this
    {
      && url == WsUrl(config.host, config.port)
      && trace == Invocations(log)
      && sent == Frames(log)
      && closed == ClosesTransport(log)
      && !closed
      && AuthPrecedesConnect(log, config.token)
    }

    /** Opens the socket at the address built from host and port. */
    constructor (config: ConnectionConfig)
      ensures Valid()
      ensures this.config == config
      ensures url == WsUrl(config.host, config.port)
      ensures trace == [] && sent == [] && !closed && log == []
    {
      this.config := config;
      url := WsUrl(config.host, config.port);
      trace := [];
      sent := [];
      closed := false;
      log := [];
    }

    /** The "open" listener: send the authentication frame, then report the
        connection. */
    method OnOpen(event: E)
      requires Valid()
      modifies this
      ensures Valid()
      ensures log == old(log) + [Send(AuthFrame(config.token)), Invoke(Connect(event))]
      ensures sent == old(sent) + [AuthFrame(config.token)]
      ensures trace == old(trace) + [Connect(event)]
      ensures closed == old(closed)
    {
      ghost var effects := [Send(AuthFrame(config.token)), Invoke(Connect(event))];
      InvocationsAppend(log, effects);
      FramesAppend(log, effects);
      assert effects[..1] == [Send(AuthFrame(config.token))];
      log := log + effects;
      sent := sent + [AuthFrame(config.token)];
      assert !ClosesTransport(log) by {
        assert forall i :: 0 <= i < |old(log)| ==> log[i] == old(log)[i];
      }
      trace := trace + [Connect(event)];
    }

    /** The "close" listener: forward the event. */
    method OnClose(event: E)
      requires Valid()
      modifies this
      ensures Valid()
      ensures log == old(log) + [Invoke(Close(event))]
      ensures trace == old(trace) + [Close(event)]
      ensures sent == old(sent) && closed == old(closed)
    {
      Forward(Close(event));
    }

    /** The "error" listener: forward the event; the socket stays open. */
    method OnError(event: E)
      requires Valid()
      modifies this
      ensures Valid()
      ensures log == old(log) + [Invoke(Error(event))]
      ensures trace == old(trace) + [Error(event)]
      ensures sent == old(sent) && closed == old(closed)
    {
      Forward(Error(event));
    }

    /** The "message" listener, fed the decoded envelope. */
    method OnMessage(env: Envelope<D>)
      requires Valid()
      modifies this
      ensures Valid()
      ensures log == old(log) + InvokeAll(RouteTrace(env))
      ensures trace == old(trace) + RouteTrace(env)
      ensures sent == old(sent) && closed == old(closed)
    {
      match Route<D, E>(env)
      case None =>
      case Some(a) =>
        Forward(a);
        assert InvokeAll(RouteTrace<D, E>(env)) == [Invoke(a)];
    }

    /** Invokes one callback other than connect. */
    method Forward(a: Action<D, E>)
      requires Valid()
      requires !a.Connect?
      modifies this
      ensures Valid()
      ensures log == old(log) + [Invoke(a)]
      ensures trace == old(trace) + [a]
      ensures sent == old(sent) && closed == old(closed)
    {
      InvocationsAppend(log, [Invoke(a)]);
      FramesAppend(log, [Invoke(a)]);
      log := log + [Invoke(a)];
      trace := trace + [a];
      assert !ClosesTransport(log) by {
        assert forall i :: 0 <= i < |old(log)| ==> log[i] == old(log)[i];
      }
    }
  }

  /** Both connectors feed an inbound message through the same switch: on a
      fresh connection, one envelope yields the same trace on either. */
  method SameRoutingOnBothTransports<D, E>(config: ConnectionConfig, env: Envelope<D>)
    returns (sseTrace: seq<Action<D, E>>, wsTrace: seq<Action<D, E>>)
    ensures sseTrace == wsTrace == RouteTrace(env)
  {
    var sse := new SseConnector<D, E>(config);
    var ws := new WsConnector<D, E>(config);
    sse.OnMessage(env);
    ws.OnMessage(env);
    sseTrace, wsTrace := sse.trace, ws.trace;
  }

  /** A stream connection to host "x", port "8080" with token "t1" that
      receives one PrivateMessage invokes onChat once with its payload. */
  method StreamChatScenario<D, E>(payload: D) returns (url: string, trace: seq<Action<D, E>>)
    ensures url == "http://x:8080/v1/sse?token=t1"
    ensures trace == [Chat(payload)]
  {
    assert SseUrl("x", "8080", "t1") == "http://x:8080/v1/sse?token=t1";
    var sse := new SseConnector<D, E>(ConnectionConfig("8080", "t1", "x"));
    sse.OnMessage(Irc(IrcEventData(PrivateMessageTag, payload)));
    url, trace := sse.url, sse.trace;
  }

  /** A stream connection that opens and then fails reports both events and
      ends closed. */
  method StreamErrorScenario<D, E>(config: ConnectionConfig, openEvent: E, failed: E)
    returns (trace: seq<Action<D, E>>, closed: bool)
    ensures trace == [Connect(openEvent), Error(failed)]
    ensures closed
  {
    var sse := new SseConnector<D, E>(config);
    sse.OnOpen(openEvent);
    sse.OnError(failed);
    trace, closed := sse.trace, sse.closed;
  }

  /** A socket connection that opens, receives one message, fails and is
      closed: exactly one frame, the authentication frame, goes out; the
      callbacks follow the events; the connector itself never closes it. */
  method SocketLifecycleScenario<D, E>(config: ConnectionConfig, openEvent: E, env: Envelope<D>, failed: E, shut: E)
    returns (sent: seq<Frame>, trace: seq<Action<D, E>>, closed: bool)
    ensures sent == [AuthFrame(config.token)]
    ensures trace == [Connect(openEvent)] + RouteTrace(env) + [Error(failed), Close(shut)]
    ensures !closed
  {
    var ws := new WsConnector<D, E>(config);
    ws.OnOpen(openEvent);
    ws.OnMessage(env);
    ws.OnError(failed);
    ws.OnClose(shut);
    sent, trace, closed := ws.sent, ws.trace, ws.closed;
  }
}
