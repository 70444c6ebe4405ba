/**
 The shared decode-and-route logic of both chat connectors: an inbound
 envelope, already decoded from its JSON text, is mapped to at most one
 consumer callback. The same switch is written out in the stream connector
 and in the socket connector; here it is one function, `Route`.
 */
module Routing {
  import opened Wrappers

  /** The four irc_type tags the router has a case for. */
  const PrivateMessageTag: string := "PrivateMessage"
  const PingMessageTag: string := "PingMessage"
  const ClearChatMessageTag: string := "ClearChatMessage"
  const PongMessageTag: string := "PongMessage"

  /** The event_data of an irc envelope: the nested tag and its payload,
      whose shape the router never looks at. */
  datatype IrcEventData<D> = IrcEventData(ircType: string, ircData: D)

  /** A decoded wire envelope, discriminated by its event_type. `Other`
      stands for an event_type the switch has no case for. */
  datatype Envelope<D> =
    | Auth
    | Irc(eventData: IrcEventData<D>)
    | Other(eventType: string)

  /** One invocation of a consumer callback. `D` is the chat payload type,
      `E` the type of the raw transport events. */
  datatype Action<D, E> =
    | Chat(ircData: D)        // onChat
    | ClearChat(ircData: D)   // onClearChat
    | Connect(event: E)       // onConnect
    | Error(event: E)         // onError
    | Close(event: E)         // onClose
  {
    /** The callbacks an inbound message can reach. */
    predicate IsDataCallback() {
      Chat? || ClearChat?
    }
  }

  /** True when `env` is an irc envelope carrying the nested tag `tag`. */
  predicate HasIrcType<D>(env: Envelope<D>, tag: string) {
    env.Irc? && env.eventData.ircType == tag
  }

  /** The message switch: auth, PingMessage, PongMessage and every tag the
      switch has no case for do nothing; PrivateMessage and ClearChatMessage
      invoke their callback with the nested payload. */
  function Route<D, E>(env: Envelope<D>): (r: Option<Action<D, E>>)
    ensures r.Some? <==> HasIrcType(env, PrivateMessageTag) || HasIrcType(env, ClearChatMessageTag)
    ensures r.Some? ==> r.value.IsDataCallback() && r.value.ircData == env.eventData.ircData
    ensures r.Some? ==> (r.value.Chat? <==> HasIrcType(env, PrivateMessageTag))
  {
    match env
    case Auth => None
    case Other(_) => None
    case Irc(data) =>
      if data.ircType == PrivateMessageTag then Some(Chat(data.ircData))
      else if data.ircType == PingMessageTag then None
      else if data.ircType == ClearChatMessageTag then Some(ClearChat(data.ircData))
      else if data.ircType == PongMessageTag then None
      else None
  }

  /** The callback invocations one inbound message adds to the trace. */
  function RouteTrace<D, E>(env: Envelope<D>): (t: seq<Action<D, E>>)
    ensures |t| <= 1
    ensures t == [] <==> Route<D, E>(env).None?
  {
    match Route(env)
    case None => []
    case Some(a) => [a]
  }

  lemma PrivateMessageInvokesOnChat<D, E>(d: D)
    ensures RouteTrace<D, E>(Irc(IrcEventData(PrivateMessageTag, d))) == [Chat(d)]
  {
  }

  lemma ClearChatMessageInvokesOnClearChat<D, E>(d: D)
    ensures RouteTrace<D, E>(Irc(IrcEventData(ClearChatMessageTag, d))) == [ClearChat(d)]
  {
  }

  /** Auth envelopes, pings, pongs, and nested or top-level tags without a
      case invoke nothing. */
  lemma OtherEnvelopesInvokeNothing<D, E>(env: Envelope<D>)
    requires !HasIrcType(env, PrivateMessageTag) && !HasIrcType(env, ClearChatMessageTag)
    ensures RouteTrace<D, E>(env) == []
  {
  }

  /** The trace produced by a run of inbound messages, handled one after the
      other in arrival order. */
  function RouteAll<D, E>(envs: seq<Envelope<D>>): (t: seq<Action<D, E>>)
    ensures |t| <= |envs|
    ensures forall i :: 0 <= i < |t| ==> t[i].IsDataCallback()
  {
    if envs == [] then []
    else RouteAll(envs[..|envs| - 1]) + RouteTrace(envs[|envs| - 1])
  }

  /** Routing a run is routing its parts: no message's invocation is
      reordered, lost or duplicated. */
  lemma {:induction false} RouteAllAppend<D, E>(a: seq<Envelope<D>>, b: seq<Envelope<D>>)
    ensures RouteAll<D, E>(a + b) == RouteAll<D, E>(a) + RouteAll<D, E>(b)
  {
    if b == [] {
      assert a + b == a;
    } else {
      var last := |b| - 1;
      assert (a + b)[..|a + b| - 1] == a + b[..last];
      RouteAllAppend<D, E>(a, b[..last]);
    }
  }

  /** The payloads of the irc envelopes of a run whose nested tag is `tag`,
      in order. */
  function PayloadsTagged<D>(envs: seq<Envelope<D>>, tag: string): seq<D> {
    if envs == [] then []
    else
      var prefix := PayloadsTagged(envs[..|envs| - 1], tag);
      var env := envs[|envs| - 1];
      if HasIrcType(env, tag) then prefix + [env.eventData.ircData] else prefix
  }

  /** True when `a` is the callback the switch reserves for the nested tag `tag`. */
  predicate InvokedFor<D, E>(a: Action<D, E>, tag: string) {
    (a.Chat? && tag == PrivateMessageTag) || (a.ClearChat? && tag == ClearChatMessageTag)
  }

  /** The payloads passed, in a trace, to the callback reserved for `tag`. */
  function CallbackPayloads<D, E>(t: seq<Action<D, E>>, tag: string): seq<D> {
    if t == [] then []
    else
      var prefix := CallbackPayloads(t[..|t| - 1], tag);
      var a := t[|t| - 1];
      if InvokedFor(a, tag) then prefix + [a.ircData] else prefix
  }

  lemma {:induction false} CallbackPayloadsAppend<D, E>(a: seq<Action<D, E>>, b: seq<Action<D, E>>, tag: string)
    ensures CallbackPayloads(a + b, tag) == CallbackPayloads(a, tag) + CallbackPayloads(b, tag)
  {
    if b == [] {
      assert a + b == a;
    } else {
      var last := |b| - 1;
      assert (a + b)[..|a + b| - 1] == a + b[..last];
      CallbackPayloadsAppend(a, b[..last], tag);
    }
  }

  /** Over any run of messages, onChat is invoked once per PrivateMessage
      envelope and onClearChat once per ClearChatMessage envelope, each with
      that envelope's payload and in arrival order. */
  lemma {:induction false} OneInvocationPerRoutedMessage<D, E>(envs: seq<Envelope<D>>, tag: string)
    requires tag == PrivateMessageTag || tag == ClearChatMessageTag
    ensures CallbackPayloads(RouteAll<D, E>(envs), tag) == PayloadsTagged(envs, tag)
  {
    if envs != [] {
      var init := envs[..|envs| - 1];
      OneInvocationPerRoutedMessage<D, E>(init, tag);
      CallbackPayloadsAppend(RouteAll<D, E>(init), RouteTrace<D, E>(envs[|envs| - 1]), tag);
    }
  }
}
