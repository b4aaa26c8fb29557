/** The command request and response handlers (routing/commands.go) over the cache
    of pending correlation ids. A panic of the source is the reply Panic. */
module Commands {
  import opened Durations
  import opened Options
  import opened TopicStrings
  import opened Util
  import opened CacheSpec
  import opened TtlCache
  import opened GatewayTopics

  /** What a handler comes to: messages for these topics, nothing to send, an
      error, or a panic. */
  datatype Reply = Forward(topics: seq<string>) | Dropped | Failed(error: Error) | Panic

  // ---------- The cache of pending requests ----------

  /** For how long a request is remembered, if it is. */
  function CachedTtl(h: Headers): Option<int> {
    if h.correlationId == "" then None
    else match ParseTimeout(h.timeout)
      case None => None
      case Some(t) => if t != 0 then Some(t + 5 * SECOND) else None
  }

  /** Parsing the timeout panics, on the single character `s` only. */
  predicate TimeoutPanics(h: Headers) {
    h.correlationId != "" && h.timeout == "s"
  }

  function AfterRequest(m: Contents<bool>, h: Headers, now: int): Contents<bool> {
    match CachedTtl(h)
    case None => m
    case Some(ttl) => m[h.correlationId := Entry(true, ttl, now + ttl)]
  }

  function AfterResponse(m: Contents<bool>, h: Headers): Contents<bool> {
    m - {h.correlationId}
  }

  /** A remembered request is kept for more than 5 seconds and less than an hour
      and 5 seconds, so the cache never sees a negative time to live. */
  lemma TtlRange(h: Headers)
    ensures TimeoutPanics(h) <==> h.correlationId != "" && ParseTimeout(h.timeout).None?
    ensures CachedTtl(h).Some? ==> h.correlationId != "" && 5 * SECOND < CachedTtl(h).value < HOUR + 5 * SECOND
  {
    TimeoutRange(h.timeout);
  }

  /** What a request leaves in the cache, for a timeout in minutes, in seconds, in
      milliseconds, or without a number: an entry that lives 5 seconds longer. */
  lemma RequestRemembered(m: Contents<bool>, h: Headers, now: int, number: string, n: int)
    requires h.correlationId != "" && Number(number) == Some(n)
    ensures h.timeout == number + "m" && 0 < n < 60 ==> Remembers(m, h, now, n * 60_000_000_000 + 5_000_000_000)
    ensures h.timeout in {number, number + "s"} && 0 < n < 3_600 ==> Remembers(m, h, now, n * 1_000_000_000 + 5_000_000_000)
    ensures h.timeout == number + "ms" && 0 < n < 3_600_000 ==> Remembers(m, h, now, n * 1_000_000 + 5_000_000_000)
    ensures h.timeout == "" ==> Remembers(m, h, now, 65_000_000_000)
    ensures h.timeout in {number, number + "m", number + "s", number + "ms"} && n == 0 ==> AfterRequest(m, h, now) == m
  {
    hide ParseTimeout, Number;
    TimeoutNanoseconds(number, n);
    TimeoutDefault("");
  }

  /** The request is remembered under its id, for `ttl` from now on. */
  ghost predicate Remembers(m: Contents<bool>, h: Headers, now: int, ttl: int) {
    AfterRequest(m, h, now) == m[h.correlationId := Entry(true, ttl, now + ttl)]
  }

  /** A request without an id is not remembered. */
  lemma RequestWithoutId(m: Contents<bool>, h: Headers, now: int)
    requires h.correlationId == ""
    ensures AfterRequest(m, h, now) == m
  {
  }

  // ---------- Topics ----------

  function RequestReply(generic: bool, topic: string): Reply {
    var local := if generic then LocalForm(topic) else Some(topic);
    if local.None? then Failed(InvalidTopic)
    else match ParseCmdTopic(local.value)
      case None => Panic
      case Some(parts) => Forward([local.value, ShortTopic(parts.device, "q", parts.suffix)])
  }

  /** Where the response of one of the gateway's own devices goes in generic mode. */
  function HubResponse(s: Settings, own: string, suffix: string): string {
    HubPrefix(s) + HubTopic(s.tenantId, s.deviceId, own, "res", suffix)
  }

  function ResponseReply(s: Settings, topic: string): Reply {
    match ParseCmdTopic(topic)
    case None => Panic
    case Some(parts) =>
      if !s.generic then Forward([LongTopic(parts.device, "res", parts.suffix)])
      else match StripGatewayID(s.deviceId, parts.device)
        case None => Failed(InvalidDevice)
        case Some(device) =>
          Forward([HubResponse(s, device, parts.suffix)])
  }

  /** A generic request reaches its device under the composed id on both the long
      and the short topic. */
  lemma RequestDelivered(tenant: string, gateway: string, device: string, suffix: string)
    requires SlashFree(tenant) && SlashFree(gateway) && SlashFree(device) && device != ""
    ensures RequestReply(true, "command/" + tenant + "/" + gateway + "/" + device + "/req/" + suffix)
            == Forward(["command//" + (gateway + ":" + device) + "/req/" + suffix, "c//" + (gateway + ":" + device) + "/q/" + suffix])
  {
    hide LocalForm, ParseCmdTopic;
    RequestRoundTrip(tenant, gateway, device, suffix);
    CommandTexts(gateway + ":" + device, suffix);
  }

  /** Without a device the request goes to the topics without one. */
  lemma RequestToGateway(tenant: string, gateway: string, suffix: string)
    requires SlashFree(tenant) && SlashFree(gateway)
    ensures RequestReply(true, "command/" + tenant + "/" + gateway + "/" + "" + "/req/" + suffix)
            == Forward(["command//" + "" + "/req/" + suffix, "c//" + "" + "/q/" + suffix])
  {
    hide LocalForm, ParseCmdTopic;
    RequestWithoutDevice(tenant, gateway, suffix);
    CommandTexts("", suffix);
  }

  /** Outside generic mode a request keeps its topic and goes out on the short one too;
      in generic mode a topic with too few segments is refused. */
  lemma RequestPlain(device: string, suffix: string, topic: string)
    requires SlashFree(device)
    ensures RequestReply(false, "command//" + device + "/req/" + suffix)
            == Forward(["command//" + device + "/req/" + suffix, "c//" + device + "/q/" + suffix])
    ensures |Split(topic)| < 5 ==> RequestReply(true, topic) == Failed(InvalidTopic)
  {
    hide LocalForm, ParseCmdTopic;
    ParseTexts(device, suffix);
    CommandTexts(device, suffix);
    TooShort(topic);
  }

  /** The text of a hub response. */
  lemma HubResponseText(s: Settings, own: string, suffix: string)
    requires s.generic
    ensures HubResponse(s, own, suffix)
            == (if s.prefix == "" then "" else s.prefix + "/") + ("command/" + s.tenantId + "/" + s.deviceId + "/" + own + "/res/" + suffix)
  {
    HubTexts(s.tenantId, s.deviceId, own, suffix);
  }

  /** The device's answer, on the long or the short topic, goes back to the hub
      under exactly the device that was asked. */
  lemma ResponseReturns(s: Settings, device: string, suffix: string)
    requires s.generic && SlashFree(s.deviceId) && SlashFree(device)
    ensures var hub := (if s.prefix == "" then "" else s.prefix + "/") + ("command/" + s.tenantId + "/" + s.deviceId + "/" + device + "/res/" + suffix);
            && ResponseReply(s, "command//" + (s.deviceId + ":" + device) + "/res/" + suffix) == Forward([hub])
            && ResponseReply(s, "c//" + (s.deviceId + ":" + device) + "/s/" + suffix) == Forward([hub])
  {
    ParseTexts(s.deviceId + ":" + device, suffix);
    StripUndoes(s.deviceId, device, "");
    HubResponseText(s, device, suffix);
    hide ParseCmdTopic, HubResponse, StripGatewayID;
  }

  /** The segments of that answer's topic, from the prefix on. */
  lemma ResponseSegments(s: Settings, device: string, suffix: string)
    requires s.generic && SlashFree(s.tenantId) && SlashFree(s.deviceId) && SlashFree(device)
    ensures var segments := (if s.prefix == "" then [] else Split(s.prefix)) + (["command", s.tenantId, s.deviceId, device, "res"] + Split(suffix));
            && SentAs(ResponseReply(s, "command//" + (s.deviceId + ":" + device) + "/res/" + suffix), segments)
            && SentAs(ResponseReply(s, "c//" + (s.deviceId + ":" + device) + "/s/" + suffix), segments)
  {
    hide *;
    ResponseReturns(s, device, suffix);
    HubTexts(s.tenantId, s.deviceId, device, suffix);
    KindSegments(s, device, suffix);
    PrefixSegments(s.prefix, "command/" + s.tenantId + "/" + s.deviceId + "/" + device + "/res/" + suffix);
    SentOn(ResponseReply(s, "command//" + (s.deviceId + ":" + device) + "/res/" + suffix));
    SentOn(ResponseReply(s, "c//" + (s.deviceId + ":" + device) + "/s/" + suffix));
  }

  lemma KindSegments(s: Settings, device: string, suffix: string)
    requires SlashFree(s.tenantId) && SlashFree(s.deviceId) && SlashFree(device)
    ensures Split(HubTopic(s.tenantId, s.deviceId, device, "res", suffix)) == ["command", s.tenantId, s.deviceId, device, "res"] + Split(suffix)
  {
    assert SlashFree("res");
    hide Split, HubTopic;
    HubSplit(s.tenantId, s.deviceId, device, "res", suffix);
  }

  lemma SentOn(reply: Reply)
    ensures reply.Forward? && |reply.topics| == 1 ==> SentAs(reply, Split(reply.topics[0]))
  {
  }

  /** One message is sent, on the topic with these segments. */
  predicate SentAs(reply: Reply, segments: seq<string>) {
    reply.Forward? && |reply.topics| == 1 && Split(reply.topics[0]) == segments
  }

  /** In generic mode a response is sent on exactly when its device id starts with
      the gateway's id, under a device id of the gateway's own that composes back
      into the response's exactly when a colon follows the gateway's id. */
  lemma ResponseDevice(s: Settings, device: string, suffix: string) returns (own: string)
    requires s.generic && SlashFree(device)
    ensures var reply := ResponseReply(s, "command//" + device + "/res/" + suffix);
            && ResponseReply(s, "c//" + device + "/s/" + suffix) == reply
            && (if HasPrefix(device, s.deviceId)
                then reply == Forward([(if s.prefix == "" then "" else s.prefix + "/") + ("command/" + s.tenantId + "/" + s.deviceId + "/" + own + "/res/" + suffix)])
                else reply == Failed(InvalidDevice))
            && (reply.Forward? ==> StripGatewayID(s.deviceId, device) == Some(own))
            && (reply.Forward? ==> (s.deviceId + ":" + own == device <==> HasPrefix(device, s.deviceId + ":")))
  {
    ParseTexts(device, suffix);
    StripExact(s.deviceId, device);
    var stripped := StripGatewayID(s.deviceId, device);
    own := if stripped.Some? then stripped.value else "";
    HubResponseText(s, own, suffix);
    hide ParseCmdTopic, HubResponse, StripGatewayID;
  }

  /** The response of another gateway's device is sent on as one of this gateway's
      when that gateway's id only continues this one's. */
  lemma ForeignResponse(s: Settings, suffix: string)
    requires s.generic && s.deviceId == "gw1"
    ensures ResponseReply(s, "c//" + "gw10:x" + "/s/" + suffix)
            == Forward([(if s.prefix == "" then "" else s.prefix + "/") + ("command/" + s.tenantId + "/" + "gw1" + "/" + ":x" + "/res/" + suffix)])
  {
    hide ResponseReply, StripGatewayID;
    var own := ResponseDevice(s, "gw10:x", suffix);
    StripForeign();
    assert "gw10:x"[..3] == "gw1";
  }

  /** Outside generic mode both forms of a response are sent in the long form. */
  lemma ResponseNormalised(s: Settings, device: string, suffix: string)
    requires !s.generic && SlashFree(device)
    ensures ResponseReply(s, "command//" + device + "/res/" + suffix) == Forward(["command//" + device + "/res/" + suffix])
    ensures ResponseReply(s, "c//" + device + "/s/" + suffix) == Forward(["command//" + device + "/res/" + suffix])
  {
    ParseTexts(device, suffix);
    CommandTexts(device, suffix);
    hide ParseCmdTopic;
  }

  lemma BuildHubTopic(start: string, tenant: string, gateway: string, device: string, kind: string, suffix: string)
    ensures start + "command" + "/" + tenant + "/" + gateway + "/" + device + ("/" + kind + "/" + suffix)
            == start + HubTopic(tenant, gateway, device, kind, suffix)
  {
    var head, end := ["command", tenant, gateway, device], [kind, suffix];
    BuildFour(start, "command", tenant, gateway, device);
    JoinConcat(head, end);
    assert head + end == ["command", tenant, gateway, device, kind] + [suffix];
    TwoSegments(kind, suffix);
    Associative(start, Join(head), "/" + Join(end));
    Associative(Join(head), "/", Join(end));
  }

  lemma TwoSegments(kind: string, suffix: string)
    ensures "/" + kind + "/" + suffix == "/" + Join([kind, suffix])
  {
    var end := [kind, suffix];
    assert end[1..] == [suffix];
    Associative("/", kind, "/" + suffix);
  }

  // ---------- The handlers ----------

  class CmdRequestHandler {
    const reqCache: Cache<bool>
    const generic: bool

    constructor (reqCache: Cache<bool>, generic: bool)
      ensures this.reqCache == reqCache && this.generic == generic
    {
      this.reqCache := reqCache;
      this.generic := generic;
    }

    method HandleRequest(msg: Message, now: int) returns (reply: Reply, out: seq<Message>)
      requires reqCache.Valid()
      modifies msg`topic, reqCache`elements, reqCache`contents, reqCache.queue, reqCache.queue.members
      ensures reqCache.Valid()
      ensures reply == if old(msg.topic).None? then Failed(NoTopic)
                       else if msg.headers.None? then Failed(InvalidCommand)
                       else if TimeoutPanics(msg.headers.value) then Panic
                       else RequestReply(generic, old(msg.topic).value)
      ensures reqCache.contents == if old(msg.topic).None? || msg.headers.None? || reqCache.closed then old(reqCache.contents)
                                   else AfterRequest(old(reqCache.contents), msg.headers.value, now)
      ensures if reply.Forward? then |out| == 2 && out[0] == msg && msg.topic == Some(reply.topics[0]) && fresh(out[1]) && out[1].topic == Some(reply.topics[1])
                                && out[1].uuid == msg.uuid && out[1].payload == msg.payload && out[1].headers == msg.headers
              else out == []
    {
      out := [];
      if msg.topic.None? {
        reply := Failed(NoTopic);
      } else if msg.headers.None? {
        reply := Failed(InvalidCommand);
      } else {
        var panicked := Remember(msg.headers.value, now);
        if panicked {
          reply := Panic;
        } else {
          reply, out := Route(msg);
        }
      }
    }

    /** Remembers the request's correlation id, unless its timeout is zero. */
    method Remember(h: Headers, now: int) returns (panicked: bool)
      requires reqCache.Valid()
      modifies reqCache`elements, reqCache`contents, reqCache.queue, reqCache.queue.members
      ensures reqCache.Valid() && fresh(reqCache.queue.members - old(reqCache.queue.members))
      ensures panicked == TimeoutPanics(h)
      ensures reqCache.contents == if reqCache.closed then old(reqCache.contents) else AfterRequest(old(reqCache.contents), h, now)
    {
      hide Cache.Valid;
      var ttl;
      panicked, ttl := TimeToLive(h);
      if ttl.Some? {
        var ok := reqCache.Put(h.correlationId, true, ttl.value, now);
      }
    }

    method TimeToLive(h: Headers) returns (panicked: bool, ttl: Option<int>)
      ensures panicked == TimeoutPanics(h)
      ensures ttl == CachedTtl(h) && (ttl.Some? ==> ttl.value > 0)
    {
      TtlRange(h);
      if |h.correlationId| > 0 {
        var timeout := ParseTimeout(h.timeout);
        if timeout.None? {
          return true, None;
        }
        if timeout.value != 0 {
          return false, Some(timeout.value + SECOND * 5);
        }
      }
      return false, None;
    }

    /** Makes the messages with the long and the short topic of a request. */
    method Route(msg: Message) returns (reply: Reply, out: seq<Message>)
      requires msg.topic.Some?
      modifies msg`topic
      ensures reply == RequestReply(generic, old(msg.topic).value)
      ensures if reply.Forward? then |out| == 2 && out[0] == msg && msg.topic == Some(reply.topics[0]) && fresh(out[1]) && out[1].topic == Some(reply.topics[1])
                                && out[1].uuid == msg.uuid && out[1].payload == msg.payload && out[1].headers == msg.headers
              else out == []
    {
      var topic := msg.topic.value;
      if generic {
        var fixed := FixCommand(topic);
        if fixed.None? {
          return Failed(InvalidTopic), [];
        }
        topic := fixed.value;
        msg.topic := Some(topic);
      }
      var parts := ParseCmdTopic(topic);
      if parts.None? {
        return Panic, [];
      }
      var shortTopic := ShortTopic(parts.value.device, "q", parts.value.suffix);
      var short := new Message(msg.uuid, msg.payload, msg.headers, Some(shortTopic));
      return Forward([topic, shortTopic]), [msg, short];
    }
  }

  class CmdResponseHandler {
    const reqCache: Cache<bool>
    const settings: Settings

    constructor (reqCache: Cache<bool>, settings: Settings)
      ensures this.reqCache == reqCache && this.settings == settings
    {
      this.reqCache := reqCache;
      this.settings := settings;
    }

    method HandleResponse(msg: Message) returns (reply: Reply, out: seq<Message>)
      requires reqCache.Valid()
      modifies msg`topic, reqCache`elements, reqCache`contents, reqCache.queue, reqCache.queue.members
      ensures reqCache.Valid()
      ensures reply == if old(msg.topic).None? then Failed(NoTopic)
                       else if msg.headers.None? then Failed(InvalidCommand)
                       else if reqCache.closed || msg.headers.value.correlationId !in old(reqCache.contents) then Dropped
                       else ResponseReply(settings, old(msg.topic).value)
      ensures reqCache.contents == if old(msg.topic).None? || msg.headers.None? || reqCache.closed then old(reqCache.contents)
                                   else AfterResponse(old(reqCache.contents), msg.headers.value)
      ensures if reply.Forward? then out == [msg] && |reply.topics| == 1 && msg.topic == Some(reply.topics[0])
              else out == [] && msg.topic == old(msg.topic)
    {
      out := [];
      if msg.topic.None? {
        reply := Failed(NoTopic);
      } else if msg.headers.None? {
        reply := Failed(InvalidCommand);
      } else {
        reply, out := Match(msg, msg.headers.value.correlationId);
      }
    }

    /** Sends a response on if its request is pending, which it then no longer is. */
    method Match(msg: Message, id: string) returns (reply: Reply, out: seq<Message>)
      requires reqCache.Valid() && msg.topic.Some?
      modifies msg`topic, reqCache`elements, reqCache`contents, reqCache.queue, reqCache.queue.members
      ensures reqCache.Valid()
      ensures reply == if reqCache.closed || id !in old(reqCache.contents) then Dropped else ResponseReply(settings, old(msg.topic).value)
      ensures reqCache.contents == if reqCache.closed then old(reqCache.contents) else old(reqCache.contents) - {id}
      ensures if reply.Forward? then out == [msg] && |reply.topics| == 1 && msg.topic == Some(reply.topics[0])
              else out == [] && msg.topic == old(msg.topic)
    {
      hide Cache.Valid;
      var removed := reqCache.Remove(id);
      if !removed {
        return Dropped, [];
      }
      reply, out := Respond(msg);
    }

    /** Sends the message on under its hub topic. */
    method Respond(msg: Message) returns (reply: Reply, out: seq<Message>)
      requires msg.topic.Some?
      modifies msg`topic
      ensures reply == ResponseReply(settings, old(msg.topic).value)
      ensures if reply.Forward? then out == [msg] && |reply.topics| == 1 && msg.topic == Some(reply.topics[0])
              else out == [] && msg.topic == old(msg.topic)
    {
      reply := Route(msg.topic.value);
      if !reply.Forward? {
        return reply, [];
      }
      msg.topic := Some(reply.topics[0]);
      return reply, [msg];
    }

    /** The hub topic of a response. */
    method Route(topic: string) returns (reply: Reply)
      ensures reply == ResponseReply(settings, topic)
      ensures reply.Forward? ==> |reply.topics| == 1
    {
      var parts := ParseCmdTopic(topic);
      if parts.None? {
        return Panic;
      }
      var buff := "";
      if settings.generic && |settings.prefix| > 0 {
        buff := settings.prefix + "/";
      }
      ghost var start := buff;
      buff := buff + "command" + "/";
      if settings.generic {
        buff := buff + settings.tenantId + "/" + settings.deviceId + "/";
        var stripped := StripGatewayID(settings.deviceId, parts.value.device);
        if stripped.None? {
          return Failed(InvalidDevice);
        }
        buff := buff + stripped.value;
        BuildHubTopic(start, settings.tenantId, settings.deviceId, stripped.value, "res", parts.value.suffix);
      } else {
        buff := buff + "/" + parts.value.device;
        PlainResponse(parts.value.device, parts.value.suffix);
      }
      buff := buff + ("/" + "res" + "/" + parts.value.suffix);
      return Forward([buff]);
    }
  }

  lemma PlainResponse(device: string, suffix: string)
    ensures "" + "command" + "/" + "/" + device + ("/" + "res" + "/" + suffix) == LongTopic(device, "res", suffix)
  {
  }
}
