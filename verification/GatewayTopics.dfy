/** Rewriting device ids between the hub's and the gateway's topics
    (routing/utils.go), and the messages that handlers pass on. */
module GatewayTopics {
  import opened Options
  import opened TopicStrings
  import opened Util

  /** A message with the topic in its context; `headers` is what decoding its
      payload as an envelope gives, if it can be decoded. */
  class Message {
    const uuid: string
    const payload: string
    const headers: Option<Headers>
    var topic: Option<string>

    constructor (uuid: string, payload: string, headers: Option<Headers>, topic: Option<string>)
      ensures this.uuid == uuid && this.payload == payload && this.headers == headers && this.topic == topic
    {
      this.uuid := uuid;
      this.payload := payload;
      this.headers := headers;
      this.topic := topic;
    }
  }

  datatype Headers = Headers(correlationId: string, timeout: string)

  /** What the handlers are created with; the prefix applies in generic mode only. */
  datatype Settings = Settings(prefix: string, tenantId: string, deviceId: string, generic: bool)

  function HubPrefix(s: Settings): string {
    if s.generic && s.prefix != "" then s.prefix + "/" else ""
  }

  /** A prefix adds its own segments in front. */
  lemma PrefixSegments(prefix: string, rest: string)
    ensures Split((if prefix == "" then "" else prefix + "/") + rest) == (if prefix == "" then [] else Split(prefix)) + Split(rest)
  {
    hide Split;
    SplitConcat(prefix, rest);
    assert "" + rest == rest && [] + Split(rest) == Split(rest);
  }

  datatype Error = NoTopic | InvalidCommand | InvalidTopic | InvalidDevice

  /** The local form of a hub topic: gateway and device become one segment, and
      what follows is kept. None is the error for a topic with too few segments. */
  function LocalForm(topic: string): Option<string> {
    var segments := Split(topic);
    if |segments| < 5 then None
    else
      var device := if segments[3] == "" then "" else segments[2] + ":" + segments[3];
      Some("command//" + device + Tail(segments, 4))
  }

  method FixCommand(topic: string) returns (r: Option<string>)
    ensures r == LocalForm(topic)
  {
    var segments := Split(topic);
    if |segments| < 5 {
      return None;
    }
    var buff := "command//";
    if |segments[3]| > 0 {
      buff := buff + segments[2];
      buff := buff + ":";
      buff := buff + segments[3];
    }
    assert buff == "command//" + (if segments[3] == "" then "" else segments[2] + ":" + segments[3]);
    buff := AppendSegments(buff, segments, 4);
    return Some(buff);
  }

  /** The device part of `gateway:device`. None is the error for an id that does not
      start with the gateway's; that a colon follows is not looked at. */
  function StripGatewayID(gatewayId: string, deviceId: string): Option<string> {
    if !HasPrefix(deviceId, gatewayId) then None
    else if |deviceId| <= |gatewayId| + 1 then Some("")
    else Some(deviceId[|gatewayId| + 1..])
  }

  /** Stripping undoes the composition of a device id, and fails exactly on ids
      that do not start with the gateway's. */
  lemma StripUndoes(gatewayId: string, device: string, deviceId: string)
    ensures StripGatewayID(gatewayId, gatewayId + ":" + device) == Some(device)
    ensures StripGatewayID(gatewayId, deviceId).Some? <==> exists rest :: deviceId == gatewayId + rest
  {
    if HasPrefix(deviceId, gatewayId) {
      assert deviceId == gatewayId + deviceId[|gatewayId|..];
    }
  }

  /** Stripping succeeds on every id that starts with the gateway's, and what is
      left composes back exactly when a colon follows there. */
  lemma StripExact(gatewayId: string, deviceId: string)
    ensures var own := StripGatewayID(gatewayId, deviceId);
            && (own.Some? <==> HasPrefix(deviceId, gatewayId))
            && (own.Some? ==> (gatewayId + ":" + own.value == deviceId <==> HasPrefix(deviceId, gatewayId + ":")))
  {
    if HasPrefix(deviceId, gatewayId + ":") {
      assert deviceId == gatewayId + ":" + deviceId[|gatewayId| + 1..];
    }
  }

  /** Two ids that start with the gateway's leave the same device: what stands where
      the colon should is not kept. */
  predicate SameDevice(gatewayId: string, a: string, b: string) {
    var n := |gatewayId| + 1;
    if |a| <= n then |b| <= n else |b| > n && a[n..] == b[n..]
  }

  lemma StripCollides(gatewayId: string, a: string, b: string)
    requires HasPrefix(a, gatewayId) && HasPrefix(b, gatewayId)
    ensures StripGatewayID(gatewayId, a) == StripGatewayID(gatewayId, b) <==> SameDevice(gatewayId, a, b)
  {
  }

  /** The id of another gateway's device, taken for one of this gateway's. */
  lemma StripForeign()
    ensures StripGatewayID("gw1", "gw10:x") == Some(":x")
  {
    assert "gw10:x"[..3] == "gw1" && "gw10:x"[4..] == ":x";
  }

  /** The hub command topic command/tenant/gateway/device/kind/suffix. */
  function HubTopic(tenant: string, gateway: string, device: string, kind: string, suffix: string): string {
    Join(["command", tenant, gateway, device, kind] + [suffix])
  }

  lemma HubTexts(tenant: string, gateway: string, device: string, suffix: string)
    ensures HubTopic(tenant, gateway, device, "req", suffix) == "command/" + tenant + "/" + gateway + "/" + device + "/req/" + suffix
    ensures HubTopic(tenant, gateway, device, "res", suffix) == "command/" + tenant + "/" + gateway + "/" + device + "/res/" + suffix
  {
    HubText(tenant, gateway, device, "req", suffix);
    HubText(tenant, gateway, device, "res", suffix);
    BetweenSlashes("command/" + tenant + "/" + gateway + "/" + device, "req", "/req/");
    BetweenSlashes("command/" + tenant + "/" + gateway + "/" + device, "res", "/res/");
  }

  lemma HubText(tenant: string, gateway: string, device: string, kind: string, suffix: string)
    ensures HubTopic(tenant, gateway, device, kind, suffix) == "command/" + tenant + "/" + gateway + "/" + device + "/" + kind + "/" + suffix
  {
    var head := ["command", tenant, gateway, device];
    BuildFour("", "command", tenant, gateway, device);
    assert "" + "command" + "/" == "command/" && "" + Join(head) == Join(head);
    hide Join;
    JoinConcat(head, [kind]);
    JoinConcat(head + [kind], [suffix]);
    OneSegment(kind);
    OneSegment(suffix);
    assert head + [kind] == ["command", tenant, gateway, device, kind];
  }

  lemma OneSegment(a: string)
    ensures Join([a]) == a
  {
  }

  /** A hub request for a device of this gateway arrives under the composed device
      id, with its suffix, and is read back so. */
  lemma RequestRoundTrip(tenant: string, gateway: string, device: string, suffix: string)
    requires SlashFree(tenant) && SlashFree(gateway) && SlashFree(device) && device != ""
    ensures LocalForm("command/" + tenant + "/" + gateway + "/" + device + "/req/" + suffix)
            == Some("command//" + (gateway + ":" + device) + "/req/" + suffix)
    ensures ParseCmdTopic("command//" + (gateway + ":" + device) + "/req/" + suffix) == Some(CmdTopic("req", gateway + ":" + device, suffix))
  {
    HubTexts(tenant, gateway, device, suffix);
    HubSegments(tenant, gateway, device, "req", suffix);
    LongTopicParts(gateway + ":" + device, "req", suffix);
    CommandTexts(gateway + ":" + device, suffix);
    ParseTexts(gateway + ":" + device, suffix);
  }

  /** A hub request without a device is for the gateway's clients themselves. */
  lemma RequestWithoutDevice(tenant: string, gateway: string, suffix: string)
    requires SlashFree(tenant) && SlashFree(gateway)
    ensures LocalForm("command/" + tenant + "/" + gateway + "/" + "" + "/req/" + suffix) == Some("command//" + "" + "/req/" + suffix)
    ensures ParseCmdTopic("command//" + "" + "/req/" + suffix) == Some(CmdTopic("req", "", suffix))
  {
    HubTexts(tenant, gateway, "", suffix);
    HubSegments(tenant, gateway, "", "req", suffix);
    LongTopicParts("", "req", suffix);
    CommandTexts("", suffix);
    ParseTexts("", suffix);
  }

  /** A topic with fewer than five segments has no local form. */
  lemma TooShort(topic: string)
    ensures LocalForm(topic).None? <==> |Split(topic)| < 5
  {
  }

  lemma HubSplit(tenant: string, gateway: string, device: string, kind: string, suffix: string)
    requires SlashFree(tenant) && SlashFree(gateway) && SlashFree(device) && SlashFree(kind)
    ensures Split(HubTopic(tenant, gateway, device, kind, suffix)) == ["command", tenant, gateway, device, kind] + Split(suffix)
  {
    var head := ["command", tenant, gateway, device, kind];
    assert SlashFree("command");
    forall k | 0 <= k < |head| ensures SlashFree(head[k]) {
      assert k == 0 || k == 1 || k == 2 || k == 3 || k == 4;
    }
    SplitJoinLast(head, suffix);
  }

  lemma HubSegments(tenant: string, gateway: string, device: string, kind: string, suffix: string)
    requires SlashFree(tenant) && SlashFree(gateway) && SlashFree(device) && SlashFree(kind)
    ensures var segments := Split(HubTopic(tenant, gateway, device, kind, suffix));
            |segments| >= 5 && segments[2] == gateway && segments[3] == device && Tail(segments, 4) == "/" + (kind + "/" + suffix)
  {
    HubSplit(tenant, gateway, device, kind, suffix);
    var head := ["command", tenant, gateway, device, kind];
    LastOfHead(head, Split(suffix));
    JoinFirst(kind, Split(suffix));
    JoinSplit(suffix);
  }

  lemma LastOfHead(head: seq<string>, rest: seq<string>)
    requires head != []
    ensures (head + rest)[|head| - 1..] == [head[|head| - 1]] + rest
    ensures forall i :: 0 <= i < |head| ==> (head + rest)[i] == head[i]
  {
  }

  lemma LongTopicParts(device: string, kind: string, suffix: string)
    ensures LongTopic(device, kind, suffix) == "command//" + device + ("/" + (kind + "/" + suffix))
  {
  }
}
