/** Canonical topics for events and telemetry (routing/events.go). */
module Events {
  import opened Options
  import opened TopicStrings
  import opened GatewayTopics

  predicate IsTelemetry(segment: string) {
    segment == "telemetry" || segment == "t"
  }

  function SegmentOr(segments: seq<string>, i: nat, default: string): string {
    if i < |segments| && segments[i] != "" then segments[i] else default
  }

  /** The segments of the topic under which a message is sent to the hub; None is
      the error for a device id that does not start with the gateway's. */
  function HubSegments(s: Settings, segments: seq<string>): Option<seq<string>>
    requires segments != []
  {
    var kind := if IsTelemetry(segments[0]) then "telemetry" else "event";
    var tenant := SegmentOr(segments, 1, s.tenantId);
    var device := SegmentOr(segments, 2, s.deviceId);
    if !s.generic then Some([kind, tenant, device] + After(segments, 3))
    else match StripGatewayID(s.deviceId, device)
      case Some(stripped) => Some([kind, tenant, s.deviceId, stripped] + After(segments, 3))
      case None => None
  }

  function EventTopic(s: Settings, topic: string): Option<string> {
    match HubSegments(s, Split(topic))
    case Some(segments) => Some(HubPrefix(s) + Join(segments))
    case None => None
  }

  method HandleEvent(s: Settings, msg: Message) returns (out: seq<Message>, error: Option<Error>)
    modifies msg`topic
    ensures old(msg.topic).None? ==> out == [] && error == Some(NoTopic) && msg.topic.None?
    ensures old(msg.topic).Some? ==> var sent := EventTopic(s, old(msg.topic).value);
              if sent.Some? then out == [msg] && error == None && msg.topic == sent
              else out == [] && error == Some(InvalidDevice) && msg.topic == old(msg.topic)
  {
    if msg.topic.None? {
      return [], Some(NoTopic);
    }
    var msgType, tenID, devID := "event", s.tenantId, s.deviceId;
    var segments := Split(msg.topic.value);
    if segments[0] == "telemetry" || segments[0] == "t" {
      msgType := "telemetry";
    }
    if |segments| > 1 && |segments[1]| > 0 {
      tenID := segments[1];
    }
    if |segments| > 2 && |segments[2]| > 0 {
      devID := segments[2];
    }
    var buff := "";
    if s.generic && |s.prefix| > 0 {
      buff := s.prefix + "/";
    }
    ghost var start := buff;
    buff := buff + msgType + "/" + tenID + "/";
    ghost var head := [msgType, tenID, devID];
    if s.generic {
      buff := buff + s.deviceId + "/";
      var stripped := StripGatewayID(s.deviceId, devID);
      if stripped.None? {
        return [], Some(InvalidDevice);
      }
      buff := buff + stripped.value;
      head := [msgType, tenID, s.deviceId, stripped.value];
      BuildFour(start, msgType, tenID, s.deviceId, stripped.value);
    } else {
      buff := buff + devID;
      BuildThree(start, msgType, tenID, devID);
    }
    assert HubSegments(s, segments) == Some(head + After(segments, 3));
    buff := AppendSegments(buff, segments, 3);
    JoinTail(head, segments, 3);
    Associative(start, Join(head), Tail(segments, 3));
    msg.topic := Some(buff);
    return [msg], None;
  }

  /** The topic of a message has all its segments: type, tenant and device, filled
      in where they are missing, and everything after the third segment, in order. */
  lemma EventSegments(s: Settings, topic: string)
    requires !s.generic && SlashFree(s.tenantId) && SlashFree(s.deviceId)
    ensures var segments, sent := Split(topic), EventTopic(s, topic);
            && sent.Some?
            && Split(sent.value) == [if segments[0] == "t" || segments[0] == "telemetry" then "telemetry" else "event",
                                     if |segments| > 1 && segments[1] != "" then segments[1] else s.tenantId,
                                     if |segments| > 2 && segments[2] != "" then segments[2] else s.deviceId]
                                    + (if |segments| > 3 then segments[3..] else [])
  {
    var segments := HubSegments(s, Split(topic)).value;
    assert AllSlashFree(segments);
    SplitJoin(segments);
    assert EventTopic(s, topic).value == Join(segments);
  }

  /** Outside generic mode the rewriting is a canonicalisation. */
  lemma EventIdempotent(s: Settings, topic: string)
    requires !s.generic && SlashFree(s.tenantId) && SlashFree(s.deviceId)
    ensures EventTopic(s, topic).Some? && EventTopic(s, EventTopic(s, topic).value) == EventTopic(s, topic)
  {
    hide EventTopic, Split, Join;
    EventSegments(s, topic);
    PlainEvent(s, topic);
    var sent := EventTopic(s, topic).value;
    Canonical(s, Split(sent));
    PlainEvent(s, sent);
    JoinSplit(sent);
  }

  lemma PlainEvent(s: Settings, topic: string)
    requires !s.generic
    ensures EventTopic(s, topic) == Some(Join(HubSegments(s, Split(topic)).value))
  {
    hide Split, Join, After, IsTelemetry, SegmentOr;
    var sent := Join(HubSegments(s, Split(topic)).value);
    assert "" + sent == sent;
  }

  /** Segments that are filled in, under a long name, stay as they are. */
  lemma Canonical(s: Settings, segments: seq<string>)
    requires !s.generic && |segments| >= 3
    requires segments[0] == "telemetry" || segments[0] == "event"
    requires segments[1] == SegmentOr(segments, 1, s.tenantId) && segments[2] == SegmentOr(segments, 2, s.deviceId)
    ensures HubSegments(s, segments) == Some(segments)
  {
    assert segments == [segments[0], segments[1], segments[2]] + segments[3..];
  }

  /** Topics that differ in their first segment only, and of which both or neither
      are telemetry, are sent under the same topic: short and long names agree. */
  lemma FirstSegment(s: Settings, a: string, b: string, rest: string)
    requires SlashFree(a) && SlashFree(b) && (IsTelemetry(a) <==> IsTelemetry(b))
    ensures EventTopic(s, a + "/" + rest) == EventTopic(s, b + "/" + rest)
    ensures EventTopic(s, a) == EventTopic(s, b)
  {
    SplitFirst(a, rest);
    SplitFirst(b, rest);
    SameAfterFirst(s, a, b, Split(rest));
    assert [a] + [] == [a] && [b] + [] == [b];
    SameAfterFirst(s, a, b, []);
  }

  lemma ShortNames(s: Settings, rest: string)
    ensures EventTopic(s, "e" + "/" + rest) == EventTopic(s, "event" + "/" + rest)
    ensures EventTopic(s, "t" + "/" + rest) == EventTopic(s, "telemetry" + "/" + rest)
    ensures EventTopic(s, "e") == EventTopic(s, "event") && EventTopic(s, "t") == EventTopic(s, "telemetry")
  {
    FirstSegment(s, "e", "event", rest);
    FirstSegment(s, "t", "telemetry", rest);
  }

  lemma SameAfterFirst(s: Settings, a: string, b: string, rest: seq<string>)
    requires IsTelemetry(a) <==> IsTelemetry(b)
    ensures HubSegments(s, [a] + rest) == HubSegments(s, [b] + rest)
  {
    assert After([a] + rest, 3) == After([b] + rest, 3);
  }

  /** The hub topic of a device that the gateway calls `own`. */
  function GenericTopic(s: Settings, kind: string, tenant: string, own: string, rest: seq<string>): string {
    HubPrefix(s) + Join([if IsTelemetry(kind) then "telemetry" else "event", tenant, s.deviceId, own] + rest)
  }

  function TenantOf(s: Settings, topic: string): string {
    SegmentOr(Split(topic), 1, s.tenantId)
  }

  function DeviceOf(s: Settings, topic: string): string {
    DeviceIn(s, Split(topic))
  }

  /** In generic mode a message is accepted exactly when its device id, its topic's or
      the gateway's own, starts with the gateway's id. It goes out under a device id
      that composes back into it exactly when a colon follows the gateway's id. */
  lemma GenericEvent(s: Settings, topic: string) returns (own: string)
    requires s.generic
    ensures var sent, device, segments := EventTopic(s, topic), DeviceOf(s, topic), Split(topic);
            && (sent.Some? <==> HasPrefix(device, s.deviceId))
            && (sent.Some? ==> sent.value == GenericTopic(s, segments[0], TenantOf(s, topic), own, After(segments, 3)))
            && (sent.Some? ==> StripGatewayID(s.deviceId, device) == Some(own))
            && (sent.Some? ==> (s.deviceId + ":" + own == device <==> HasPrefix(device, s.deviceId + ":")))
  {
    StripExact(s.deviceId, DeviceOf(s, topic));
    var stripped := StripGatewayID(s.deviceId, DeviceOf(s, topic));
    own := if stripped.Some? then stripped.value else "";
  }

  /** The segments of the topic in generic mode, from the prefix on: type and tenant,
      then the gateway, then what the device id has left, then everything after the
      third segment, in order. */
  lemma GenericEventSegments(s: Settings, topic: string)
    requires s.generic && SlashFree(s.tenantId) && SlashFree(s.deviceId) && EventTopic(s, topic).Some?
    ensures var segments := Split(topic);
            var device := if |segments| > 2 && segments[2] != "" then segments[2] else s.deviceId;
            Split(EventTopic(s, topic).value)
            == (if s.prefix == "" then [] else Split(s.prefix))
               + ([if segments[0] == "t" || segments[0] == "telemetry" then "telemetry" else "event",
                   if |segments| > 1 && segments[1] != "" then segments[1] else s.tenantId,
                   s.deviceId,
                   if |device| > |s.deviceId| then device[|s.deviceId| + 1..] else ""]
                  + (if |segments| > 3 then segments[3..] else []))
  {
    var segments := Split(topic);
    assert AllSlashFree(segments);
    assert HubSegments(s, segments).Some?;
    hide Split, Join, HubSegments, AllSlashFree;
    GenericHubSegments(s, segments);
    SplitJoin(HubSegments(s, segments).value);
    PrefixSegments(s.prefix, Join(HubSegments(s, segments).value));
  }

  lemma GenericHubSegments(s: Settings, segments: seq<string>)
    requires s.generic && SlashFree(s.tenantId) && SlashFree(s.deviceId)
    requires segments != [] && AllSlashFree(segments) && HubSegments(s, segments).Some?
    ensures AllSlashFree(HubSegments(s, segments).value)
    ensures var device := if |segments| > 2 && segments[2] != "" then segments[2] else s.deviceId;
            HubSegments(s, segments).value
            == [if segments[0] == "t" || segments[0] == "telemetry" then "telemetry" else "event",
                if |segments| > 1 && segments[1] != "" then segments[1] else s.tenantId,
                s.deviceId,
                if |device| > |s.deviceId| then device[|s.deviceId| + 1..] else ""]
               + (if |segments| > 3 then segments[3..] else [])
  {
    var device := DeviceIn(s, segments);
    if |device| == |s.deviceId| + 1 {
      assert device[|s.deviceId| + 1..] == "";
    }
    if |segments| == 3 {
      assert segments[3..] == [];
    }
  }

  function DeviceIn(s: Settings, segments: seq<string>): string {
    SegmentOr(segments, 2, s.deviceId)
  }

  /** Accepted messages of one type and tenant, with the same further segments, go out
      under one topic exactly when their device ids leave the same device: those of
      gw1:x and gw10x do for the gateway gw1. */
  lemma GenericEventsCollide(s: Settings, a: string, b: string)
    requires s.generic && EventTopic(s, a).Some? && EventTopic(s, b).Some?
    requires IsTelemetry(Split(a)[0]) <==> IsTelemetry(Split(b)[0])
    requires TenantOf(s, a) == TenantOf(s, b) && After(Split(a), 3) == After(Split(b), 3)
    ensures EventTopic(s, a) == EventTopic(s, b) <==> SameDevice(s.deviceId, DeviceOf(s, a), DeviceOf(s, b))
  {
    var own := GenericEvent(s, a);
    var other := GenericEvent(s, b);
    StripCollides(s.deviceId, DeviceOf(s, a), DeviceOf(s, b));
    hide EventTopic, SameDevice, StripGatewayID, Split, After;
    if EventTopic(s, a) == EventTopic(s, b) {
      GenericTopicsDiffer(s, Split(a)[0], TenantOf(s, a), own, other, After(Split(a), 3));
    }
  }

  /** The hub topic tells the gateway's own devices apart. */
  lemma GenericTopicsDiffer(s: Settings, kind: string, tenant: string, own: string, other: string, rest: seq<string>)
    requires GenericTopic(s, kind, tenant, own, rest) == GenericTopic(s, kind, tenant, other, rest)
    ensures own == other
  {
    var start := HubPrefix(s);
    var head := [if IsTelemetry(kind) then "telemetry" else "event", tenant, s.deviceId];
    var front := start + Join(head) + "/";
    assert head + [own] == [head[0], tenant, s.deviceId, own] && head + [other] == [head[0], tenant, s.deviceId, other];
    Parts(start, head, own, rest);
    Parts(start, head, other, rest);
    var tail := if rest == [] then "" else "/" + Join(rest);
    assert GenericTopic(s, kind, tenant, own, rest) == front + own + tail;
    assert GenericTopic(s, kind, tenant, other, rest) == front + other + tail;
    SameMiddle(front, own, other, tail);
  }

  lemma SameMiddle(front: string, a: string, b: string, tail: string)
    requires front + a + tail == front + b + tail
    ensures a == b
  {
    assert |a| == |b|;
    assert (front + a + tail)[|front|..|front| + |a|] == a;
    assert (front + b + tail)[|front|..|front| + |b|] == b;
  }

  lemma Parts(start: string, head: seq<string>, own: string, rest: seq<string>)
    requires head != []
    ensures start + Join(head + [own] + rest) == start + Join(head) + "/" + own + (if rest == [] then "" else "/" + Join(rest))
  {
    JoinConcat(head, [own]);
    if rest == [] {
      assert head + [own] + rest == head + [own];
    } else {
      JoinConcat(head + [own], rest);
    }
  }

  /** Another gateway's device is accepted when that gateway's id only continues
      this one's: it goes out as a device of this gateway. */
  lemma ForeignEvent(s: Settings)
    requires s.generic && s.deviceId == "gw1" && s.prefix == ""
    ensures EventTopic(s, "e/t/gw10:x") == Some("event/t/gw1/:x")
  {
    hide EventTopic, Join, StripGatewayID, Split, After;
    ForeignTexts();
    var own := GenericEvent(s, "e/t/gw10:x");
    StripForeign();
    assert ["event", "t", "gw1", own] + [] == ["event", "t", "gw1", ":x"];
    assert "" + "event/t/gw1/:x" == "event/t/gw1/:x";
  }

  lemma ForeignTexts()
    ensures Split("e/t/gw10:x") == ["e", "t", "gw10:x"] && After(["e", "t", "gw10:x"], 3) == []
    ensures Join(["event", "t", "gw1", ":x"]) == "event/t/gw1/:x"
  {
    ForeignSegments();
    hide Split, Join;
    BuildFour("", "event", "t", "gw1", ":x");
    assert "" + Join(["event", "t", "gw1", ":x"]) == Join(["event", "t", "gw1", ":x"]);
  }

  lemma ForeignSegments()
    ensures Split("e/t/gw10:x") == ["e", "t", "gw10:x"]
  {
    hide Split;
    ThreeSegments("e", "t", "gw10:x");
    assert "e" + "/" + "t" + "/" + "gw10:x" == "e/t/gw10:x";
  }

  lemma ThreeSegments(a: string, b: string, c: string)
    requires SlashFree(a) && SlashFree(b) && SlashFree(c)
    ensures Split(a + "/" + b + "/" + c) == [a, b, c]
  {
    SplitConcat(a + "/" + b, c);
    SplitFirst(a, b);
    assert Split(b) == [b] && Split(c) == [c];
    hide Split;
    assert [a] + [b] + [c] == [a, b, c];
  }
}
