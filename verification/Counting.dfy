/** The subscriptions of the local clients (routing/subscription.go) and the
    reference counts kept for them (connector/subscription_manager.go), as values.
    The classes of module Forwarding are proved to compute these functions. */
module Counting {
  import opened Options
  import opened TopicStrings
  import opened Util
  import opened Connection

  /** A subscription that a log message has announced. */
  datatype Item = Item(clientId: string, timestamp: int, topicId: string, topicReal: string)

  datatype Kind = Subscription | UnSubscription | Disconnection | Termination

  /** A parsed line of the broker's log. */
  datatype LogMessage = LogMessage(clientId: string, timestamp: int, text: string, kind: Kind)

  type Counts = map<string, int>

  /** The topic under which the command bus itself is subscribed on the hub connection. */
  const BUS_TOPIC := "command//+/req/#"

  // ---------- Counting ----------

  function AddCount(counts: Counts, topic: string): Counts {
    counts[topic := if topic in counts then counts[topic] + 1 else 1]
  }

  function RemoveCount(counts: Counts, topic: string): Counts {
    if topic !in counts then counts
    else if counts[topic] > 1 then counts[topic := counts[topic] - 1]
    else counts - {topic}
  }

  function Occurrences(items: seq<Item>, topic: string): nat {
    if items == [] then 0 else (if items[0].topicId == topic then 1 else 0) + Occurrences(items[1..], topic)
  }

  /** Each topic's count is the number of items that need it; absent means zero. */
  ghost predicate Counted(items: seq<Item>, counts: Counts) {
    forall t :: (t in counts <==> Occurrences(items, t) > 0) && (t in counts ==> counts[t] == Occurrences(items, t))
  }

  function RemoveAt(items: seq<Item>, i: nat): seq<Item>
    requires i < |items|
  {
    items[..i] + items[i + 1..]
  }

  lemma {:induction false} OccurrencesConcat(a: seq<Item>, b: seq<Item>, topic: string)
    ensures Occurrences(a + b, topic) == Occurrences(a, topic) + Occurrences(b, topic)
  {
    if a == [] {
      assert a + b == b;
    } else {
      OccurrencesConcat(a[1..], b, topic);
      assert (a + b)[1..] == a[1..] + b;
    }
  }

  lemma OccurrencesAppend(items: seq<Item>, item: Item, topic: string)
    ensures Occurrences(items + [item], topic) == Occurrences(items, topic) + (if item.topicId == topic then 1 else 0)
  {
    OccurrencesConcat(items, [item], topic);
  }

  lemma OccurrencesRemoveAt(items: seq<Item>, i: nat, topic: string)
    requires i < |items|
    ensures Occurrences(RemoveAt(items, i), topic) + (if items[i].topicId == topic then 1 else 0) == Occurrences(items, topic)
  {
    OccurrencesConcat(items[..i], items[i + 1..], topic);
    OccurrencesConcat(items[..i], items[i..], topic);
    assert items == items[..i] + items[i..];
    assert items[i..][1..] == items[i + 1..];
  }

  lemma CountedAdd(items: seq<Item>, counts: Counts, item: Item)
    requires Counted(items, counts)
    ensures Counted(items + [item], AddCount(counts, item.topicId))
  {
    forall t {
      OccurrencesAppend(items, item, t);
    }
  }

  lemma CountedRemove(items: seq<Item>, counts: Counts, i: nat)
    requires Counted(items, counts) && i < |items|
    ensures items[i].topicId in counts
    ensures Counted(RemoveAt(items, i), RemoveCount(counts, items[i].topicId))
  {
    forall t {
      OccurrencesRemoveAt(items, i, t);
    }
    assert Occurrences(items, items[i].topicId) > 0 by {
      OccurrencesRemoveAt(items, i, items[i].topicId);
    }
  }

  // ---------- Processing the log ----------

  /** `forwarded` holds the keys of the topic map of the connection that subscriptions
      are forwarded to, once there is one, and `calls` the calls on its client. */
  datatype Hub = Hub(items: seq<Item>, counts: Counts, forwarded: Option<set<string>>, calls: seq<ClientCall>)

  /** The clients whose messages are skipped. */
  datatype Own = Own(localId: string, cloudId: string)

  predicate FilterTopic(topic: string) {
    Contains(topic, "/+/")
  }

  /** Adding to the counts forwards a topic that had no count; `open` tells whether
      the connection is open then. */
  function AddTopic(h: Hub, topic: string, open: bool): Hub {
    var first := topic !in h.counts && h.forwarded.Some?;
    h.(counts := AddCount(h.counts, topic),
       forwarded := if first then Some(h.forwarded.value + {topic}) else h.forwarded,
       calls := h.calls + if first && open then [SubscribeMultiple([topic], QOS_AT_MOST_ONCE)] else [])
  }

  /** Removing from the counts withdraws a topic that loses its last count. */
  function RemoveTopic(h: Hub, topic: string, open: bool): Hub {
    var last := topic in h.counts && h.counts[topic] <= 1 && h.forwarded.Some?;
    h.(counts := RemoveCount(h.counts, topic),
       forwarded := if last then Some(h.forwarded.value - {topic}) else h.forwarded,
       calls := h.calls + if !last then [] else if open then [ClientCall.Unsubscribe([topic])] else [AddRoute(topic, true)])
  }

  function AddSubscription(h: Hub, m: LogMessage, open: bool): Hub {
    var topic := NormalizeTopic(m.text);
    if FilterTopic(topic) then h
    else AddTopic(h.(items := h.items + [Item(m.clientId, m.timestamp, topic, m.text)]), topic, open)
  }

  predicate Matches(item: Item, clientId: string, text: Option<string>) {
    item.clientId == clientId && (text.Some? ==> item.topicReal == text.value)
  }

  /** The first item of a client, with the given text if one is given, or -1. */
  function FirstItem(items: seq<Item>, clientId: string, text: Option<string>): (i: int)
    ensures -1 <= i < |items|
    ensures i >= 0 ==> Matches(items[i], clientId, text) && forall j :: 0 <= j < i ==> !Matches(items[j], clientId, text)
    ensures i == -1 ==> forall j :: 0 <= j < |items| ==> !Matches(items[j], clientId, text)
  {
    if items == [] then -1
    else if Matches(items[0], clientId, text) then 0
    else
      var i := FirstItem(items[1..], clientId, text);
      if i == -1 then -1 else i + 1
  }

  function RemoveSubscription(h: Hub, m: LogMessage, open: bool): Hub {
    var i := FirstItem(h.items, m.clientId, Some(m.text));
    if i == -1 then h else RemoveTopic(h.(items := RemoveAt(h.items, i)), NormalizeTopic(m.text), open)
  }

  /** What the code does for a client that has gone: removing a list element
      clears its successor, so the walk over the list ends at the first match. */
  function RemoveAllSubscriptions(h: Hub, clientId: string, open: bool): Hub {
    var i := FirstItem(h.items, clientId, None);
    if i == -1 then h else RemoveTopic(h.(items := RemoveAt(h.items, i)), h.items[i].topicId, open)
  }

  function Process(h: Hub, m: LogMessage, own: Own, open: bool): Hub {
    if m.clientId == own.localId || m.clientId == own.cloudId then h
    else match m.kind
      case Subscription => AddSubscription(h, m, open)
      case UnSubscription => RemoveSubscription(h, m, open)
      case _ => RemoveAllSubscriptions(h, m.clientId, open)
  }

  /** What a hand-over asks of the new client: one subscription for each topic, in the
      order in which the counts are ranged over, if the connection is open then. */
  function ForwardCalls(order: seq<string>, open: set<string>): seq<ClientCall> {
    if order == [] then []
    else
      var n := |order| - 1;
      ForwardCalls(order[..n], open) + if order[n] in open then [SubscribeMultiple([order[n]], QOS_AT_MOST_ONCE)] else []
  }

  // ---------- Runs ----------

  /** A parsed log message, a hand-over to a new hub connection (on which nothing
      is subscribed yet), or the command bus subscribing or unsubscribing itself on
      the current one. */
  datatype Event = Log(m: LogMessage, open: bool) | Forward(order: seq<string>, openFor: set<string>) | BusUp | BusDown

  /** `bus` tells whether the command bus is subscribed on the current connection;
      its own calls are not among those of the hub. */
  datatype World = World(hub: Hub, bus: bool)

  function Apply(w: World, e: Event, own: Own): World {
    match e
    case Log(m, open) => w.(hub := Process(w.hub, m, own, open))
    case Forward(order, openFor) => World(w.hub.(forwarded := Some(w.hub.counts.Keys), calls := ForwardCalls(order, openFor)), false)
    case BusUp =>
      if w.hub.forwarded.Some? then World(w.hub.(forwarded := Some(w.hub.forwarded.value + {BUS_TOPIC})), true) else w
    case BusDown =>
      if w.hub.forwarded.Some? then World(w.hub.(forwarded := Some(w.hub.forwarded.value - {BUS_TOPIC})), false) else w
  }

  function Run(events: seq<Event>, own: Own): World {
    if events == [] then World(Hub([], map[], None, []), false)
    else Apply(Run(events[..|events| - 1], own), events[|events| - 1], own)
  }

  /** Items carry the normal form of their topic and pass the filter. */
  ghost predicate ItemsNormal(items: seq<Item>) {
    forall i :: 0 <= i < |items| ==> items[i].topicId == NormalizeTopic(items[i].topicReal) && !FilterTopic(items[i].topicId)
  }

  /** The current connection carries the counted topics and the bus, nothing else. */
  ghost predicate Mirrored(h: Hub, bus: bool) {
    h.forwarded.Some? ==> h.forwarded.value == h.counts.Keys + (if bus then {BUS_TOPIC} else {})
  }

  ghost predicate Inv(w: World) {
    Counted(w.hub.items, w.hub.counts) && ItemsNormal(w.hub.items) && Mirrored(w.hub, w.bus)
  }

  lemma BusIsFiltered()
    ensures FilterTopic(BUS_TOPIC)
  {
    assert OccursAt(BUS_TOPIC, "/+/", 8);
  }

  /** A counted topic is never the bus topic: the filter keeps it out of the list. */
  lemma {:induction false} CountedIsNotBus(items: seq<Item>, topic: string)
    requires ItemsNormal(items) && Occurrences(items, topic) > 0
    ensures topic != BUS_TOPIC
  {
    BusIsFiltered();
    if items[0].topicId != topic {
      CountedIsNotBus(items[1..], topic);
    }
  }

  lemma AddTopicMirrored(h: Hub, topic: string, bus: bool, open: bool)
    requires Mirrored(h, bus)
    ensures Mirrored(AddTopic(h, topic, open), bus)
  {
  }

  lemma RemoveTopicMirrored(h: Hub, topic: string, bus: bool, open: bool)
    requires Mirrored(h, bus) && (topic in h.counts ==> topic != BUS_TOPIC)
    ensures Mirrored(RemoveTopic(h, topic, open), bus)
  {
  }

  lemma RemoveItemKeeps(w: World, i: nat, open: bool)
    requires Inv(w) && i < |w.hub.items|
    ensures Inv(w.(hub := RemoveTopic(w.hub.(items := RemoveAt(w.hub.items, i)), w.hub.items[i].topicId, open)))
  {
    var items := w.hub.items;
    CountedRemove(items, w.hub.counts, i);
    CountedIsNotBus(items, items[i].topicId);
    RemoveTopicMirrored(w.hub.(items := RemoveAt(items, i)), items[i].topicId, w.bus, open);
  }

  lemma AddItemKeeps(w: World, m: LogMessage, open: bool)
    requires Inv(w)
    ensures Inv(w.(hub := AddSubscription(w.hub, m, open)))
  {
    var topic := NormalizeTopic(m.text);
    var item := Item(m.clientId, m.timestamp, topic, m.text);
    CountedAdd(w.hub.items, w.hub.counts, item);
    AddTopicMirrored(w.hub.(items := w.hub.items + [item]), topic, w.bus, open);
  }

  lemma LogKeeps(w: World, m: LogMessage, own: Own, open: bool)
    requires Inv(w)
    ensures Inv(w.(hub := Process(w.hub, m, own, open)))
  {
    hide NormalizeTopic, Inv, RemoveTopic, RemoveAt, AddSubscription;
    match m.kind {
      case Subscription => AddItemKeeps(w, m, open);
      case UnSubscription => RemoveFirstKeeps(w, m.clientId, Some(m.text), open);
      case _ => RemoveFirstKeeps(w, m.clientId, None, open);
    }
  }

  /** The count that goes down is the one of the item that goes. */
  lemma RemoveFirstKeeps(w: World, clientId: string, text: Option<string>, open: bool)
    requires Inv(w)
    ensures var i := FirstItem(w.hub.items, clientId, text);
            i != -1 ==> Inv(w.(hub := RemoveTopic(w.hub.(items := RemoveAt(w.hub.items, i)), w.hub.items[i].topicId, open)))
                        && (text.Some? ==> w.hub.items[i].topicId == NormalizeTopic(text.value))
  {
    var i := FirstItem(w.hub.items, clientId, text);
    if i != -1 {
      RemoveItemKeeps(w, i, open);
    }
  }

  lemma ApplyKeeps(w: World, e: Event, own: Own)
    requires Inv(w)
    ensures Inv(Apply(w, e, own))
  {
    if e.Log? {
      LogKeeps(w, e.m, own, e.open);
    } else if BUS_TOPIC in w.hub.counts {
      CountedIsNotBus(w.hub.items, BUS_TOPIC);
    }
  }

  lemma {:induction false} RunKeeps(events: seq<Event>, own: Own)
    ensures Inv(Run(events, own))
  {
    if events != [] {
      RunKeeps(events[..|events| - 1], own);
      ApplyKeeps(Run(events[..|events| - 1], own), events[|events| - 1], own);
    }
  }

  /** After every run the count of a topic is the number of listed subscriptions
      with that normalised topic, and a topic without one is not counted. */
  lemma CountsAreExact(events: seq<Event>, own: Own, topic: string)
    ensures var hub := Run(events, own).hub;
            && (topic in hub.counts <==> Occurrences(hub.items, topic) > 0)
            && (topic in hub.counts ==> hub.counts[topic] == Occurrences(hub.items, topic))
  {
    RunKeeps(events, own);
  }

  /** After every run that includes a hand-over, the current connection is
      subscribed to exactly the topics that some listed subscription needs and,
      when it is up, to the command bus; the two never coincide. */
  lemma ForwardedIsExact(events: seq<Event>, own: Own, topic: string)
    requires Run(events, own).hub.forwarded.Some?
    ensures var w := Run(events, own);
            && (topic in w.hub.forwarded.value <==> Occurrences(w.hub.items, topic) > 0 || (w.bus && topic == BUS_TOPIC))
            && (Occurrences(w.hub.items, topic) > 0 ==> topic != BUS_TOPIC)
  {
    RunKeeps(events, own);
    var w := Run(events, own);
    if Occurrences(w.hub.items, topic) > 0 {
      CountedIsNotBus(w.hub.items, topic);
    }
  }

  /** No log message takes the command bus off the connection. */
  lemma BusStays(events: seq<Event>, own: Own, m: LogMessage, open: bool)
    requires Run(events, own).hub.forwarded.Some? && BUS_TOPIC in Run(events, own).hub.forwarded.value
    ensures var next := Run(events + [Log(m, open)], own).hub; next.forwarded.Some? && BUS_TOPIC in next.forwarded.value
  {
    RunNext(events, Log(m, open), own);
    ForwardedIsExact(events, own, BUS_TOPIC);
    ForwardedIsExact(events + [Log(m, open)], own, BUS_TOPIC);
  }

  // ---------- A client that goes ----------

  /** How many subscriptions of a client are listed. */
  function Held(items: seq<Item>, clientId: string): nat {
    if items == [] then 0 else (if items[0].clientId == clientId then 1 else 0) + Held(items[1..], clientId)
  }

  lemma {:induction false} HeldConcat(a: seq<Item>, b: seq<Item>, clientId: string)
    ensures Held(a + b, clientId) == Held(a, clientId) + Held(b, clientId)
  {
    if a == [] {
      assert a + b == b;
    } else {
      HeldConcat(a[1..], b, clientId);
      assert (a + b)[1..] == a[1..] + b;
    }
  }

  lemma {:induction false} HeldNone(items: seq<Item>, clientId: string)
    ensures Held(items, clientId) == 0 <==> FirstItem(items, clientId, None) == -1
  {
    if items != [] {
      HeldNone(items[1..], clientId);
    }
  }

  /** A disconnection removes one subscription of the client, if it has any: it
      leaves none exactly when the client had at most one, although all of them
      are meant to go. */
  lemma DisconnectRemovesOne(h: Hub, m: LogMessage, own: Own, open: bool)
    requires m.kind == Disconnection || m.kind == Termination
    requires m.clientId != own.localId && m.clientId != own.cloudId
    ensures var left := Held(Process(h, m, own, open).items, m.clientId);
            && left == (if Held(h.items, m.clientId) == 0 then 0 else Held(h.items, m.clientId) - 1)
            && (left == 0 <==> Held(h.items, m.clientId) <= 1)
  {
    HeldNone(h.items, m.clientId);
    var i := FirstItem(h.items, m.clientId, None);
    if i != -1 {
      HeldConcat(h.items[..i], h.items[i + 1..], m.clientId);
      HeldConcat(h.items[..i], h.items[i..], m.clientId);
      assert h.items == h.items[..i] + h.items[i..];
      assert h.items[i..][1..] == h.items[i + 1..];
    }
  }

  /** Two subscriptions and a disconnection, as the broker logs them: one
      subscription is left behind, and its topic stays forwarded. */
  lemma DisconnectLeavesTopic(own: Own, c: string)
    requires c != own.localId && c != own.cloudId
    ensures var events := [Forward([], {}),
                           Log(LogMessage(c, 1, "command//a/req/#", Subscription), true),
                           Log(LogMessage(c, 2, "command//b/req/#", Subscription), true),
                           Log(LogMessage(c, 3, "disconnected.", Disconnection), true)];
            Run(events, own).hub.forwarded == Some({"command//b/req/#"})
  {
    hide *;
    TwoFilters();
    LeftBehind(own, c, "command//a/req/#", "command//b/req/#", "disconnected.");
  }

  lemma TwoFilters()
    ensures "command//a/req/#" != "command//b/req/#"
    ensures NormalizeTopic("command//a/req/#") == "command//a/req/#" && !FilterTopic("command//a/req/#")
    ensures NormalizeTopic("command//b/req/#") == "command//b/req/#" && !FilterTopic("command//b/req/#")
  {
    hide NormalizeTopic, FilterTopic;
    PlainFilter("a");
    PlainFilter("b");
    assert LONG_COMMAND + "a" + LONG_REQUEST_END == "command//a/req/#";
    assert LONG_COMMAND + "b" + LONG_REQUEST_END == "command//b/req/#";
    assert "command//a/req/#"[9] != "command//b/req/#"[9];
  }

  lemma LeftBehind(own: Own, c: string, f: string, g: string, text: string)
    requires c != own.localId && c != own.cloudId && f != g
    requires NormalizeTopic(f) == f && NormalizeTopic(g) == g && !FilterTopic(f) && !FilterTopic(g)
    ensures var events := [Forward([], {}), Log(LogMessage(c, 1, f, Subscription), true), Log(LogMessage(c, 2, g, Subscription), true),
                           Log(LogMessage(c, 3, text, Disconnection), true)];
            Run(events, own).hub.forwarded == Some({g})
  {
    hide NormalizeTopic, FilterTopic;
    var start := Forward([], {});
    var a, b, d := Log(LogMessage(c, 1, f, Subscription), true), Log(LogMessage(c, 2, g, Subscription), true), Log(LogMessage(c, 3, text, Disconnection), true);
    RunOfFour(start, a, b, d, own);
    hide Run;
    var x, y := Item(c, 1, f, f), Item(c, 2, g, g);
    var subF, subG := SubscribeMultiple([f], QOS_AT_MOST_ONCE), SubscribeMultiple([g], QOS_AT_MOST_ONCE);
    var none: Counts := map[];
    var h0 := Hub([], none, Some({}), []);
    var h1 := Hub([x], none[f := 1], Some({f}), [subF]);
    var h2 := Hub([x, y], none[f := 1][g := 1], Some({f, g}), [subF, subG]);
    assert none.Keys == {};
    assert h0.items + [x] == h1.items && {} + {f} == {f} && h0.calls + [subF] == h1.calls;
    assert Process(h0, a.m, own, true) == AddTopic(h0.(items := [x]), f, true) == h1;
    assert h1.items + [y] == h2.items && {f} + {g} == {f, g} && h1.calls + [subG] == h2.calls;
    assert Process(h1, b.m, own, true) == AddTopic(h1.(items := [x, y]), g, true) == h2;
    assert FirstItem(h2.items, c, None) == 0;
    assert Process(h2, d.m, own, true) == RemoveTopic(h2.(items := RemoveAt(h2.items, 0)), f, true);
    assert {f, g} - {f} == {g};
  }

  lemma RunOfFour(a: Event, b: Event, c: Event, d: Event, own: Own)
    ensures Run([a, b, c, d], own) == Apply(Apply(Apply(Apply(World(Hub([], map[], None, []), false), a, own), b, own), c, own), d, own)
  {
    RunNext([], a, own);
    RunNext([a], b, own);
    RunNext([a, b], c, own);
    RunNext([a, b, c], d, own);
    assert [] + [a] == [a] && [a] + [b] == [a, b] && [a, b] + [c] == [a, b, c] && [a, b, c] + [d] == [a, b, c, d];
    hide Apply;
  }

  lemma RunNext(events: seq<Event>, e: Event, own: Own)
    ensures Run(events + [e], own) == Apply(Run(events, own), e, own)
  {
    assert (events + [e])[..|events + [e]| - 1] == events;
  }

  /** A command filter for one device is in normal form and not filtered, unless
      the device is the wildcard. */
  lemma PlainFilter(device: string)
    requires '/' !in device && '+' !in device
    ensures var f := LONG_COMMAND + device + LONG_REQUEST_END; NormalizeTopic(f) == f && !FilterTopic(f)
  {
    var f := LONG_COMMAND + device + LONG_REQUEST_END;
    CommandFilterNormal(true, true, device);
    hide NormalizeTopic;
    assert '+' !in f;
    var i := Find(f, "/+/");
    if i != -1 {
      PlusAt(f, i);
    }
  }

  lemma PlusAt(s: string, i: nat)
    requires OccursAt(s, "/+/", i)
    ensures s[i + 1] == '+'
  {
    assert s[i..i + 3][1] == '+';
  }
}
