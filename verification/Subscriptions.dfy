/** What log messages do to the list of subscriptions (routing/subscription.go), client
    by client and text by text, and what the client of the hub connection has been
    asked for in the end (connector/subscription_manager.go). */
module Subscriptions {
  import opened Options
  import opened TopicStrings
  import opened Util
  import opened Connection
  import opened Counting

  // ---------- The list ----------

  /** How many subscriptions of a client with a text are listed. */
  function Listed(items: seq<Item>, clientId: string, text: string): nat {
    if items == [] then 0
    else (if items[0].clientId == clientId && items[0].topicReal == text then 1 else 0) + Listed(items[1..], clientId, text)
  }

  lemma {:induction false} ListedConcat(a: seq<Item>, b: seq<Item>, clientId: string, text: string)
    ensures Listed(a + b, clientId, text) == Listed(a, clientId, text) + Listed(b, clientId, text)
  {
    if a == [] {
      assert a + b == b;
    } else {
      ListedConcat(a[1..], b, clientId, text);
      assert (a + b)[1..] == a[1..] + b;
    }
  }

  lemma ListedWithout(items: seq<Item>, i: nat, clientId: string, text: string)
    requires i < |items|
    ensures Listed(RemoveAt(items, i), clientId, text) + (if items[i].clientId == clientId && items[i].topicReal == text then 1 else 0)
            == Listed(items, clientId, text)
  {
    ListedConcat(items[..i], items[i + 1..], clientId, text);
    ListedConcat(items[..i], items[i..], clientId, text);
    assert items == items[..i] + items[i..];
    assert items[i..][1..] == items[i + 1..];
  }

  lemma {:induction false} ListedNone(items: seq<Item>, clientId: string, text: string)
    ensures Listed(items, clientId, text) == 0 <==> FirstItem(items, clientId, Some(text)) == -1
  {
    if items != [] {
      ListedNone(items[1..], clientId, text);
    }
  }

  /** Messages about the connector's own clients change nothing. */
  lemma OwnIgnored(h: Hub, m: LogMessage, own: Own, open: bool)
    requires m.clientId == own.localId || m.clientId == own.cloudId
    ensures Process(h, m, own, open) == h
  {
  }

  /** A subscription is listed once more, unless the normal form of its text has a
      single-level wildcard between slashes; nothing else in the list changes. */
  lemma SubscriptionListed(h: Hub, m: LogMessage, own: Own, open: bool, clientId: string, text: string)
    requires m.kind == Subscription && m.clientId != own.localId && m.clientId != own.cloudId
    ensures Listed(Process(h, m, own, open).items, clientId, text)
            == Listed(h.items, clientId, text)
               + (if clientId == m.clientId && text == m.text && !(exists k :: OccursAt(NormalizeTopic(m.text), "/+/", k)) then 1 else 0)
  {
    var topic := NormalizeTopic(m.text);
    ListedConcat(h.items, [Item(m.clientId, m.timestamp, topic, m.text)], clientId, text);
  }

  /** An unsubscription takes out one listed subscription of that client with that
      text, if there is one, and no other. */
  lemma UnsubscriptionListed(h: Hub, m: LogMessage, own: Own, open: bool, clientId: string, text: string)
    requires m.kind == UnSubscription && m.clientId != own.localId && m.clientId != own.cloudId
    ensures Listed(Process(h, m, own, open).items, clientId, text)
            == Listed(h.items, clientId, text)
               - (if clientId == m.clientId && text == m.text && Listed(h.items, clientId, text) > 0 then 1 else 0)
  {
    hide NormalizeTopic;
    var i := FirstItem(h.items, m.clientId, Some(m.text));
    ListedNone(h.items, m.clientId, m.text);
    if i != -1 {
      ListedWithout(h.items, i, clientId, text);
    }
  }

  /** A client that goes leaves the subscriptions of the others alone, and its own
      texts but one. */
  lemma DisconnectionListed(h: Hub, m: LogMessage, own: Own, open: bool, clientId: string, text: string)
    requires (m.kind == Disconnection || m.kind == Termination) && m.clientId != own.localId && m.clientId != own.cloudId
    ensures Listed(Process(h, m, own, open).items, clientId, text)
            == Listed(h.items, clientId, text)
               - (var i := FirstItem(h.items, m.clientId, None);
                  if i != -1 && clientId == m.clientId && text == h.items[i].topicReal then 1 else 0)
  {
    var i := FirstItem(h.items, m.clientId, None);
    if i != -1 {
      ListedWithout(h.items, i, clientId, text);
    }
  }

  // ---------- Subscribing and unsubscribing again ----------

  lemma {:induction false} NobodyElse(items: seq<Item>, text: string, clientId: string)
    requires ItemsNormal(items) && Occurrences(items, NormalizeTopic(text)) == 0
    ensures FirstItem(items, clientId, Some(text)) == -1
  {
    if items != [] {
      NobodyElse(items[1..], text, clientId);
    }
  }

  lemma {:induction false} FirstIsLast(items: seq<Item>, item: Item, text: string)
    requires FirstItem(items, item.clientId, Some(text)) == -1 && item.topicReal == text
    ensures FirstItem(items + [item], item.clientId, Some(text)) == |items|
    ensures RemoveAt(items + [item], |items|) == items
  {
    if items != [] {
      FirstIsLast(items[1..], item, text);
      assert (items + [item])[1..] == items[1..] + [item];
    }
  }

  lemma CountedAgain(counts: Counts, topic: string)
    requires topic !in counts
    ensures RemoveCount(AddCount(counts, topic), topic) == counts
    ensures AddCount(counts, topic)[topic] == 1
  {
  }

  /** A topic that nobody else needs: subscribing and then unsubscribing leaves list,
      counts and forwarded topics as they were, and the client, if the connection is
      open, with one subscription and one unsubscription of that topic. */
  lemma SubscribeUnsubscribe(events: seq<Event>, own: Own, clientId: string, text: string, time: int, later: int)
    requires clientId != own.localId && clientId != own.cloudId
    requires Occurrences(Run(events, own).hub.items, NormalizeTopic(text)) == 0 && Run(events, own).hub.forwarded.Some?
    ensures var before := Run(events, own).hub;
            var after := Run(events + [Log(LogMessage(clientId, time, text, Subscription), true)]
                                    + [Log(LogMessage(clientId, later, text, UnSubscription), true)], own).hub;
            && after.items == before.items && after.counts == before.counts && after.forwarded == before.forwarded
            && after.calls == before.calls + if exists k :: OccursAt(NormalizeTopic(text), "/+/", k) then []
                                             else [SubscribeMultiple([NormalizeTopic(text)], 0), ClientCall.Unsubscribe([NormalizeTopic(text)])]
  {
    var sub, unsub := LogMessage(clientId, time, text, Subscription), LogMessage(clientId, later, text, UnSubscription);
    RunKeeps(events, own);
    RunNext(events, Log(sub, true), own);
    RunNext(events + [Log(sub, true)], Log(unsub, true), own);
    var before, topic := Run(events, own), NormalizeTopic(text);
    NobodyElse(before.hub.items, text, clientId);
    hide Run, NormalizeTopic;
    if !FilterTopic(topic) {
      BackAgain(before, sub, unsub, own);
    } else {
      assert Process(before.hub, sub, own, true) == before.hub;
    }
  }

  lemma BackAgain(w: World, sub: LogMessage, unsub: LogMessage, own: Own)
    requires Inv(w) && w.hub.forwarded.Some? && sub.clientId == unsub.clientId && sub.text == unsub.text
    requires sub.kind == Subscription && unsub.kind == UnSubscription
    requires sub.clientId != own.localId && sub.clientId != own.cloudId
    requires var topic := NormalizeTopic(sub.text);
             && !FilterTopic(topic) && Occurrences(w.hub.items, topic) == 0 && FirstItem(w.hub.items, sub.clientId, Some(sub.text)) == -1
    ensures var topic := NormalizeTopic(sub.text);
            Process(Process(w.hub, sub, own, true), unsub, own, true)
            == w.hub.(calls := w.hub.calls + [SubscribeMultiple([topic], QOS_AT_MOST_ONCE), ClientCall.Unsubscribe([topic])])
  {
    var h, topic := w.hub, NormalizeTopic(sub.text);
    var item := Item(sub.clientId, sub.timestamp, topic, sub.text);
    BusIsFiltered();
    assert topic !in h.counts && topic !in h.forwarded.value;
    FirstIsLast(h.items, item, sub.text);
    CountedAgain(h.counts, topic);
    hide NormalizeTopic, FilterTopic, Inv, FirstItem, RemoveAt, AddCount, RemoveCount;
    assert h.forwarded.value + {topic} - {topic} == h.forwarded.value;
    var one := AddTopic(h.(items := h.items + [item]), topic, true);
    assert Process(h, sub, own, true) == one;
    var two := RemoveTopic(one.(items := h.items), topic, true);
    assert Process(one, unsub, own, true) == two;
    assert h.calls + [SubscribeMultiple([topic], QOS_AT_MOST_ONCE)] + [ClientCall.Unsubscribe([topic])]
        == h.calls + [SubscribeMultiple([topic], QOS_AT_MOST_ONCE), ClientCall.Unsubscribe([topic])];
  }

  // ---------- What the client has been asked for ----------

  /** Whether `topic` is subscribed after a call, if it was or not before it. */
  predicate After(call: ClientCall, topic: string, before: bool) {
    match call
    case SubscribeMultiple(topics, _) => topic in topics || before
    case Unsubscribe(topics) => topic !in topics && before
    case AddRoute(_, _) => before
  }

  /** The last call that names `topic`, other than for its route, is a subscription. */
  predicate Subscribed(calls: seq<ClientCall>, topic: string) {
    if calls == [] then false else After(calls[|calls| - 1], topic, Subscribed(calls[..|calls| - 1], topic))
  }

  lemma SubscribedNext(calls: seq<ClientCall>, call: ClientCall, topic: string)
    ensures Subscribed(calls + [call], topic) <==> After(call, topic, Subscribed(calls, topic))
  {
    assert (calls + [call])[..|calls + [call]| - 1] == calls;
  }

  lemma {:induction false} SubscribedByForward(order: seq<string>, open: set<string>, topic: string)
    requires forall t :: t in order ==> t in open
    ensures Subscribed(ForwardCalls(order, open), topic) <==> topic in order
  {
    if order != [] {
      var n := |order| - 1;
      SubscribedByForward(order[..n], open, topic);
      SubscribedNext(ForwardCalls(order[..n], open), SubscribeMultiple([order[n]], QOS_AT_MOST_ONCE), topic);
      assert order == order[..n] + [order[n]];
    }
  }

  /** The connection is open whenever it is used. */
  predicate AlwaysOpen(events: seq<Event>) {
    forall i :: 0 <= i < |events| ==> OpenFor(events[i])
  }

  predicate OpenFor(e: Event) {
    (e.Log? ==> e.open) && (e.Forward? ==> forall t :: t in e.order ==> t in e.openFor)
  }

  /** Each hand-over ranges over just the counted topics. */
  predicate Orderly(events: seq<Event>, own: Own) {
    forall i :: 0 <= i < |events| ==> RangesOver(Run(events[..i], own), events[i])
  }

  predicate RangesOver(w: World, e: Event) {
    e.Forward? ==> (forall t :: t in e.order ==> t in w.hub.counts) && (forall t :: t in w.hub.counts ==> t in e.order)
  }

  ghost predicate CallsInv(h: Hub) {
    h.forwarded.Some? ==> forall t: string :: Subscribed(h.calls, t) <==> t in h.counts
  }

  lemma CallsByAdd(h: Hub, topic: string)
    requires CallsInv(h)
    ensures CallsInv(AddTopic(h, topic, true))
  {
    if h.forwarded.Some? && topic !in h.counts {
      forall t: string {
        SubscribedNext(h.calls, SubscribeMultiple([topic], QOS_AT_MOST_ONCE), t);
      }
    } else {
      assert h.calls + [] == h.calls;
    }
  }

  lemma CallsByRemove(h: Hub, topic: string)
    requires CallsInv(h)
    ensures CallsInv(RemoveTopic(h, topic, true))
  {
    if h.forwarded.Some? && topic in h.counts && h.counts[topic] <= 1 {
      forall t: string {
        SubscribedNext(h.calls, ClientCall.Unsubscribe([topic]), t);
      }
    } else {
      assert h.calls + [] == h.calls;
    }
  }

  lemma CallsByEvent(w: World, e: Event, own: Own)
    requires CallsInv(w.hub) && OpenFor(e) && RangesOver(w, e)
    ensures CallsInv(Apply(w, e, own).hub)
  {
    if e.Forward? {
      forall t: string {
        SubscribedByForward(e.order, e.openFor, t);
      }
    } else if e.Log? && e.m.clientId != own.localId && e.m.clientId != own.cloudId {
      var h, m := w.hub, e.m;
      hide AddTopic, RemoveTopic, NormalizeTopic, FilterTopic;
      match m.kind {
        case Subscription =>
          CallsByAdd(h.(items := h.items + [Item(m.clientId, m.timestamp, NormalizeTopic(m.text), m.text)]), NormalizeTopic(m.text));
        case UnSubscription =>
          var i := FirstItem(h.items, m.clientId, Some(m.text));
          if i != -1 {
            CallsByRemove(h.(items := RemoveAt(h.items, i)), NormalizeTopic(m.text));
          }
        case _ =>
          var i := FirstItem(h.items, m.clientId, None);
          if i != -1 {
            CallsByRemove(h.(items := RemoveAt(h.items, i)), h.items[i].topicId);
          }
      }
    }
  }

  lemma {:induction false} CallsThroughout(events: seq<Event>, own: Own)
    requires AlwaysOpen(events) && Orderly(events, own)
    ensures CallsInv(Run(events, own).hub)
  {
    if events != [] {
      var n := |events| - 1;
      var front := events[..n];
      forall i | 0 <= i < n ensures RangesOver(Run(front[..i], own), front[i]) {
        assert front[..i] == events[..i];
        assert RangesOver(Run(events[..i], own), events[i]);
      }
      CallsThroughout(front, own);
      CallsByEvent(Run(front, own), events[n], own);
    }
  }

  /** After every run on an open connection, the last call that its client got for a
      topic is a subscription exactly when some listed subscription needs the topic. */
  lemma ClientFollows(events: seq<Event>, own: Own, topic: string)
    requires AlwaysOpen(events) && Orderly(events, own) && Run(events, own).hub.forwarded.Some?
    ensures Subscribed(Run(events, own).hub.calls, topic) <==> Occurrences(Run(events, own).hub.items, topic) > 0
  {
    CallsThroughout(events, own);
    CountsAreExact(events, own, topic);
  }
}
