/** The subscription manager (connector/subscription_manager.go) and the log
    handler that drives it (routing/subscription.go), run one call after the
    other; module ForwardRace has the interleavings. Whether the hub connection is
    open while a call talks to it is a parameter. */
module Forwarding {
  import opened Options
  import opened Util
  import opened Connection
  import opened Counting

  class SubscriptionManager {
    var topics: Counts
    var conn: MqttConnection?

    constructor ()
      ensures Valid() && View([]) == Hub([], map[], None, [])
    {
      topics := map[];
      conn := null;
    }

    /** Each counted topic is in the connection's topic map, alone in its record. */
    ghost predicate Valid()
      reads this, Touched(), if conn == null then {} else conn.Records()
    {
      conn != null ==>
        && conn.Valid()
        && forall t :: t in topics ==> t in conn.topics && conn.topics[t].topics == [t] && conn.topics[t].qos == QOS_AT_MOST_ONCE
    }

    ghost function Touched(): set<object>
      reads this
    {
      if conn == null then {} else {conn}
    }

    /** All that a call may change besides the manager itself. */
    ghost function Footprint(): set<object>
      reads this, Touched()
    {
      if conn == null then {} else {conn} + conn.Records()
    }

    /** Counts, forwarded topics and client calls, beside a list of items. */
    ghost function View(items: seq<Item>): Hub
      reads this, Touched()
    {
      Hub(items, topics, if conn == null then None else Some(conn.topics.Keys), if conn == null then [] else conn.calls)
    }

    method Add(topic: string, open: bool) returns (added: bool)
      requires Valid()
      modifies this`topics, Footprint()
      ensures Valid() && forall items :: View(items) == AddTopic(old(View(items)), topic, open)
      ensures fresh(Footprint() - old(Footprint()))
      ensures added == (topic !in old(topics) && conn != null)
      ensures conn != null ==> conn.calls == old(conn.calls) + if added && open then [SubscribeMultiple([topic], 0)] else []
    {
      var first := Add0(topic);
      if first && conn != null {
        var id := conn.Subscribe(QOS_AT_MOST_ONCE, [topic], "", open);
        return true;
      }
      return false;
    }

    method Add0(topic: string) returns (first: bool)
      modifies this`topics
      ensures topics == AddCount(old(topics), topic) && first == (topic !in old(topics))
    {
      if topic in topics {
        topics := topics[topic := topics[topic] + 1];
        return false;
      }
      topics := topics[topic := 1];
      return true;
    }

    method Remove(topic: string, open: bool) returns (removed: bool)
      requires Valid()
      modifies this`topics, Footprint()
      ensures Valid() && forall items :: View(items) == RemoveTopic(old(View(items)), topic, open)
      ensures Footprint() <= old(Footprint())
      ensures removed == (topic in old(topics) && old(topics)[topic] <= 1 && conn != null)
      ensures conn != null ==> conn.calls == old(conn.calls) + if !removed then [] else if open then [ClientCall.Unsubscribe([topic])] else [AddRoute(topic, true)]
    {
      var last := Remove0(topic);
      if last && conn != null {
        conn.Unsubscribe(topic, true, open);
        return true;
      }
      return false;
    }

    method Remove0(topic: string) returns (last: bool)
      modifies this`topics
      ensures topics == RemoveCount(old(topics), topic)
      ensures last == (topic in old(topics) && old(topics)[topic] <= 1)
    {
      if topic in topics {
        if topics[topic] > 1 {
          topics := topics[topic := topics[topic] - 1];
          return false;
        }
        topics := topics - {topic};
        return true;
      }
      return false;
    }

    /** The counted topics, in the order in which the map happens to be ranged over. */
    method CopyTopics(clear: bool) returns (result: seq<string>)
      modifies this`topics
      ensures forall t :: t in result <==> t in old(topics)
      ensures |result| == |old(topics)|
      ensures topics == if clear then map[] else old(topics)
    {
      result := [];
      var rest := topics;
      while rest != map[]
        invariant forall t :: t in topics <==> t in result || t in rest
        invariant |result| + |rest| == |topics|
        decreases |rest|
      {
        var t :| t in rest;
        result := result + [t];
        rest := rest - {t};
      }
      if clear {
        topics := map[];
      }
    }

    /** Subscriptions go to `c` from now on, the counted ones at once, in some order. */
    method ForwardTo(c: MqttConnection, open: set<string>) returns (ghost order: seq<string>)
      requires c.Valid()
      modifies this, c, c.Records()
      ensures Valid() && conn == c
      ensures (forall t :: t in order <==> t in old(topics)) && |order| == |old(topics)|
      ensures forall items :: View(items) == Hub(items, old(topics), Some(old(c.topics.Keys) + old(topics.Keys)), old(c.calls) + ForwardCalls(order, open))
    {
      conn := c;
      var copied := CopyTopics(false);
      order := copied;
      SubscribeAll(c, copied, open);
      assert c.topics.Keys == old(c.topics.Keys) + old(topics.Keys);
    }

    method SubscribeAll(c: MqttConnection, copied: seq<string>, open: set<string>)
      requires c.Valid()
      modifies c
      ensures c.Valid() && Carries(c.topics, copied)
      ensures forall t :: t in c.topics <==> t in old(c.topics) || t in copied
      ensures c.calls == old(c.calls) + ForwardCalls(copied, open)
    {
      assert ForwardCalls([], open) == [] && Carries(c.topics, []);
      hide ForwardCalls, Carries;
      var i := 0;
      while i < |copied|
        invariant 0 <= i <= |copied| && c.Valid() && Carries(c.topics, copied[..i])
        invariant forall t :: t in c.topics <==> t in old(c.topics) || t in copied[..i]
        invariant c.calls == old(c.calls) + ForwardCalls(copied[..i], open)
      {
        ghost var before := c.topics;
        var id := c.Subscribe(QOS_AT_MOST_ONCE, [copied[i]], "", copied[i] in open);
        ForwardNext(copied, i, open);
        CarriesNext(before, c.topics, copied, i);
        i := i + 1;
      }
      assert copied[..i] == copied;
    }
  }

  /** Each of the topics is in the map, alone in its record. */
  ghost predicate Carries(records: map<string, SubscriptionInfo>, topics: seq<string>) {
    forall t :: t in topics ==> t in records && records[t].topics == [t] && records[t].qos == QOS_AT_MOST_ONCE
  }

  lemma CarriesNext(before: map<string, SubscriptionInfo>, after: map<string, SubscriptionInfo>, topics: seq<string>, i: nat)
    requires i < |topics| && Carries(before, topics[..i])
    requires topics[i] in after && after[topics[i]].topics == [topics[i]] && after[topics[i]].qos == QOS_AT_MOST_ONCE
    requires forall t :: t in before && t != topics[i] ==> t in after && after[t] == before[t]
    ensures Carries(after, topics[..i + 1])
  {
    assert topics[..i + 1] == topics[..i] + [topics[i]];
  }

  class LogHandler {
    var items: seq<Item>
    const manager: SubscriptionManager
    const own: Own

    constructor (manager: SubscriptionManager, own: Own)
      ensures this.manager == manager && this.own == own && items == []
    {
      this.items := [];
      this.manager := manager;
      this.own := own;
    }

    ghost function View(): Hub
      reads this, manager, manager.Touched()
    {
      manager.View(items)
    }

    /** Handles one parsed log message. */
    method ProcessLogs(m: LogMessage, open: bool)
      requires manager.Valid()
      modifies this`items, manager`topics, manager.Footprint()
      ensures manager.Valid() && View() == Process(old(View()), m, own, open)
      ensures fresh(manager.Footprint() - old(manager.Footprint()))
    {
      if m.clientId == own.localId || m.clientId == own.cloudId {
        return;
      }
      match m.kind {
        case Subscription => AddSubscription(m, open);
        case UnSubscription => RemoveSubscription(m, open);
        case Disconnection => RemoveAllSubscriptions(m.clientId, open);
        case Termination => RemoveAllSubscriptions(m.clientId, open);
      }
    }

    method AddSubscription(m: LogMessage, open: bool)
      requires manager.Valid()
      modifies this`items, manager`topics, manager.Footprint()
      ensures manager.Valid() && View() == Counting.AddSubscription(old(View()), m, open)
      ensures fresh(manager.Footprint() - old(manager.Footprint()))
    {
      hide NormalizeTopic, FilterTopic, AddTopic;
      var topicNorm := NormalizeTopic(m.text);
      if FilterTopic(topicNorm) {
        return;
      }
      items := items + [Item(m.clientId, m.timestamp, topicNorm, m.text)];
      var added := manager.Add(topicNorm, open);
    }

    method RemoveSubscription(m: LogMessage, open: bool)
      requires manager.Valid()
      modifies this`items, manager`topics, manager.Footprint()
      ensures manager.Valid() && View() == Counting.RemoveSubscription(old(View()), m, open)
      ensures manager.Footprint() <= old(manager.Footprint())
    {
      hide NormalizeTopic, RemoveTopic;
      var found := false;
      var e := 0;
      while e < |items|
        invariant 0 <= e <= |items| && items == old(items)
        invariant forall j :: 0 <= j < e ==> !Matches(items[j], m.clientId, Some(m.text))
        invariant !found
      {
        if items[e].clientId == m.clientId && items[e].topicReal == m.text {
          found := true;
          break;
        }
        e := e + 1;
      }
      if !found {
        return;
      }
      FirstIsUnique(items, m.clientId, Some(m.text), e);
      items := RemoveAt(items, e);
      var removed := manager.Remove(NormalizeTopic(m.text), open);
    }

    /** A walk over the list by Next: `None` is the end, which an element that was
        removed under way also leads to. */
    method RemoveAllSubscriptions(clientId: string, open: bool)
      requires manager.Valid()
      modifies this`items, manager`topics, manager.Footprint()
      ensures manager.Valid() && View() == Counting.RemoveAllSubscriptions(old(View()), clientId, open)
      ensures manager.Footprint() <= old(manager.Footprint())
    {
      hide RemoveTopic;
      var subs: seq<Item> := [];
      var e: Option<nat> := if items == [] then None else Some(0);
      while e.Some?
        invariant e.Some? ==> subs == [] && items == old(items) && e.value < |items|
                              && forall j :: 0 <= j < e.value ==> !Matches(items[j], clientId, None)
        invariant e.None? && subs == [] ==> items == old(items) && FirstItem(items, clientId, None) == -1
        invariant subs != [] ==> var i := FirstItem(old(items), clientId, None);
                                 e.None? && i != -1 && subs == [old(items)[i]] && items == RemoveAt(old(items), i)
        modifies this`items
        decreases if e.Some? then |items| - e.value else -1
      {
        var i := e.value;
        if items[i].clientId == clientId {
          FirstIsUnique(items, clientId, None, i);
          subs := subs + [items[i]];
          items := RemoveAt(items, i);
          e := None;
        } else {
          e := if i + 1 < |items| then Some(i + 1) else None;
        }
      }
      ghost var walked := View();
      var k := 0;
      while k < |subs|
        invariant 0 <= k <= |subs| && manager.Valid() && manager.Footprint() <= old(manager.Footprint())
        invariant View() == if k == 0 then walked else RemoveTopic(walked, subs[0].topicId, open)
      {
        var removed := manager.Remove(subs[k].topicId, open);
        k := k + 1;
      }
    }
  }

  lemma ForwardNext(order: seq<string>, i: nat, open: set<string>)
    requires i < |order|
    ensures order[..i + 1] == order[..i] + [order[i]]
    ensures ForwardCalls(order[..i + 1], open) == ForwardCalls(order[..i], open) + if order[i] in open then [SubscribeMultiple([order[i]], QOS_AT_MOST_ONCE)] else []
  {
    assert order[..i + 1][..i] == order[..i];
  }

  lemma FirstIsUnique(items: seq<Item>, clientId: string, text: Option<string>, i: nat)
    requires i < |items| && Matches(items[i], clientId, text)
    requires forall j :: 0 <= j < i ==> !Matches(items[j], clientId, text)
    ensures FirstItem(items, clientId, text) == i
  {
  }
}
