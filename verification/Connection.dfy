/** The topic map of a connection (connector/connection.go). Calls on the MQTT
    client are recorded in the order in which they are made; whether the client's
    connection is open is a parameter of the call that asks. Module Records has
    the same operations as interleaved steps. */
module Connection {

  const QOS_AT_MOST_ONCE := 0

  datatype ClientCall =
    | SubscribeMultiple(topics: seq<string>, qos: int)
    | Unsubscribe(topics: seq<string>)
    | AddRoute(topic: string, toDefault: bool)

  class SubscriptionInfo {
    const topics: seq<string>
    const qos: int
    var disposed: bool

    constructor (topics: seq<string>, qos: int)
      ensures this.topics == topics && this.qos == qos && !disposed
    {
      this.topics := topics;
      this.qos := qos;
      this.disposed := false;
    }
  }

  function Routes(topics: seq<string>, toDefault: bool): (calls: seq<ClientCall>)
    ensures |calls| == |topics|
    ensures forall i :: 0 <= i < |topics| ==> calls[i] == AddRoute(topics[i], toDefault)
  {
    seq(|topics|, i requires 0 <= i < |topics| => AddRoute(topics[i], toDefault))
  }

  class MqttConnection {
    var topics: map<string, SubscriptionInfo>
    var calls: seq<ClientCall>

    constructor ()
      ensures Valid() && topics == map[] && calls == []
    {
      topics := map[];
      calls := [];
    }

    ghost function Records(): set<SubscriptionInfo>
      reads this
    {
      topics.Values
    }

    /** Every record in the map is live, has topics, and is stored once. */
    ghost predicate Valid()
      reads this, Records()
    {
      && (forall id :: id in topics ==> !topics[id].disposed && topics[id].topics != [])
      && (forall i, j :: i in topics && j in topics && topics[i] == topics[j] ==> i == j)
    }

    method Subscribe(qos: int, subs: seq<string>, uuid: string, open: bool) returns (id: string)
      requires Valid() && subs != []
      modifies this
      ensures Valid() && id == (if |subs| > 1 then uuid else subs[0])
      ensures topics.Keys == old(topics.Keys) + {id}
      ensures fresh(topics[id]) && topics[id].topics == subs && topics[id].qos == qos
      ensures forall k :: k in old(topics) && k != id ==> topics[k] == old(topics[k])
      ensures calls == old(calls) + if open then [SubscribeMultiple(subs, qos)]
                                    else if qos != QOS_AT_MOST_ONCE then Routes(subs, false) else []
    {
      id := subs[0];
      if |subs| > 1 {
        id := uuid;
      }
      var info := new SubscriptionInfo(subs, qos);
      topics := topics[id := info];
      if open {
        calls := calls + [SubscribeMultiple(subs, qos)];
      } else if qos != QOS_AT_MOST_ONCE {
        AddRoutes(subs, false);
      }
    }

    method AddRoutes(subs: seq<string>, toDefault: bool)
      modifies this`calls
      ensures calls == old(calls) + Routes(subs, toDefault)
    {
      var i := 0;
      while i < |subs|
        invariant 0 <= i <= |subs| && calls == old(calls) + Routes(subs[..i], toDefault)
      {
        assert Routes(subs[..i + 1], toDefault) == Routes(subs[..i], toDefault) + [AddRoute(subs[i], toDefault)];
        calls := calls + [AddRoute(subs[i], toDefault)];
        i := i + 1;
      }
      assert subs[..i] == subs;
    }

    method Unsubscribe(id: string, autoDelete: bool, open: bool)
      requires Valid()
      modifies this, Records()`disposed
      ensures Valid() && topics == old(topics) - {id}
      ensures id in old(topics) ==> old(topics)[id].disposed
      ensures calls == old(calls) + if id !in old(topics) then []
                                    else if autoDelete && open then [ClientCall.Unsubscribe(old(topics)[id].topics)]
                                    else Routes(old(topics)[id].topics, true)
    {
      if id !in topics {
        assert topics - {id} == topics;
        return;
      }
      var sub := topics[id];
      topics := topics - {id};
      sub.disposed := true;
      if autoDelete && open {
        calls := calls + [ClientCall.Unsubscribe(sub.topics)];
      } else {
        AddRoutes(sub.topics, true);
      }
    }

    ghost function Resubscriptions(order: seq<string>): (r: seq<ClientCall>)
      requires forall id :: id in order ==> id in topics
      reads this
      ensures |r| == |order|
      ensures forall i :: 0 <= i < |order| ==> r[i] == SubscribeMultiple(topics[order[i]].topics, topics[order[i]].qos)
    {
      seq(|order|, i requires 0 <= i < |order| && order[i] in topics reads this =>
        SubscribeMultiple(topics[order[i]].topics, topics[order[i]].qos))
    }

    /** On a new session every record is subscribed again, in the order in which
        the map is ranged over. */
    method OnConnected(order: seq<string>)
      requires Valid() && (forall id :: id in order <==> id in topics)
      modifies this`calls
      ensures Valid() && calls == old(calls) + Resubscriptions(order)
    {
      var i := 0;
      while i < |order|
        invariant 0 <= i <= |order| && calls == old(calls) + Resubscriptions(order)[..i]
      {
        var sub := topics[order[i]];
        if !sub.disposed {
          calls := calls + [SubscribeMultiple(sub.topics, sub.qos)];
        }
        i := i + 1;
      }
    }
  }
}
