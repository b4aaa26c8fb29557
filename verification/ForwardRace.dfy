/** Handing the forwarded subscriptions over to a new connection while the log
    handler goes on (connector/subscription_manager.go): one handler thread calls
    Add and Remove, one launcher thread calls ForwardTo, and they interleave at
    every lock, load, store and call on a connection. */
module ForwardRace {
  import opened Machines
  import opened Options
  import opened Counting

  /** Between its steps the handler is idle; or has changed the counts and still has
      to load the connection; or has loaded it and still has to change its topic
      map; or has changed that and still has to call its client. */
  datatype HandlerPc =
    | Idle
    | Added(topic: string)
    | AddLoaded(topic: string, loaded: Option<nat>)
    | AddStored(topic: string, c: nat)
    | Removed(topic: string)
    | RemoveLoaded(topic: string, loaded: Option<nat>)
    | RemoveDeleted(topic: string, c: nat)

  /** ForwardTo has stored its connection; or has copied the topics, of which `rest`
      is still to be subscribed; or has stored `topic` in the connection's topic map
      and still has to call the client. */
  datatype LauncherPc = Ready | Stored(c: nat) | Copied(c: nat, rest: set<string>) | Calling(c: nat, rest: set<string>, topic: string)

  /** Of each connection, `registered` holds the keys of its topic map and `subscribed`
      the topics for which the last client call was to subscribe. */
  datatype State = State(
    counts: Counts,
    conn: Option<nat>,
    registered: map<nat, set<string>>,
    subscribed: map<nat, set<string>>,
    handler: HandlerPc,
    launcher: LauncherPc)

  datatype Step =
    | AddBody(topic: string)
    | AddLoad
    | AddStore
    | AddCall
    | RemoveBody(topic: string)
    | RemoveLoad
    | RemoveDelete
    | RemoveCall
    | Store(c: nat)
    | Copy
    | StoreOne(topic: string)
    | CallOne
    | Finish

  function On(topics: map<nat, set<string>>, c: nat): set<string> {
    if c in topics then topics[c] else {}
  }

  function With(topics: map<nat, set<string>>, c: nat, topic: string): map<nat, set<string>> {
    topics[c := On(topics, c) + {topic}]
  }

  function Without(topics: map<nat, set<string>>, c: nat, topic: string): map<nat, set<string>> {
    topics[c := On(topics, c) - {topic}]
  }

  ghost predicate HandlerNext(s: State, step: Step, t: State) {
    match step
    case AddBody(topic) =>
      s.handler == Idle
      && t == s.(counts := AddCount(s.counts, topic), handler := if topic in s.counts then Idle else Added(topic))
    case AddLoad =>
      s.handler.Added? && t == s.(handler := AddLoaded(s.handler.topic, s.conn))
    case AddStore =>
      s.handler.AddLoaded?
      && t == if s.handler.loaded.None? then s.(handler := Idle)
              else s.(registered := With(s.registered, s.handler.loaded.value, s.handler.topic),
                      handler := AddStored(s.handler.topic, s.handler.loaded.value))
    case AddCall =>
      s.handler.AddStored? && t == s.(subscribed := With(s.subscribed, s.handler.c, s.handler.topic), handler := Idle)
    case RemoveBody(topic) =>
      s.handler == Idle
      && t == s.(counts := RemoveCount(s.counts, topic),
                 handler := if topic in s.counts && s.counts[topic] <= 1 then Removed(topic) else Idle)
    case RemoveLoad =>
      s.handler.Removed? && t == s.(handler := RemoveLoaded(s.handler.topic, s.conn))
    case RemoveDelete =>
      s.handler.RemoveLoaded?
      && t == if s.handler.loaded.Some? && s.handler.topic in On(s.registered, s.handler.loaded.value)
              then s.(registered := Without(s.registered, s.handler.loaded.value, s.handler.topic),
                      handler := RemoveDeleted(s.handler.topic, s.handler.loaded.value))
              else s.(handler := Idle)
    case RemoveCall =>
      s.handler.RemoveDeleted? && t == s.(subscribed := Without(s.subscribed, s.handler.c, s.handler.topic), handler := Idle)
    case _ => false
  }

  ghost predicate LauncherNext(s: State, step: Step, t: State) {
    match step
    case Store(c) =>
      s.launcher == Ready && t == s.(conn := Some(c), launcher := Stored(c))
    case Copy =>
      s.launcher.Stored? && t == s.(launcher := Copied(s.launcher.c, s.counts.Keys))
    case StoreOne(topic) =>
      s.launcher.Copied? && topic in s.launcher.rest
      && t == s.(registered := With(s.registered, s.launcher.c, topic),
                 launcher := Calling(s.launcher.c, s.launcher.rest - {topic}, topic))
    case CallOne =>
      s.launcher.Calling?
      && t == s.(subscribed := With(s.subscribed, s.launcher.c, s.launcher.topic), launcher := Copied(s.launcher.c, s.launcher.rest))
    case Finish =>
      s.launcher.Copied? && s.launcher.rest == {} && t == s.(launcher := Ready)
    case _ => false
  }

  ghost predicate Next(s: State, step: Step, t: State) {
    HandlerNext(s, step, t) || LauncherNext(s, step, t)
  }

  ghost predicate Init(s: State) {
    s == State(map[], None, map[], map[], Idle, Ready)
  }

  ghost predicate Execution(states: seq<State>, steps: seq<Step>) {
    Runs(Init, Next, states, steps)
  }

  /** ForwardTo is still to store `topic` in the topic map of `c`. */
  predicate ToStore(s: State, c: nat, topic: string) {
    (s.launcher.Copied? || s.launcher.Calling?) && s.launcher.c == c && topic in s.launcher.rest
  }

  /** ForwardTo has stored `topic` there and not yet called the client. */
  predicate Uncalled(s: State, c: nat, topic: string) {
    s.launcher.Calling? && s.launcher.c == c && s.launcher.topic == topic
  }

  /** ForwardTo is still to make the client call for `topic` on `c`. */
  predicate ToCall(s: State, c: nat, topic: string) {
    ToStore(s, c, topic) || Uncalled(s, c, topic)
  }

  /** `topic` is registered on the current connection `c`, or one of the threads
      is still on its way to registering it there. */
  ghost predicate Covered(s: State, c: nat, topic: string) {
    || topic in On(s.registered, c)
    || s.handler == Added(topic)
    || s.handler == AddLoaded(topic, Some(c))
    || s.launcher == Stored(c)
    || ToStore(s, c, topic)
  }

  /** The same for the client's call. */
  ghost predicate CallCovered(s: State, c: nat, topic: string) {
    || topic in On(s.subscribed, c)
    || s.handler == Added(topic)
    || s.handler == AddLoaded(topic, Some(c))
    || s.handler == AddStored(topic, c)
    || s.launcher == Stored(c)
    || ToCall(s, c, topic)
  }

  predicate Adding(pc: HandlerPc) {
    pc.Added? || pc.AddLoaded? || pc.AddStored?
  }

  predicate Removing(pc: HandlerPc) {
    pc.Removed? || pc.RemoveLoaded? || pc.RemoveDeleted?
  }

  /** What holds for one topic. */
  ghost predicate TopicInv(s: State, topic: string) {
    && (s.conn.Some? && topic in s.counts ==> Covered(s, s.conn.value, topic) && CallCovered(s, s.conn.value, topic))
    && (Adding(s.handler) && s.handler.topic == topic ==> topic in s.counts)
    && (Removing(s.handler) && s.handler.topic == topic ==> topic !in s.counts)
    && (s.handler.AddStored? && s.handler.topic == topic ==> topic in On(s.registered, s.handler.c))
  }

  /** ForwardTo works on the connection that it has made the current one. */
  predicate OnCurrent(s: State) {
    !s.launcher.Ready? ==> s.conn == Some(s.launcher.c)
  }

  ghost predicate Inv(s: State) {
    OnCurrent(s) && forall topic: string :: TopicInv(s, topic)
  }

  predicate AddStep(step: Step) {
    step.AddBody? || step.AddLoad? || step.AddStore? || step.AddCall?
  }

  lemma TopicByAdd(s: State, step: Step, t: State, topic: string)
    requires OnCurrent(s) && TopicInv(s, topic) && HandlerNext(s, step, t) && AddStep(step)
    ensures TopicInv(t, topic)
  {
  }

  lemma TopicByRemove(s: State, step: Step, t: State, topic: string)
    requires OnCurrent(s) && TopicInv(s, topic) && HandlerNext(s, step, t) && !AddStep(step)
    ensures TopicInv(t, topic)
  {
  }

  lemma TopicByLauncher(s: State, step: Step, t: State, topic: string)
    requires OnCurrent(s) && TopicInv(s, topic) && LauncherNext(s, step, t)
    ensures TopicInv(t, topic)
  {
  }

  lemma Preserved(s: State, step: Step, t: State)
    requires Inv(s) && Next(s, step, t)
    ensures Inv(t)
  {
    CurrentNext(s, step, t);
    hide HandlerNext, LauncherNext, TopicInv, OnCurrent;
    forall topic: string ensures TopicInv(t, topic) {
      if HandlerNext(s, step, t) && AddStep(step) {
        TopicByAdd(s, step, t, topic);
      } else if HandlerNext(s, step, t) {
        TopicByRemove(s, step, t, topic);
      } else {
        TopicByLauncher(s, step, t, topic);
      }
    }
  }

  lemma CurrentNext(s: State, step: Step, t: State)
    requires OnCurrent(s) && Next(s, step, t)
    ensures OnCurrent(t)
  {
  }

  lemma Reachable(states: seq<State>, steps: seq<Step>, k: nat)
    requires Execution(states, steps) && k < |states|
    ensures Inv(states[k])
  {
    forall s, step, t | Inv(s) && Next(s, step, t) ensures Inv(t) {
      Preserved(s, step, t);
    }
    Always(Init, Next, Inv, states, steps, k);
  }

  /** Both threads are between calls, and there has been a hand-over. */
  predicate Quiet(s: State) {
    s.handler == Idle && s.launcher == Ready && s.conn.Some?
  }

  /** No forward is lost: whenever both threads are between calls, each counted topic
      is registered on the connection that was handed over last, and the last call
      that its client got for the topic was to subscribe. */
  lemma NoLostForward(states: seq<State>, steps: seq<Step>, k: nat, topic: string)
    requires Execution(states, steps) && k < |states| && Quiet(states[k])
    requires topic in states[k].counts
    ensures topic in On(states[k].registered, states[k].conn.value)
    ensures topic in On(states[k].subscribed, states[k].conn.value)
  {
    Reachable(states, steps, k);
    assert TopicInv(states[k], topic);
  }

  // ---------- The topics that stay without a count ----------

  /** After some steps: the topics whose removal from the topic map, or at the client,
      came while ForwardTo was still to store them, or to call the client for them,
      on the same connection, and that were not added again since. */
  datatype Overtaken = Overtaken(stores: set<string>, calls: set<string>)

  ghost function OvertakenAfter(states: seq<State>, steps: seq<Step>, k: nat): Overtaken
    requires k <= |steps| <= |states|
  {
    if k == 0 then Overtaken({}, {}) else OvertakenBy(states[k - 1], steps[k - 1], OvertakenAfter(states, steps, k - 1))
  }

  ghost function OvertakenBy(s: State, step: Step, o: Overtaken): Overtaken {
    match step
    case AddBody(topic) => Overtaken(o.stores - {topic}, o.calls - {topic})
    case Store(_) => Overtaken({}, {})
    case RemoveDelete =>
      if s.handler.RemoveLoaded? && s.handler.loaded.Some?
      then
        var c, topic := s.handler.loaded.value, s.handler.topic;
        Overtaken(if ToStore(s, c, topic) then o.stores + {topic} else o.stores,
                  if ToStore(s, c, topic) && topic !in On(s.registered, c) then o.calls + {topic} else o.calls)
      else o
    case RemoveCall =>
      if s.handler.RemoveDeleted? && ToCall(s, s.handler.c, s.handler.topic) then o.(calls := o.calls + {s.handler.topic}) else o
    case _ => o
  }

  /** Each hand-over is to a connection on which nothing is subscribed yet. */
  ghost predicate EmptyHandOvers(states: seq<State>, steps: seq<Step>)
    requires |steps| <= |states|
  {
    forall k :: 0 <= k < |steps| ==> EmptyHandOver(states[k], steps[k])
  }

  predicate EmptyHandOver(s: State, step: Step) {
    step.Store? ==> On(s.registered, step.c) == {} && On(s.subscribed, step.c) == {}
  }

  /** The handler is about to take `topic` out of the topic map of `c`. */
  predicate ToDelete(s: State, c: nat, topic: string) {
    s.handler == Removed(topic) || s.handler == RemoveLoaded(topic, Some(c))
  }

  /** A topic in the current connection's topic map, or on its way there, has a
      count, or is overtaken, or is about to go again. */
  predicate StoreExplained(s: State, c: nat, o: Overtaken, topic: string) {
    && (topic in On(s.registered, c) || ToStore(s, c, topic) ==> topic in s.counts || topic in o.stores || ToDelete(s, c, topic))
    && (topic in o.stores ==> topic !in s.counts && (topic in On(s.registered, c) || ToStore(s, c, topic)))
    && (s.handler.Removed? || s.handler.RemoveLoaded? ==> s.handler.topic == topic ==> topic !in o.stores)
  }

  /** The same for the client's calls, and a topic that is subscribed is registered,
      unless it is overtaken or the handler is about to make up for it. */
  predicate CallExplained(s: State, c: nat, o: Overtaken, topic: string) {
    && (topic in On(s.subscribed, c) || ToCall(s, c, topic) ==>
          topic in s.counts || topic in o.calls || ToDelete(s, c, topic) || s.handler == RemoveDeleted(topic, c))
    && (topic in o.calls ==> topic !in s.counts && (topic in On(s.subscribed, c) || ToCall(s, c, topic)))
    && (Removing(s.handler) && s.handler.topic == topic ==> topic !in o.calls)
    && (topic in On(s.subscribed, c) || Uncalled(s, c, topic) ==>
          topic in On(s.registered, c) || topic in o.calls || MadeUpFor(s, c, topic))
  }

  /** The handler is about to call the client, or to store, so that they agree. */
  predicate MadeUpFor(s: State, c: nat, topic: string) {
    s.handler == RemoveDeleted(topic, c) || s.handler == Added(topic) || s.handler == AddLoaded(topic, Some(c))
  }

  predicate TopicExplained(s: State, o: Overtaken, topic: string) {
    if s.conn.None? then topic !in o.stores && topic !in o.calls
    else StoreExplained(s, s.conn.value, o, topic) && CallExplained(s, s.conn.value, o, topic)
  }

  ghost predicate Explained(s: State, o: Overtaken) {
    forall topic: string :: TopicExplained(s, o, topic)
  }

  lemma StoreByHandler(s: State, step: Step, t: State, c: nat, o: Overtaken, topic: string)
    requires OnCurrent(s) && TopicInv(s, topic) && s.conn == Some(c) && StoreExplained(s, c, o, topic) && HandlerNext(s, step, t)
    ensures StoreExplained(t, c, OvertakenBy(s, step, o), topic)
  {
  }

  lemma CallByAdd(s: State, step: Step, t: State, c: nat, o: Overtaken, topic: string)
    requires OnCurrent(s) && TopicInv(s, topic) && s.conn == Some(c) && CallExplained(s, c, o, topic)
    requires HandlerNext(s, step, t) && AddStep(step)
    ensures CallExplained(t, c, OvertakenBy(s, step, o), topic)
  {
  }

  lemma CallByRemove(s: State, step: Step, t: State, c: nat, o: Overtaken, topic: string)
    requires OnCurrent(s) && TopicInv(s, topic) && s.conn == Some(c) && CallExplained(s, c, o, topic)
    requires HandlerNext(s, step, t) && !AddStep(step)
    ensures CallExplained(t, c, OvertakenBy(s, step, o), topic)
  {
  }

  lemma ExplainedByLauncher(s: State, step: Step, t: State, o: Overtaken, topic: string)
    requires OnCurrent(s) && TopicInv(s, topic) && TopicExplained(s, o, topic)
    requires LauncherNext(s, step, t) && EmptyHandOver(s, step)
    ensures TopicExplained(t, OvertakenBy(s, step, o), topic)
  {
  }

  lemma UnconnectedByHandler(s: State, step: Step, t: State, o: Overtaken, topic: string)
    requires OnCurrent(s) && s.conn.None? && TopicExplained(s, o, topic) && HandlerNext(s, step, t)
    ensures TopicExplained(t, OvertakenBy(s, step, o), topic)
  {
  }

  lemma TopicExplainedNext(s: State, step: Step, t: State, o: Overtaken, topic: string)
    requires OnCurrent(s) && TopicInv(s, topic) && TopicExplained(s, o, topic) && Next(s, step, t) && EmptyHandOver(s, step)
    ensures TopicExplained(t, OvertakenBy(s, step, o), topic)
  {
    if LauncherNext(s, step, t) {
      ExplainedByLauncher(s, step, t, o, topic);
    } else if s.conn.None? {
      UnconnectedByHandler(s, step, t, o, topic);
    } else {
      HandlerKeepsConnection(s, step, t);
      hide StoreExplained, CallExplained, HandlerNext, OvertakenBy;
      StoreByHandler(s, step, t, s.conn.value, o, topic);
      if AddStep(step) {
        CallByAdd(s, step, t, s.conn.value, o, topic);
      } else {
        CallByRemove(s, step, t, s.conn.value, o, topic);
      }
    }
  }

  lemma HandlerKeepsConnection(s: State, step: Step, t: State)
    requires HandlerNext(s, step, t)
    ensures t.conn == s.conn
  {
  }

  lemma ExplainedNext(s: State, step: Step, t: State, o: Overtaken)
    requires Inv(s) && Explained(s, o) && Next(s, step, t) && EmptyHandOver(s, step)
    ensures Explained(t, OvertakenBy(s, step, o))
  {
    hide TopicInv, TopicExplained, Next, OvertakenBy;
    forall topic: string ensures TopicExplained(t, OvertakenBy(s, step, o), topic) {
      TopicExplainedNext(s, step, t, o, topic);
    }
  }

  lemma {:induction false} ExplainedThroughout(states: seq<State>, steps: seq<Step>, k: nat)
    requires Execution(states, steps) && EmptyHandOvers(states, steps) && k < |states|
    ensures Explained(states[k], OvertakenAfter(states, steps, k))
  {
    hide Inv, Next, OvertakenBy;
    if k > 0 {
      ExplainedThroughout(states, steps, k - 1);
      Reachable(states, steps, k - 1);
      assert Next(states[k - 1], steps[k - 1], states[k - 1 + 1]);
      ExplainedNext(states[k - 1], steps[k - 1], states[k], OvertakenAfter(states, steps, k - 1));
    }
  }

  /** Whenever both threads are between calls, the current connection's topic map has
      exactly the counted topics and those overtaken there, and its client has
      subscribed exactly the counted topics and those overtaken at the client. So
      each of them has the counted topics alone exactly when none was overtaken. */
  lemma ForwardedExactly(states: seq<State>, steps: seq<Step>, k: nat)
    requires Execution(states, steps) && EmptyHandOvers(states, steps) && k < |states| && Quiet(states[k])
    ensures var s, o := states[k], OvertakenAfter(states, steps, k);
            && On(s.registered, s.conn.value) == s.counts.Keys + o.stores
            && On(s.subscribed, s.conn.value) == s.counts.Keys + o.calls
            && (On(s.registered, s.conn.value) == s.counts.Keys <==> o.stores == {})
            && (On(s.subscribed, s.conn.value) == s.counts.Keys <==> o.calls == {})
  {
    ExplainedThroughout(states, steps, k);
    var s, o := states[k], OvertakenAfter(states, steps, k);
    hide OvertakenAfter, Execution;
    forall topic: string
      ensures topic in On(s.registered, s.conn.value) <==> topic in s.counts.Keys + o.stores
      ensures topic in On(s.subscribed, s.conn.value) <==> topic in s.counts.Keys + o.calls
      ensures topic in o.stores || topic in o.calls ==> topic !in s.counts
    {
      assert TopicExplained(s, o, topic);
      if topic in s.counts {
        NoLostForward(states, steps, k, topic);
      }
    }
    Apart(s.counts.Keys, o.stores);
    Apart(s.counts.Keys, o.calls);
  }

  lemma Apart(counted: set<string>, overtaken: set<string>)
    requires counted !! overtaken
    ensures counted + overtaken == counted <==> overtaken == {}
  {
    if overtaken != {} {
      var topic :| topic in overtaken;
      assert topic in counted + overtaken && topic !in counted;
    }
  }

  lemma ThenEmpty(states: seq<State>, steps: seq<Step>, a: State, step: Step, t: State) returns (states': seq<State>, steps': seq<Step>)
    requires Execution(states, steps) && EmptyHandOvers(states, steps) && states[|steps|] == a && Next(a, step, t) && EmptyHandOver(a, step)
    ensures Execution(states', steps') && EmptyHandOvers(states', steps') && states'[|steps'|] == t
  {
    states', steps' := Extend(Init, Next, states, steps, step, t);
  }

  /** A run in which a topic is overtaken: a Remove between the copy and the calls
      of a hand-over leaves its topic subscribed although nothing counts it. */
  lemma StaleForward() returns (states: seq<State>, steps: seq<Step>)
    ensures Execution(states, steps) && EmptyHandOvers(states, steps) && Quiet(states[|steps|])
    ensures var s := states[|steps|];
            s.counts == map[] && s.conn == Some(1) && On(s.registered, 1) == On(s.subscribed, 1) == {"a"}
  {
    var e;
    states, steps, e := HandedOver();
    var f := e.(counts := e.counts - {"a"}, handler := Removed("a"));
    var g := f.(handler := RemoveLoaded("a", Some(1)));
    var h := g.(handler := Idle);
    assert Next(e, RemoveBody("a"), f) && Next(f, RemoveLoad, g) && Next(g, RemoveDelete, h);
    var i := h.(registered := With(h.registered, 1, "a"), launcher := Calling(1, {"a"} - {"a"}, "a"));
    var j := i.(subscribed := With(i.subscribed, 1, "a"), launcher := Copied(1, {"a"} - {"a"}));
    var k := j.(launcher := Ready);
    assert Next(h, StoreOne("a"), i) && Next(i, CallOne, j) && Next(j, Finish, k);
    hide Next, Execution, EmptyHandOvers;
    states, steps := ThenEmpty(states, steps, e, RemoveBody("a"), f);
    states, steps := ThenEmpty(states, steps, f, RemoveLoad, g);
    states, steps := ThenEmpty(states, steps, g, RemoveDelete, h);
    states, steps := ThenEmpty(states, steps, h, StoreOne("a"), i);
    states, steps := ThenEmpty(states, steps, i, CallOne, j);
    states, steps := ThenEmpty(states, steps, j, Finish, k);
  }

  /** One topic is counted, and ForwardTo has just copied it. */
  lemma HandedOver() returns (states: seq<State>, steps: seq<Step>, e: State)
    ensures Execution(states, steps) && EmptyHandOvers(states, steps) && states[|steps|] == e
    ensures e == State(map["a" := 1], Some(1), map[], map[], Idle, Copied(1, {"a"}))
  {
    var none: Counts := map[];
    var s := State(none, None, map[], map[], Idle, Ready);
    var a := s.(counts := none["a" := 1], handler := Added("a"));
    var b := a.(handler := AddLoaded("a", None));
    var c := b.(handler := Idle);
    var d := c.(conn := Some(1), launcher := Stored(1));
    assert Next(s, AddBody("a"), a) && Next(a, AddLoad, b) && Next(b, AddStore, c) && Next(c, Store(1), d);
    assert none["a" := 1].Keys == {"a"} && none["a" := 1] == map["a" := 1];
    e := d.(launcher := Copied(1, {"a"}));
    assert Next(d, Copy, e);
    states, steps := [s], [];
    assert Execution(states, steps) && EmptyHandOvers(states, steps);
    hide Next, Execution, EmptyHandOvers;
    states, steps := ThenEmpty(states, steps, s, AddBody("a"), a);
    states, steps := ThenEmpty(states, steps, a, AddLoad, b);
    states, steps := ThenEmpty(states, steps, b, AddStore, c);
    states, steps := ThenEmpty(states, steps, c, Store(1), d);
    states, steps := ThenEmpty(states, steps, d, Copy, e);
  }
}
