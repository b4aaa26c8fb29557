/** What becomes of each record of a connection (connector/connection.go): where it
    is, who withdraws it, and whether the client call that subscribe makes itself
    can come after that. */
module Withdrawals {
  import opened Machines
  import opened Options
  import opened Records

  // ---------- Who holds a lock ----------

  ghost predicate HolderInv(s: State) {
    forall r :: 0 <= r < |s.records| ==>
      match s.records[r].holder
      case None => true
      case Some(Connector(c)) => c < |s.connectors| && ConnectorHolds(s.connectors[c]) && s.connectors[c].r == r
      case Some(Remover(m)) => m < |s.removers| && RemoverHolds(s.removers[m]) && s.removers[m].r == r
  }

  lemma HolderByConnector(s: State, c: nat, act: ConnectorAct, t: State)
    requires LockInv(s) && HolderInv(s) && ConnectorStep(s, c, act, t)
    ensures HolderInv(t)
  {
  }

  lemma HolderByRemover(s: State, m: nat, act: RemoverAct, t: State)
    requires LockInv(s) && HolderInv(s) && RemoverStep(s, m, act, t)
    ensures HolderInv(t)
  {
  }

  lemma HolderNext(s: State, step: Step, t: State)
    requires Inv(s) && HolderInv(s) && Next(s, step, t)
    ensures HolderInv(t)
  {
    match step {
      case OnConnected(c, act) => HolderByConnector(s, c, act, t);
      case Unsubscribe(m, act) => HolderByRemover(s, m, act, t);
      case _ =>
    }
  }

  // ---------- Where a record is ----------

  /** A record is in the map, or an unsubscribe has taken it out, or it was dropped. */
  ghost predicate PlaceInv(s: State) {
    && (forall r: nat :: r < |s.records| ==> r in s.dropped || r in s.topics.Values || r in s.owner)
    && (forall r: nat :: r in s.dropped ==> r < |s.records| && r !in s.topics.Values && r !in s.owner)
    && (forall r :: r in s.owner ==> var m := s.owner[r]; m < |s.removers| && Owns(s.removers[m]) && s.removers[m].r == r)
    && (forall m :: 0 <= m < |s.removers| && Owns(s.removers[m]) ==> s.removers[m].r in s.owner)
    && (forall m :: 0 <= m < |s.removers| && (s.removers[m].Called? || s.removers[m].Unlocked?) ==> Withdraw(s.removers[m].r) in s.calls)
    && (forall r: nat :: Withdraw(r) in s.calls ==> r in s.owner)
  }

  lemma PlaceByRemover(s: State, m: nat, act: RemoverAct, t: State)
    requires Inv(s) && PlaceInv(s) && RemoverStep(s, m, act, t)
    ensures PlaceInv(t)
  {
    hide LockInv, CallInv;
    if act == LoadAndDelete {
      PlaceByDelete(s, m, t);
    }
  }

  lemma PlaceByDelete(s: State, m: nat, t: State)
    requires Inv(s) && PlaceInv(s) && RemoverStep(s, m, LoadAndDelete, t)
    ensures PlaceInv(t)
  {
    hide LockInv, CallInv;
    if s.removers[m].id in s.topics {
      ValuesWithout(s.topics, s.removers[m].id);
    }
  }

  lemma ValuesWithout(topics: map<string, nat>, id: string)
    requires id in topics && forall i, j :: i in topics && j in topics && topics[i] == topics[j] ==> i == j
    ensures forall r :: r in (topics - {id}).Values <==> r in topics.Values && r != topics[id]
  {
    var rest := topics - {id};
    forall r | r in topics.Values && r != topics[id] ensures r in rest.Values {
      var k :| k in topics && topics[k] == r;
      assert rest[k] == r;
    }
    forall r | r in rest.Values ensures r in topics.Values && r != topics[id] {
      var k :| k in rest && rest[k] == r;
    }
  }

  lemma PlaceByStore(s: State, id: string, t: State)
    requires Inv(s) && PlaceInv(s) && Next(s, Store(id), t)
    ensures PlaceInv(t)
  {
    hide LockInv, CallInv;
    var r := |s.records|;
    assert t.topics[id] == r;
    forall x | x in s.topics.Values ensures x in t.topics.Values || x in t.dropped {
      var k :| k in s.topics && s.topics[k] == x;
      assert k != id ==> t.topics[k] == x;
    }
    forall x | x in t.topics.Values ensures x == r || (x in s.topics.Values && (id in s.topics ==> x != s.topics[id])) {
      var k :| k in t.topics && t.topics[k] == x;
    }
  }

  /** Nothing moves in any other step. */
  lemma PlaceStays(s: State, t: State)
    requires PlaceInv(s)
    requires |t.records| == |s.records| && t.topics == s.topics && t.dropped == s.dropped && t.owner == s.owner
    requires |s.removers| <= |t.removers| && forall m :: 0 <= m < |t.removers| ==> if m < |s.removers| then t.removers[m] == s.removers[m] else t.removers[m].Asking?
    requires forall r: nat :: Withdraw(r) in t.calls <==> Withdraw(r) in s.calls
    ensures PlaceInv(t)
  {
  }

  lemma PlaceNext(s: State, step: Step, t: State)
    requires Inv(s) && PlaceInv(s) && Next(s, step, t)
    ensures PlaceInv(t)
  {
    hide PlaceInv, Inv;
    match step {
      case Unsubscribe(m, act) => PlaceByRemover(s, m, act, t);
      case Store(id) => PlaceByStore(s, id, t);
      case OnConnected(_, _) => PlaceStays(s, t);
      case CallFirst(_, _) => PlaceStays(s, t);
      case StartConnected => PlaceStays(s, t);
      case StartUnsubscribe(_) => PlaceStays(s, t);
    }
  }

  ghost predicate FullInv(s: State) {
    Inv(s) && HolderInv(s) && PlaceInv(s)
  }

  lemma FullyReachable(states: seq<State>, steps: seq<Step>, k: nat)
    requires Execution(states, steps) && k < |states|
    ensures FullInv(states[k])
  {
    hide Inv, HolderInv, PlaceInv;
    forall s | Init(s) ensures FullInv(s) {
      FullyInitial(s);
    }
    forall s, step, t | FullInv(s) && Next(s, step, t) ensures FullInv(t) {
      Preserved(s, step, t);
      HolderNext(s, step, t);
      PlaceNext(s, step, t);
    }
    Always(Init, Next, FullInv, states, steps, k);
  }

  lemma FullyInitial(s: State)
    requires Init(s)
    ensures FullInv(s)
  {
  }

  // ---------- A visit ----------

  /** A callback that is done with a record has subscribed it, or has found it disposed. */
  ghost predicate VisitInv(s: State) {
    forall c :: 0 <= c < |s.connectors| && s.connectors[c].Leaving? ==>
      var r := s.connectors[c].r; r < |s.records| && (s.records[r].disposed || Resubscribe(r) in s.calls)
  }

  lemma VisitNext(s: State, step: Step, t: State)
    requires LockInv(s) && VisitInv(s) && Next(s, step, t)
    ensures VisitInv(t)
  {
    match step {
      case OnConnected(c, act) => VisitByConnector(s, c, act, t);
      case _ =>
    }
  }

  lemma VisitByConnector(s: State, c: nat, act: ConnectorAct, t: State)
    requires LockInv(s) && VisitInv(s) && ConnectorStep(s, c, act, t)
    ensures VisitInv(t)
  {
  }

  /** In every execution an onConnected callback leaves no live record that it was
      given without subscribing it again. */
  lemma {:induction false} VisitedIsSubscribed(states: seq<State>, steps: seq<Step>, k: nat)
    requires Execution(states, steps) && k < |states|
    ensures VisitInv(states[k])
  {
    hide LockInv, VisitInv, Next;
    if k == 0 {
      VisitBegins(states[0]);
    } else {
      VisitedIsSubscribed(states, steps, k - 1);
      Reachable(states, steps, k - 1);
      assert Next(states[k - 1], steps[k - 1], states[k - 1 + 1]);
      VisitNext(states[k - 1], steps[k - 1], states[k]);
    }
  }

  lemma VisitBegins(s: State)
    requires Init(s)
    ensures VisitInv(s)
  {
  }

  // ---------- Records that are dropped ----------

  /** No unsubscribe call is under way. */
  predicate NoneRemoving(s: State) {
    forall m :: 0 <= m < |s.removers| ==> s.removers[m].Missed? || s.removers[m].Unlocked?
  }

  /** Each store uses an id that no record in the map has. */
  ghost predicate FreshIds(states: seq<State>, steps: seq<Step>)
    requires |steps| <= |states|
  {
    forall k :: 0 <= k < |steps| && steps[k].Store? ==> steps[k].id !in states[k].topics
  }

  /** Once no unsubscribe is under way, a record that is in the map no more has been
      withdrawn, with no re-subscription after that, unless a store under its id
      dropped it, in which case it never is. */
  lemma WithdrawnUnlessDropped(states: seq<State>, steps: seq<Step>, k: nat, r: nat)
    requires Execution(states, steps) && k < |states|
    requires NoneRemoving(states[k]) && r < |states[k].records| && r !in states[k].topics.Values
    ensures var calls := states[k].calls;
            (exists i :: 0 <= i < |calls| && calls[i] == Withdraw(r) && forall j :: i < j < |calls| ==> calls[j] != Resubscribe(r))
            <==> r !in states[k].dropped
  {
    FullyReachable(states, steps, k);
    var s := states[k];
    if r !in s.dropped {
      assert s.removers[s.owner[r]].Unlocked?;
      var i :| 0 <= i < |s.calls| && s.calls[i] == Withdraw(r);
      assert forall j :: i < j < |s.calls| ==> s.calls[j] != Resubscribe(r);
    } else {
      assert Withdraw(r) !in s.calls;
    }
  }

  /** With fresh ids nothing is dropped: every record is withdrawn in the end. */
  lemma {:induction false} FreshIdsDropNothing(states: seq<State>, steps: seq<Step>, k: nat)
    requires Execution(states, steps) && FreshIds(states, steps) && k < |states|
    ensures states[k].dropped == {}
  {
    if k > 0 {
      FreshIdsDropNothing(states, steps, k - 1);
      assert Next(states[k - 1], steps[k - 1], states[k - 1 + 1]);
    }
  }

  // ---------- The call that subscribe makes itself ----------

  /** Some first call for `r` follows a call that withdraws `r`. */
  ghost predicate FirstAfterWithdraw(calls: seq<Call>, r: nat) {
    exists i, j :: 0 <= i < j < |calls| && calls[i] == Withdraw(r) && calls[j] == First(r)
  }

  /** One more call puts a first call behind a withdrawal only if it is that call. */
  lemma OneMoreCall(calls: seq<Call>, call: Call, r: nat)
    requires !FirstAfterWithdraw(calls, r)
    ensures call != First(r) || Withdraw(r) !in calls ==> !FirstAfterWithdraw(calls + [call], r)
  {
    var longer := calls + [call];
    if call != First(r) || Withdraw(r) !in calls {
      forall i, j | 0 <= i < j < |longer| && longer[i] == Withdraw(r) ensures longer[j] != First(r) {
        assert calls[i] == Withdraw(r);
      }
    }
  }

  /** Each unsubscribe takes out only records whose subscribe has returned. */
  ghost predicate Prompt(states: seq<State>, steps: seq<Step>)
    requires |steps| <= |states|
  {
    forall k :: 0 <= k < |steps| ==> !TakesPending(states[k], steps[k])
  }

  predicate TakesPending(s: State, step: Step) {
    && step.Unsubscribe? && step.removerAct.LoadAndDelete?
    && step.m < |s.removers| && s.removers[step.m].Asking?
    && s.removers[step.m].id in s.topics && s.topics[s.removers[step.m].id] in s.pending
  }

  ghost predicate OrderInv(s: State) {
    && (forall r :: r in s.pending ==> r < |s.records|)
    && (forall m :: 0 <= m < |s.removers| && Owns(s.removers[m]) ==> s.removers[m].r !in s.pending)
    && (forall r: nat :: Withdraw(r) in s.calls ==> r !in s.pending)
    && (forall r: nat :: !FirstAfterWithdraw(s.calls, r))
  }

  /** A call keeps the order, if a first call is due and a withdrawal is not early. */
  lemma OrderWithCall(s: State, t: State, call: Call)
    requires OrderInv(s) && t.calls == s.calls + [call]
    requires call.First? ==> call.r in s.pending && call.r !in t.pending
    requires call.Withdraw? ==> call.r !in t.pending
    requires t.pending <= s.pending && |t.records| == |s.records|
    requires forall m :: 0 <= m < |t.removers| && Owns(t.removers[m]) ==> t.removers[m].r !in t.pending
    ensures OrderInv(t)
  {
    hide FirstAfterWithdraw;
    forall r: nat ensures !FirstAfterWithdraw(t.calls, r) {
      OneMoreCall(s.calls, call, r);
    }
  }

  lemma OrderNext(s: State, step: Step, t: State)
    requires Inv(s) && OrderInv(s) && Next(s, step, t) && !TakesPending(s, step)
    ensures OrderInv(t)
  {
    hide FirstAfterWithdraw, LockInv, MapInv;
    OwnersNext(s, step, t);
    if t.calls != s.calls {
      hide Inv;
      OrderWithCall(s, t, t.calls[|t.calls| - 1]);
    }
  }

  /** What is owned is not pending. */
  lemma OwnersNext(s: State, step: Step, t: State)
    requires Inv(s) && OrderInv(s) && Next(s, step, t) && !TakesPending(s, step)
    ensures forall m :: 0 <= m < |t.removers| && Owns(t.removers[m]) ==> t.removers[m].r !in t.pending
    ensures forall r: nat :: Withdraw(r) in s.calls ==> r !in t.pending
    ensures forall r :: r in t.pending ==> r < |t.records|
  {
    match step {
      case OnConnected(c, act) => SameBesides(s, c, act, t);
      case Unsubscribe(m, act) => OwnersByRemover(s, m, act, t);
      case _ => hide FirstAfterWithdraw, LockInv, MapInv;
    }
  }

  lemma SameBesides(s: State, c: nat, act: ConnectorAct, t: State)
    requires ConnectorStep(s, c, act, t)
    ensures t.removers == s.removers && t.pending == s.pending && |t.records| == |s.records|
  {
  }

  lemma OwnersByRemover(s: State, m: nat, act: RemoverAct, t: State)
    requires RemoverStep(s, m, act, t) && !TakesPending(s, Unsubscribe(m, act))
    requires forall n :: 0 <= n < |s.removers| && Owns(s.removers[n]) ==> s.removers[n].r !in s.pending
    ensures t.pending == s.pending && |t.records| == |s.records|
    ensures forall n :: 0 <= n < |t.removers| && Owns(t.removers[n]) ==> t.removers[n].r !in t.pending
  {
  }

  lemma {:induction false} OrderThroughout(states: seq<State>, steps: seq<Step>, k: nat)
    requires Execution(states, steps) && Prompt(states, steps) && k < |states|
    ensures OrderInv(states[k])
  {
    hide Inv, Next;
    if k > 0 {
      OrderThroughout(states, steps, k - 1);
      Reachable(states, steps, k - 1);
      assert Next(states[k - 1], steps[k - 1], states[k - 1 + 1]);
      OrderNext(states[k - 1], steps[k - 1], states[k]);
    }
  }

  /** If unsubscribe is only called for what subscribe has returned, no call that
      subscribe makes follows the record's unsubscribe or re-route call. */
  lemma PromptIsOrdered(states: seq<State>, steps: seq<Step>, k: nat, r: nat)
    requires Execution(states, steps) && Prompt(states, steps) && k < |states|
    ensures !FirstAfterWithdraw(states[k].calls, r)
  {
    OrderThroughout(states, steps, k);
  }

  // ---------- From a record that was taken out ----------

  ghost predicate GoneInv(s: State, r: nat) {
    r < |s.records| && r !in s.pending && !FirstAfterWithdraw(s.calls, r)
  }

  lemma GoneNext(s: State, step: Step, t: State, r: nat)
    requires Inv(s) && GoneInv(s, r) && Next(s, step, t)
    ensures GoneInv(t, r)
  {
    hide FirstAfterWithdraw, Inv;
    if t.calls != s.calls {
      var call := t.calls[|t.calls| - 1];
      assert t.calls == s.calls + [call];
      OneMoreCall(s.calls, call, r);
    }
  }

  lemma {:induction false} GoneThroughout(states: seq<State>, steps: seq<Step>, from: nat, k: nat, r: nat)
    requires Execution(states, steps) && from <= k < |states| && GoneInv(states[from], r)
    ensures GoneInv(states[k], r)
  {
    hide Inv, Next, GoneInv;
    if k > from {
      GoneThroughout(states, steps, from, k - 1, r);
      Reachable(states, steps, k - 1);
      assert Next(states[k - 1], steps[k - 1], states[k - 1 + 1]);
      GoneNext(states[k - 1], steps[k - 1], states[k], r);
    }
  }

  /** An unsubscribe call has just taken out record `r`. */
  predicate Took(s: State, m: nat, r: nat) {
    m < |s.removers| && s.removers[m] == Taken(r)
  }

  /** An execution that begins with another one. */
  ghost predicate Continues(states: seq<State>, steps: seq<Step>, ss: seq<State>, ts: seq<Step>) {
    Execution(ss, ts) && states <= ss && steps <= ts
  }

  lemma Then(states: seq<State>, steps: seq<Step>, step: Step, t: State) returns (states': seq<State>, steps': seq<Step>)
    requires Execution(states, steps) && Next(states[|steps|], step, t)
    ensures Continues(states, steps, states', steps') && states'[|steps'|] == t
  {
    states', steps' := Extend(Init, Next, states, steps, step, t);
  }

  /** Whoever is inside the record's lock can come out of it. */
  lemma {:induction false} LockIsFreed(states: seq<State>, steps: seq<Step>, m: nat, r: nat) returns (ss: seq<State>, ts: seq<Step>)
    requires Execution(states, steps) && Took(states[|steps|], m, r) && r in states[|steps|].pending
    ensures Continues(states, steps, ss, ts)
    ensures var s := ss[|ts|]; Took(s, m, r) && r in s.pending && r < |s.records| && s.records[r].holder.None?
    decreases ConnectorRank(states[|steps|], r)
  {
    var s := states[|steps|];
    FullyReachable(states, steps, |steps|);
    assert Owns(s.removers[m]) && r < |s.records|;
    if s.records[r].holder.None? {
      return states, steps;
    }
    var c := HolderIsConnector(s, m, r);
    var step, t := ConnectorGoesOn(s, c, r);
    hide Next, Execution, FullInv;
    ss, ts := Then(states, steps, step, t);
    ss, ts := LockIsFreed(ss, ts, m, r);
  }

  /** How many steps the callback inside the lock has left there. */
  function ConnectorRank(s: State, r: nat): nat {
    if r < |s.records| && s.records[r].holder.Some? && s.records[r].holder.value.Connector? && s.records[r].holder.value.c < |s.connectors|
    then match s.connectors[s.records[r].holder.value.c]
      case Inside(_) => 3
      case Live(_) => 2
      case _ => 1
    else 0
  }

  lemma HolderIsConnector(s: State, m: nat, r: nat) returns (c: nat)
    requires FullInv(s) && Took(s, m, r) && r < |s.records| && s.records[r].holder.Some?
    ensures s.records[r].holder == Some(Connector(c)) && c < |s.connectors|
    ensures ConnectorHolds(s.connectors[c]) && s.connectors[c].r == r
  {
    match s.records[r].holder.value {
      case Connector(d) => c := d;
      case Remover(n) =>
        assert false;
    }
  }

  lemma ConnectorGoesOn(s: State, c: nat, r: nat) returns (step: Step, t: State)
    requires r < |s.records| && s.records[r].holder == Some(Connector(c)) && c < |s.connectors|
    requires ConnectorHolds(s.connectors[c]) && s.connectors[c].r == r
    ensures Next(s, step, t) && ConnectorRank(t, r) < ConnectorRank(s, r)
    ensures t.removers == s.removers && t.pending == s.pending
  {
    match s.connectors[c] {
      case Inside(_) => step, t := OnConnected(c, TestFlag), ConnectorAt(s, c, if s.records[r].disposed then ConnectorPc.Leaving(r) else Live(r));
      case Live(_) => step, t := OnConnected(c, CallSubscribe), ConnectorAt(s, c, ConnectorPc.Leaving(r)).(calls := s.calls + [Resubscribe(r)]);
      case Leaving(_) => step, t := OnConnected(c, UnlockVisited), ConnectorAt(WithHolder(s, r, None), c, Ranging);
    }
  }

  /** The record is withdrawn, and only then subscribe makes its call. */
  lemma FirstAtLast(states: seq<State>, steps: seq<Step>, m: nat, r: nat) returns (ss: seq<State>, ts: seq<Step>)
    requires Execution(states, steps) && Took(states[|steps|], m, r)
    requires var s := states[|steps|]; r in s.pending && r < |s.records| && s.records[r].holder.None?
    ensures Continues(states, steps, ss, ts) && FirstAfterWithdraw(ss[|ts|].calls, r)
  {
    var s := states[|steps|];
    var a := RemoverAt(WithHolder(s, r, Some(Remover(m))), m, Holding(r));
    var b := RemoverAt(a, m, Flagged(r)).(records := a.records[r := a.records[r].(disposed := true, disposals := a.records[r].disposals + 1)]);
    var c := RemoverAt(b, m, Called(r)).(calls := s.calls + [Withdraw(r)]);
    var d := c.(pending := c.pending - {r}, calls := c.calls + [First(r)]);
    assert Next(s, Unsubscribe(m, LockTaken), a);
    assert Next(a, Unsubscribe(m, SetDisposed), b);
    assert Next(b, Unsubscribe(m, CallWithdraw), c);
    assert Next(c, CallFirst(r, true), d);
    assert d.calls[|s.calls|] == Withdraw(r) && d.calls[|s.calls| + 1] == First(r);
    hide Next, Execution;
    ss, ts := Then(states, steps, Unsubscribe(m, LockTaken), a);
    ss, ts := Then(ss, ts, Unsubscribe(m, SetDisposed), b);
    ss, ts := Then(ss, ts, Unsubscribe(m, CallWithdraw), c);
    ss, ts := Then(ss, ts, CallFirst(r, true), d);
  }

  /** Once an unsubscribe has taken out a record, the call that the record's subscribe
      makes itself can still come after the unsubscribe or re-route call, in some
      continuation, exactly if that subscribe has not made its call yet. */
  lemma FirstCanFollow(states: seq<State>, steps: seq<Step>, m: nat, r: nat)
    requires Execution(states, steps) && Took(states[|steps|], m, r)
    ensures (exists ss: seq<State>, ts: seq<Step> :: Continues(states, steps, ss, ts) && FirstAfterWithdraw(ss[|ts|].calls, r))
            <==> r in states[|steps|].pending
  {
    if r in states[|steps|].pending {
      var ss, ts := LockIsFreed(states, steps, m, r);
      ss, ts := FirstAtLast(ss, ts, m, r);
    } else {
      TakenIsGone(states, steps, m, r);
      forall ss: seq<State>, ts: seq<Step> | Continues(states, steps, ss, ts) ensures !FirstAfterWithdraw(ss[|ts|].calls, r) {
        assert ss[|steps|] == states[|steps|];
        GoneThroughout(ss, ts, |steps|, |ts|, r);
      }
    }
  }

  lemma TakenIsGone(states: seq<State>, steps: seq<Step>, m: nat, r: nat)
    requires Execution(states, steps) && Took(states[|steps|], m, r) && r !in states[|steps|].pending
    ensures GoneInv(states[|steps|], r)
  {
    var s := states[|steps|];
    Reachable(states, steps, |steps|);
    assert Owns(s.removers[m]) && !HasFlagged(s.removers[m]) && s.removers[m].r == r;
    assert Withdraw(r) !in s.calls;
  }

  // ---------- Two runs ----------

  lemma Started() returns (states: seq<State>, steps: seq<Step>)
    ensures Execution(states, steps)
    ensures states[|steps|] == State([Record(false, 0, None)], map["a" := 0], {0}, {}, map[], [], [], [])
  {
    var none: map<string, nat> := map[];
    var s := State([], none, {}, {}, map[], [], [], []);
    var t := s.(records := [Record(false, 0, None)], topics := none["a" := 0], pending := {} + {0});
    states, steps := [s], [];
    assert Execution(states, steps) && Next(s, Store("a"), t);
    hide Next, Execution;
    states, steps := Then(states, steps, Store("a"), t);
    assert none["a" := 0] == map["a" := 0] && {} + {0} == {0};
  }

  /** A run in which an unsubscribe overtakes the subscribe that it undoes. */
  lemma EarlyWithdraw() returns (states: seq<State>, steps: seq<Step>)
    ensures Execution(states, steps) && FirstAfterWithdraw(states[|steps|].calls, 0)
  {
    states, steps := Started();
    var s := states[|steps|];
    var t := s.(removers := [Asking("a")]);
    var u := t.(removers := [Taken(0)], topics := t.topics - {"a"}, owner := t.owner[0 := 0]);
    assert Next(s, StartUnsubscribe("a"), t) && Next(t, Unsubscribe(0, LoadAndDelete), u);
    hide Next, Execution;
    states, steps := Then(states, steps, StartUnsubscribe("a"), t);
    states, steps := Then(states, steps, Unsubscribe(0, LoadAndDelete), u);
    states, steps := LockIsFreed(states, steps, 0, 0);
    states, steps := FirstAtLast(states, steps, 0, 0);
  }

  /** A callback holds record 0 when a second store under its id drops it. */
  lemma Dropped() returns (states: seq<State>, steps: seq<Step>, s: State)
    ensures Execution(states, steps) && states[|steps|] == s
    ensures s == State([Record(false, 0, None), Record(false, 0, None)], map["a" := 1], {0, 1}, {0}, map[], [Visiting(0)], [], [])
  {
    states, steps := Started();
    var a := states[|steps|];
    var b := a.(connectors := [Ranging]);
    var c := a.(connectors := [Visiting(0)]);
    s := c.(records := c.records + [Record(false, 0, None)], topics := c.topics["a" := 1], pending := c.pending + {1}, dropped := c.dropped + {0});
    assert Next(a, StartConnected, b) && Next(b, OnConnected(0, Visit("a")), c) && Next(c, Store("a"), s);
    hide Next, Execution;
    states, steps := Then(states, steps, StartConnected, b);
    states, steps := Then(states, steps, OnConnected(0, Visit("a")), c);
    states, steps := Then(states, steps, Store("a"), s);
    assert map["a" := 0]["a" := 1] == map["a" := 1] && {0} + {1} == {0, 1} && {} + {0} == {0};
  }

  /** The record that replaced it is unsubscribed. */
  lemma DroppedAndWithdrawn() returns (states: seq<State>, steps: seq<Step>, s: State)
    ensures Execution(states, steps) && states[|steps|] == s
    ensures s == State([Record(false, 0, None), Record(true, 1, None)], map[], {0, 1}, {0}, map[1 := 0], [Visiting(0)], [Unlocked(1)], [Withdraw(1)])
  {
    var a;
    states, steps, a := Dropped();
    var b := a.(removers := [Asking("a")]);
    var c := b.(removers := [Taken(1)], topics := b.topics - {"a"}, owner := b.owner[1 := 0]);
    assert Next(a, StartUnsubscribe("a"), b) && Next(b, Unsubscribe(0, LoadAndDelete), c);
    var d := c.(removers := [Holding(1)], records := [c.records[0], Record(false, 0, Some(Remover(0)))]);
    var e := c.(removers := [Flagged(1)], records := [c.records[0], Record(true, 1, Some(Remover(0)))]);
    assert Next(c, Unsubscribe(0, LockTaken), d) && Next(d, Unsubscribe(0, SetDisposed), e);
    var f := e.(removers := [Called(1)], calls := [Withdraw(1)]);
    s := f.(removers := [Unlocked(1)], records := [c.records[0], Record(true, 1, None)]);
    assert Next(e, Unsubscribe(0, CallWithdraw), f) && Next(f, Unsubscribe(0, UnlockTaken), s);
    hide Next, Execution;
    states, steps := Then(states, steps, StartUnsubscribe("a"), b);
    states, steps := Then(states, steps, Unsubscribe(0, LoadAndDelete), c);
    states, steps := Then(states, steps, Unsubscribe(0, LockTaken), d);
    states, steps := Then(states, steps, Unsubscribe(0, SetDisposed), e);
    states, steps := Then(states, steps, Unsubscribe(0, CallWithdraw), f);
    states, steps := Then(states, steps, Unsubscribe(0, UnlockTaken), s);
  }

  /** Then the callback subscribes the dropped record again: its topic is back after
      the unsubscribe call for the id, and nothing withdraws it. */
  lemma DroppedComesBack() returns (states: seq<State>, steps: seq<Step>)
    ensures Execution(states, steps)
    ensures var s := states[|steps|]; s.topics == map[] && NoneRemoving(s) && s.calls == [Withdraw(1), Resubscribe(0)] && s.dropped == {0}
  {
    var g;
    states, steps, g := DroppedAndWithdrawn();
    var h := g.(connectors := [Inside(0)], records := [Record(false, 0, Some(Connector(0))), g.records[1]]);
    var i := h.(connectors := [Live(0)]);
    var j := h.(connectors := [ConnectorPc.Leaving(0)], calls := [Withdraw(1), Resubscribe(0)]);
    assert Next(g, OnConnected(0, LockVisited), h) && Next(h, OnConnected(0, TestFlag), i) && Next(i, OnConnected(0, CallSubscribe), j);
    hide Next, Execution;
    states, steps := Then(states, steps, OnConnected(0, LockVisited), h);
    states, steps := Then(states, steps, OnConnected(0, TestFlag), i);
    states, steps := Then(states, steps, OnConnected(0, CallSubscribe), j);
  }
}
