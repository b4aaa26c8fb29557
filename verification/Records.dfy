/** Re-subscribing against unsubscribing (connector/connection.go): any number of
    onConnected callbacks range over the topic map while subscribe stores records
    and unsubscribe takes them out, each record having a lock and a disposed flag.
    The client call that subscribe itself makes comes after the store, outside that lock. */
module Records {
  import opened Machines
  import opened Options

  datatype Thread = Connector(c: nat) | Remover(m: nat)

  datatype Record = Record(disposed: bool, disposals: nat, holder: Option<Thread>)

  /** An onConnected callback: ranging, given a record by the range, inside that
      record's lock, past the test of its flag, and about to unlock. */
  datatype ConnectorPc = Ranging | Visiting(r: nat) | Inside(r: nat) | Live(r: nat) | Leaving(r: nat) | Ended

  /** An unsubscribe call: before LoadAndDelete, with the record it took out,
      inside its lock, past setting the flag, past the client call, done. */
  datatype RemoverPc = Asking(id: string) | Missed | Taken(r: nat) | Holding(r: nat) | Flagged(r: nat) | Called(r: nat) | Unlocked(r: nat)

  /** What the MQTT client is asked: subscribe a record for the first time (or route
      its topics), subscribe it again, or unsubscribe or re-route its topics. */
  datatype Call = First(r: nat) | Resubscribe(r: nat) | Withdraw(r: nat)

  /** `pending` holds the records whose subscribe has still to make its own call,
      `dropped` those that a later store under the same id has pushed out of the map;
      `owner` tells which unsubscribe call has taken a record out of it. */
  datatype State = State(
    records: seq<Record>,
    topics: map<string, nat>,
    pending: set<nat>,
    dropped: set<nat>,
    owner: map<nat, nat>,
    connectors: seq<ConnectorPc>,
    removers: seq<RemoverPc>,
    calls: seq<Call>)

  datatype ConnectorAct = Visit(id: string) | LockVisited | TestFlag | CallSubscribe | UnlockVisited | EndRange

  datatype RemoverAct = LoadAndDelete | LockTaken | SetDisposed | CallWithdraw | UnlockTaken

  datatype Step =
    | Store(id: string)
    | CallFirst(r: nat, calls: bool)
    | StartConnected
    | StartUnsubscribe(id: string)
    | OnConnected(c: nat, connectorAct: ConnectorAct)
    | Unsubscribe(m: nat, removerAct: RemoverAct)

  function ConnectorAt(s: State, c: nat, pc: ConnectorPc): State
    requires c < |s.connectors|
  {
    s.(connectors := s.connectors[c := pc])
  }

  function RemoverAt(s: State, m: nat, pc: RemoverPc): State
    requires m < |s.removers|
  {
    s.(removers := s.removers[m := pc])
  }

  function WithHolder(s: State, r: nat, holder: Option<Thread>): State
    requires r < |s.records|
  {
    s.(records := s.records[r := s.records[r].(holder := holder)])
  }

  ghost predicate ConnectorStep(s: State, c: nat, act: ConnectorAct, t: State) {
    c < |s.connectors|
    && match (act, s.connectors[c])
       case (Visit(id), Ranging) => id in s.topics && t == ConnectorAt(s, c, Visiting(s.topics[id]))
       case (LockVisited, Visiting(r)) =>
         r < |s.records| && s.records[r].holder.None? && t == ConnectorAt(WithHolder(s, r, Some(Connector(c))), c, Inside(r))
       case (TestFlag, Inside(r)) =>
         r < |s.records| && t == ConnectorAt(s, c, if s.records[r].disposed then Leaving(r) else Live(r))
       case (CallSubscribe, Live(r)) => t == ConnectorAt(s, c, Leaving(r)).(calls := s.calls + [Resubscribe(r)])
       case (UnlockVisited, Leaving(r)) => r < |s.records| && t == ConnectorAt(WithHolder(s, r, None), c, Ranging)
       case (EndRange, Ranging) => t == ConnectorAt(s, c, Ended)
       case _ => false
  }

  ghost predicate RemoverStep(s: State, m: nat, act: RemoverAct, t: State) {
    m < |s.removers|
    && match (act, s.removers[m])
       case (LoadAndDelete, Asking(id)) =>
         if id in s.topics then t == RemoverAt(s, m, Taken(s.topics[id])).(topics := s.topics - {id}, owner := s.owner[s.topics[id] := m])
         else t == RemoverAt(s, m, Missed)
       case (LockTaken, Taken(r)) =>
         r < |s.records| && s.records[r].holder.None? && t == RemoverAt(WithHolder(s, r, Some(Remover(m))), m, Holding(r))
       case (SetDisposed, Holding(r)) =>
         r < |s.records|
         && t == RemoverAt(s, m, Flagged(r)).(records := s.records[r := s.records[r].(disposed := true, disposals := s.records[r].disposals + 1)])
       case (CallWithdraw, Flagged(r)) => t == RemoverAt(s, m, Called(r)).(calls := s.calls + [Withdraw(r)])
       case (UnlockTaken, Called(r)) => r < |s.records| && t == RemoverAt(WithHolder(s, r, None), m, Unlocked(r))
       case _ => false
  }

  ghost predicate Next(s: State, step: Step, t: State) {
    match step
    case Store(id) =>
      t == s.(records := s.records + [Record(false, 0, None)], topics := s.topics[id := |s.records|], pending := s.pending + {|s.records|},
                 dropped := if id in s.topics then s.dropped + {s.topics[id]} else s.dropped)
    case CallFirst(r, calls) =>
      r in s.pending && t == s.(pending := s.pending - {r}, calls := if calls then s.calls + [First(r)] else s.calls)
    case StartConnected => t == s.(connectors := s.connectors + [Ranging])
    case StartUnsubscribe(id) => t == s.(removers := s.removers + [Asking(id)])
    case OnConnected(c, act) => ConnectorStep(s, c, act, t)
    case Unsubscribe(m, act) => RemoverStep(s, m, act, t)
  }

  ghost predicate Init(s: State) {
    s == State([], map[], {}, {}, map[], [], [], [])
  }

  ghost predicate Execution(states: seq<State>, steps: seq<Step>) {
    Runs(Init, Next, states, steps)
  }

  // ---------- The invariant ----------

  predicate Owns(pc: RemoverPc) {
    !pc.Asking? && !pc.Missed?
  }

  predicate HasFlagged(pc: RemoverPc) {
    pc.Flagged? || pc.Called? || pc.Unlocked?
  }

  /** The topic map: each record under one key, and untouched. */
  ghost predicate MapInv(s: State) {
    && (forall id :: id in s.topics ==> s.topics[id] < |s.records|)
    && (forall i, j :: i in s.topics && j in s.topics && s.topics[i] == s.topics[j] ==> i == j)
  }

  /** A record that was taken out is owned by one unsubscribe call, which is the
      only one to dispose it. */
  ghost predicate OwnerInv(s: State) {
    && (forall m :: 0 <= m < |s.removers| && Owns(s.removers[m]) ==> s.removers[m].r < |s.records|)
    && (forall m, id :: 0 <= m < |s.removers| && Owns(s.removers[m]) && id in s.topics ==> s.removers[m].r != s.topics[id])
    && (forall m, n :: 0 <= m < n < |s.removers| && Owns(s.removers[m]) && Owns(s.removers[n]) ==> s.removers[m].r != s.removers[n].r)
    && (forall m :: 0 <= m < |s.removers| && Owns(s.removers[m]) && !HasFlagged(s.removers[m]) ==> !s.records[s.removers[m].r].disposed)
    && (forall id :: id in s.topics && s.topics[id] < |s.records| ==> !s.records[s.topics[id]].disposed)
    && (forall r :: 0 <= r < |s.records| ==> s.records[r].disposals == if s.records[r].disposed then 1 else 0)
  }

  predicate ConnectorHolds(pc: ConnectorPc) {
    pc.Inside? || pc.Live? || pc.Leaving?
  }

  predicate RemoverHolds(pc: RemoverPc) {
    pc.Holding? || pc.Flagged? || pc.Called?
  }

  /** Who is inside a record's lock, and what the flag says there. */
  ghost predicate LockInv(s: State) {
    && (forall c :: 0 <= c < |s.connectors| && (s.connectors[c].Visiting? || ConnectorHolds(s.connectors[c]))
          ==> s.connectors[c].r < |s.records|)
    && (forall c :: 0 <= c < |s.connectors| && ConnectorHolds(s.connectors[c])
          ==> s.records[s.connectors[c].r].holder == Some(Connector(c)))
    && (forall m :: 0 <= m < |s.removers| && RemoverHolds(s.removers[m])
          ==> s.removers[m].r < |s.records| && s.records[s.removers[m].r].holder == Some(Remover(m)))
    && (forall c :: 0 <= c < |s.connectors| && s.connectors[c].Live? ==> !s.records[s.connectors[c].r].disposed)
  }

  ghost predicate CallInv(s: State) {
    && (forall k :: 0 <= k < |s.calls| && s.calls[k].Withdraw? ==> s.calls[k].r < |s.records| && s.records[s.calls[k].r].disposed)
    && (forall m :: 0 <= m < |s.removers| && s.removers[m].Flagged? ==> s.removers[m].r < |s.records| && s.records[s.removers[m].r].disposed)
    && NoneAfterWithdraw(s.calls)
  }

  /** A record that was withdrawn is not subscribed again. */
  ghost predicate NoneAfterWithdraw(calls: seq<Call>) {
    forall j, k :: 0 <= j < k < |calls| && calls[j].Withdraw? ==> calls[k] != Resubscribe(calls[j].r)
  }

  ghost predicate Inv(s: State) {
    MapInv(s) && OwnerInv(s) && LockInv(s) && CallInv(s)
  }

  lemma OwnerByConnector(s: State, c: nat, act: ConnectorAct, t: State)
    requires Inv(s) && ConnectorStep(s, c, act, t)
    ensures MapInv(t) && OwnerInv(t)
  {
  }

  lemma LockByConnector(s: State, c: nat, act: ConnectorAct, t: State)
    requires Inv(s) && ConnectorStep(s, c, act, t)
    ensures LockInv(t)
  {
  }

  lemma CallByConnector(s: State, c: nat, act: ConnectorAct, t: State)
    requires Inv(s) && ConnectorStep(s, c, act, t)
    ensures CallInv(t)
  {
  }

  lemma OwnerByRemover(s: State, m: nat, act: RemoverAct, t: State)
    requires Inv(s) && RemoverStep(s, m, act, t)
    ensures MapInv(t) && OwnerInv(t)
  {
    if act == LoadAndDelete {
      OwnerByDelete(s, m, t);
    } else if act == SetDisposed {
      OwnerByFlag(s, m, t);
    }
  }

  /** The flag is set by the record's owner, once. */
  lemma OwnerByFlag(s: State, m: nat, t: State)
    requires Inv(s) && RemoverStep(s, m, SetDisposed, t)
    ensures MapInv(t) && OwnerInv(t)
  {
  }

  /** The record that LoadAndDelete takes out had no owner yet. */
  lemma OwnerByDelete(s: State, m: nat, t: State)
    requires Inv(s) && RemoverStep(s, m, LoadAndDelete, t)
    ensures MapInv(t) && OwnerInv(t)
  {
  }

  lemma LockByRemover(s: State, m: nat, act: RemoverAct, t: State)
    requires Inv(s) && RemoverStep(s, m, act, t)
    ensures LockInv(t)
  {
  }

  lemma CallByRemover(s: State, m: nat, act: RemoverAct, t: State)
    requires Inv(s) && RemoverStep(s, m, act, t)
    ensures CallInv(t)
  {
  }

  lemma ConnectorKeeps(s: State, c: nat, act: ConnectorAct, t: State)
    requires Inv(s) && ConnectorStep(s, c, act, t)
    ensures Inv(t)
  {
    OwnerByConnector(s, c, act, t);
    LockByConnector(s, c, act, t);
    CallByConnector(s, c, act, t);
  }

  lemma RemoverKeeps(s: State, m: nat, act: RemoverAct, t: State)
    requires Inv(s) && RemoverStep(s, m, act, t)
    ensures Inv(t)
  {
    OwnerByRemover(s, m, act, t);
    LockByRemover(s, m, act, t);
    CallByRemover(s, m, act, t);
  }

  lemma StoreKeeps(s: State, id: string, dropped: set<nat>)
    requires Inv(s)
    ensures Inv(s.(records := s.records + [Record(false, 0, None)], topics := s.topics[id := |s.records|],
                   pending := s.pending + {|s.records|}, dropped := dropped))
  {
  }

  lemma CallFirstKeeps(s: State, r: nat, calls: bool)
    requires Inv(s)
    ensures Inv(s.(pending := s.pending - {r}, calls := if calls then s.calls + [First(r)] else s.calls))
  {
  }

  lemma StartConnectedKeeps(s: State)
    requires Inv(s)
    ensures Inv(s.(connectors := s.connectors + [Ranging]))
  {
  }

  lemma StartUnsubscribeKeeps(s: State, id: string)
    requires Inv(s)
    ensures Inv(s.(removers := s.removers + [Asking(id)]))
  {
    var t := s.(removers := s.removers + [Asking(id)]);
    assert forall m :: 0 <= m < |t.removers| && Owns(t.removers[m]) ==> m < |s.removers| && t.removers[m] == s.removers[m];
    assert OwnerInv(t) && LockInv(t);
  }

  lemma Preserved(s: State, step: Step, t: State)
    requires Inv(s) && Next(s, step, t)
    ensures Inv(t)
  {
    match step {
      case OnConnected(c, act) => ConnectorKeeps(s, c, act, t);
      case Unsubscribe(m, act) => RemoverKeeps(s, m, act, t);
      case Store(id) => StoreKeeps(s, id, t.dropped);
      case CallFirst(r, calls) => CallFirstKeeps(s, r, calls);
      case StartConnected => StartConnectedKeeps(s);
      case StartUnsubscribe(id) => StartUnsubscribeKeeps(s, id);
    }
  }

  lemma Reachable(states: seq<State>, steps: seq<Step>, k: nat)
    requires Execution(states, steps) && k < |states|
    ensures Inv(states[k])
  {
    forall s, step, t | Inv(s) && Next(s, step, t) ensures Inv(t) {
      Preserved(s, step, t);
    }
    Always(Init, Next, Inv, states, steps, k);
  }

  /** No subscribe call that onConnected makes for a record follows the record's
      unsubscribe or re-route call, in any interleaving. */
  lemma NoSubscribeAfterWithdraw(states: seq<State>, steps: seq<Step>, k: nat, i: nat, j: nat)
    requires Execution(states, steps) && k < |states|
    requires i < |states[k].calls| && j < |states[k].calls|
    requires states[k].calls[i].Withdraw? && states[k].calls[j] == Resubscribe(states[k].calls[i].r)
    ensures j < i
  {
    Reachable(states, steps, k);
  }

  /** Each record is disposed at most once. */
  lemma DisposedOnce(states: seq<State>, steps: seq<Step>, k: nat, r: nat)
    requires Execution(states, steps) && k < |states| && r < |states[k].records|
    ensures states[k].records[r].disposals <= 1
  {
    Reachable(states, steps, k);
  }
}
