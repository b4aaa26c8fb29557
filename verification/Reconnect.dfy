/** Reconnecting against disconnecting (connector/connection.go): any number of
    connection-lost and connected callbacks and of Connect and Disconnect calls
    share the flags `running` and `reconnecting` and the wait group `stopGroup`,
    and interleave at every access to them. */
module Reconnect {
  import opened Machines

  /** A callback. onConnectionLost: before the test of `reconnecting`, inside its
      guard before stopGroup.Add, at the top of the retry loop, in its sleep, past
      the last test of `running`, waiting for the client's Connect, before
      stopGroup.Done, and before `reconnecting` is unset. onConnected: before
      stopGroup.Add, and before stopGroup.Done. */
  datatype Pc = Lost | Entered | LoopTop | Sleeping | Ready | Connecting | Ending | Unsetting | Connected | Serving | Over

  /** A Disconnect that has cleared `running`, waits, is released, or is past its
      wait; `still` is false once Connect was called after the clearing. A call
      that finds `running` already cleared has no effect here. */
  datatype Disconnect = Cleared(still: bool) | Waiting(still: bool) | Released(still: bool) | Past(still: bool)

  datatype State = State(running: bool, reconnecting: bool, group: nat, callbacks: seq<Pc>, disconnects: seq<Disconnect>)

  datatype Outcome = Success | Failure | LastAuthFailure

  datatype Step =
    | OnLost
    | OnConnected
    | Connect
    | Disconnect
    | Wait(d: nat)
    | WaitReturns(d: nat)
    | TestReconnecting(i: nat)
    | Join(i: nat)
    | TestRunning(i: nat)
    | Wake(i: nat, last: bool)
    | ClientConnect(i: nat)
    | Finished(i: nat, outcome: Outcome)
    | Leave(i: nat)
    | Unset(i: nat)

  predicate InGroup(pc: Pc) {
    pc.LoopTop? || pc.Sleeping? || pc.Ready? || pc.Connecting? || pc.Ending? || pc.Serving?
  }

  /** Inside the guard that `reconnecting` is. */
  predicate InBody(pc: Pc) {
    pc.Entered? || pc.LoopTop? || pc.Sleeping? || pc.Ready? || pc.Connecting? || pc.Ending? || pc.Unsetting?
  }

  function At(s: State, i: nat, pc: Pc): State
    requires i < |s.callbacks|
  {
    s.(callbacks := s.callbacks[i := pc])
  }

  function Release(d: Disconnect): Disconnect {
    if d.Waiting? then Released(d.still) else d
  }

  function Disturb(d: Disconnect): Disconnect {
    d.(still := false)
  }

  function MapAll(ds: seq<Disconnect>, f: Disconnect -> Disconnect): (r: seq<Disconnect>)
    ensures |r| == |ds| && forall d :: 0 <= d < |ds| ==> r[d] == f(ds[d])
  {
    seq(|ds|, d requires 0 <= d < |ds| => f(ds[d]))
  }

  /** stopGroup.Done: reaching zero releases those who wait. */
  function Done(s: State): State
    requires s.group > 0
  {
    s.(group := s.group - 1, disconnects := if s.group == 1 then MapAll(s.disconnects, Release) else s.disconnects)
  }

  ghost predicate Next(s: State, step: Step, t: State) {
    match step
    case OnLost => t == s.(callbacks := s.callbacks + [Lost])
    case OnConnected => t == s.(callbacks := s.callbacks + [Pc.Connected])
    case Connect => t == s.(running := true, disconnects := MapAll(s.disconnects, Disturb))
    case Disconnect => s.running && t == s.(running := false, disconnects := s.disconnects + [Cleared(true)])
    case Wait(d) =>
      d < |s.disconnects| && s.disconnects[d].Cleared?
      && t == s.(disconnects := s.disconnects[d := if s.group == 0 then Released(s.disconnects[d].still) else Waiting(s.disconnects[d].still)])
    case WaitReturns(d) =>
      d < |s.disconnects| && s.disconnects[d].Released?
      && t == s.(disconnects := s.disconnects[d := Past(s.disconnects[d].still)])
    case TestReconnecting(i) =>
      i < |s.callbacks| && s.callbacks[i].Lost?
      && t == if s.reconnecting then At(s, i, Over) else At(s, i, Entered).(reconnecting := true)
    case Join(i) =>
      i < |s.callbacks| && (s.callbacks[i].Entered? || s.callbacks[i].Connected?)
      && t == At(s, i, if s.callbacks[i].Entered? then LoopTop else Serving).(group := s.group + 1)
    case TestRunning(i) =>
      i < |s.callbacks| && s.callbacks[i].LoopTop? && t == At(s, i, if s.running then Sleeping else Ending)
    case Wake(i, last) =>
      i < |s.callbacks| && s.callbacks[i].Sleeping?
      && t == At(s, i, if !s.running then Ending else if last then Ready else Sleeping)
    case ClientConnect(i) =>
      i < |s.callbacks| && s.callbacks[i].Ready? && t == At(s, i, Connecting)
    case Finished(i, outcome) =>
      i < |s.callbacks| && s.callbacks[i].Connecting? && t == At(s, i, if outcome.Failure? then LoopTop else Ending)
    case Leave(i) =>
      i < |s.callbacks| && (s.callbacks[i].Ending? || s.callbacks[i].Serving?) && s.group > 0
      && t == Done(At(s, i, if s.callbacks[i].Ending? then Unsetting else Over))
    case Unset(i) =>
      i < |s.callbacks| && s.callbacks[i].Unsetting? && t == At(s, i, Over).(reconnecting := false)
  }

  /** A new connection is marked as running before Connect is called. */
  ghost predicate Init(s: State) {
    s == State(true, false, 0, [], [])
  }

  ghost predicate Execution(states: seq<State>, steps: seq<Step>) {
    Runs(Init, Next, states, steps)
  }

  // ---------- Counting callbacks ----------

  function Count(pcs: seq<Pc>, p: Pc -> bool): nat {
    if pcs == [] then 0 else (if p(pcs[0]) then 1 else 0) + Count(pcs[1..], p)
  }

  lemma {:induction false} CountUpdate(pcs: seq<Pc>, p: Pc -> bool, i: nat, pc: Pc)
    requires i < |pcs|
    ensures Count(pcs[i := pc], p) + (if p(pcs[i]) then 1 else 0) == Count(pcs, p) + (if p(pc) then 1 else 0)
  {
    if i == 0 {
      assert pcs[i := pc][1..] == pcs[1..];
    } else {
      CountUpdate(pcs[1..], p, i - 1, pc);
      assert pcs[i := pc][1..] == pcs[1..][i - 1 := pc];
    }
  }

  lemma {:induction false} CountAppend(pcs: seq<Pc>, p: Pc -> bool, pc: Pc)
    ensures Count(pcs + [pc], p) == Count(pcs, p) + (if p(pc) then 1 else 0)
  {
    if pcs == [] {
      assert pcs + [pc] == [pc];
    } else {
      CountAppend(pcs[1..], p, pc);
      assert (pcs + [pc])[1..] == pcs[1..] + [pc];
    }
  }

  lemma {:induction false} CountSome(pcs: seq<Pc>, p: Pc -> bool, i: nat)
    requires i < |pcs| && p(pcs[i])
    ensures Count(pcs, p) >= 1
  {
    if i > 0 {
      CountSome(pcs[1..], p, i - 1);
    }
  }

  lemma {:induction false} CountTwo(pcs: seq<Pc>, p: Pc -> bool, i: nat, j: nat)
    requires i < j < |pcs| && p(pcs[i]) && p(pcs[j])
    ensures Count(pcs, p) >= 2
  {
    if i == 0 {
      CountSome(pcs[1..], p, j - 1);
    } else {
      CountTwo(pcs[1..], p, i - 1, j - 1);
    }
  }

  // ---------- The invariant ----------

  /** On its way to calling the client's Connect, or waiting for it. */
  predicate Trying(pc: Pc) {
    pc.Sleeping? || pc.Ready? || pc.Connecting?
  }

  ghost predicate DisconnectInv(s: State, d: Disconnect) {
    && (d.still ==> !s.running)
    && (d.Waiting? ==> s.group > 0)
    && (d.still && (d.Released? || d.Past?) ==> forall i :: 0 <= i < |s.callbacks| ==> !Trying(s.callbacks[i]))
  }

  ghost predicate Inv(s: State) {
    && s.group == Count(s.callbacks, InGroup)
    && Count(s.callbacks, InBody) == (if s.reconnecting then 1 else 0)
    && forall d :: 0 <= d < |s.disconnects| ==> DisconnectInv(s, s.disconnects[d])
  }

  /** With nobody in the group no callback is trying. */
  lemma NobodyTries(s: State)
    requires s.group == 0 && s.group == Count(s.callbacks, InGroup)
    ensures forall i :: 0 <= i < |s.callbacks| ==> !Trying(s.callbacks[i])
  {
    forall i | 0 <= i < |s.callbacks| ensures !Trying(s.callbacks[i]) {
      if Trying(s.callbacks[i]) {
        CountSome(s.callbacks, InGroup, i);
      }
    }
  }

  lemma CountsMoved(s: State, i: nat, pc: Pc)
    requires i < |s.callbacks|
    ensures var t := At(s, i, pc);
            && Count(t.callbacks, InGroup) + (if InGroup(s.callbacks[i]) then 1 else 0) == Count(s.callbacks, InGroup) + (if InGroup(pc) then 1 else 0)
            && Count(t.callbacks, InBody) + (if InBody(s.callbacks[i]) then 1 else 0) == Count(s.callbacks, InBody) + (if InBody(pc) then 1 else 0)
  {
    CountUpdate(s.callbacks, InGroup, i, pc);
    CountUpdate(s.callbacks, InBody, i, pc);
  }

  /** A callback's step that neither joins nor leaves the group. */
  lemma MovedKeeps(s: State, i: nat, pc: Pc, reconnecting: bool)
    requires Inv(s) && i < |s.callbacks| && (InGroup(s.callbacks[i]) <==> InGroup(pc))
    requires Trying(pc) ==> Trying(s.callbacks[i]) || s.running
    requires (if reconnecting then 1 else 0) - (if s.reconnecting then 1 else 0) == (if InBody(pc) then 1 else 0) - (if InBody(s.callbacks[i]) then 1 else 0)
    ensures Inv(At(s, i, pc).(reconnecting := reconnecting))
  {
    CountsMoved(s, i, pc);
    assert forall d :: 0 <= d < |s.disconnects| ==> DisconnectInv(s, s.disconnects[d]);
  }

  lemma JoinKeeps(s: State, i: nat, t: State)
    requires Inv(s) && Next(s, Join(i), t)
    ensures Inv(t)
  {
    CountsMoved(s, i, t.callbacks[i]);
    assert forall d :: 0 <= d < |s.disconnects| ==> DisconnectInv(s, s.disconnects[d]);
  }

  lemma LeaveKeeps(s: State, i: nat, t: State)
    requires Inv(s) && Next(s, Leave(i), t)
    ensures Inv(t)
  {
    CountsMoved(s, i, t.callbacks[i]);
    if t.group == 0 {
      NobodyTries(t);
    }
    assert forall d :: 0 <= d < |s.disconnects| ==> DisconnectInv(s, s.disconnects[d]);
  }

  lemma OthersKeep(s: State, step: Step, t: State)
    requires Inv(s) && Next(s, step, t)
    requires step.OnLost? || step.OnConnected? || step.Connect? || step.Disconnect? || step.Wait? || step.WaitReturns?
    ensures Inv(t)
  {
    CountAppend(s.callbacks, InGroup, Lost);
    CountAppend(s.callbacks, InBody, Lost);
    CountAppend(s.callbacks, InGroup, Pc.Connected);
    CountAppend(s.callbacks, InBody, Pc.Connected);
    if s.group == 0 {
      NobodyTries(s);
    }
    forall d | 0 <= d < |t.disconnects| ensures DisconnectInv(t, t.disconnects[d]) {
      if d < |s.disconnects| {
        assert DisconnectInv(s, s.disconnects[d]);
      }
    }
  }

  lemma Preserved(s: State, step: Step, t: State)
    requires Inv(s) && Next(s, step, t)
    ensures Inv(t)
  {
    match step {
      case TestReconnecting(i) =>
        MovedKeeps(s, i, if s.reconnecting then Over else Entered, true);
      case Join(i) => JoinKeeps(s, i, t);
      case TestRunning(i) => MovedKeeps(s, i, if s.running then Sleeping else Ending, s.reconnecting);
      case Wake(i, last) => MovedKeeps(s, i, if !s.running then Ending else if last then Ready else Sleeping, s.reconnecting);
      case ClientConnect(i) => MovedKeeps(s, i, Connecting, s.reconnecting);
      case Finished(i, outcome) => MovedKeeps(s, i, if outcome.Failure? then LoopTop else Ending, s.reconnecting);
      case Leave(i) => LeaveKeeps(s, i, t);
      case Unset(i) =>
        CountSome(s.callbacks, InBody, i);
        MovedKeeps(s, i, Over, false);
      case _ => OthersKeep(s, step, t);
    }
  }

  lemma Reachable(states: seq<State>, steps: seq<Step>, k: nat)
    requires Execution(states, steps) && k < |states|
    ensures Inv(states[k])
  {
    forall s, step, t | Inv(s) && Next(s, step, t) ensures Inv(t) {
      Preserved(s, step, t);
    }
    Always(Init, Next, Inv, states, steps, k);
  }

  /** Once the wait of a Disconnect has returned, and until Connect is called, no
      reconnect loop is about to connect or waiting to, however late it joined
      the group; in particular none calls the client's Connect. */
  lemma NoReconnectAfterDisconnect(states: seq<State>, steps: seq<Step>, k: nat, d: nat)
    requires Execution(states, steps) && k < |states|
    requires d < |states[k].disconnects| && states[k].disconnects[d] == Past(true)
    ensures !states[k].running && forall i :: 0 <= i < |states[k].callbacks| ==> !Trying(states[k].callbacks[i])
    ensures k < |steps| ==> !steps[k].ClientConnect?
  {
    Reachable(states, steps, k);
    assert DisconnectInv(states[k], states[k].disconnects[d]);
    if k < |steps| {
      assert Next(states[k], steps[k], states[k + 1]);
    }
  }

  /** `still` is lost only by a call of Connect. */
  lemma {:induction false} StillUntilConnect(states: seq<State>, steps: seq<Step>, from: nat, k: nat, d: nat)
    requires Execution(states, steps) && from <= k < |states|
    requires d < |states[from].disconnects| && states[from].disconnects[d] == Past(true)
    requires forall j :: from <= j < k ==> !steps[j].Connect?
    ensures d < |states[k].disconnects| && states[k].disconnects[d] == Past(true)
  {
    if k > from {
      StillUntilConnect(states, steps, from, k - 1, d);
      assert Next(states[k - 1], steps[k - 1], states[k - 1 + 1]);
    }
  }

  /** So after that wait a run without Connect holds no client connect at all. */
  lemma QuietAfterDisconnect(states: seq<State>, steps: seq<Step>, from: nat, k: nat, d: nat)
    requires Execution(states, steps) && from <= k < |steps|
    requires d < |states[from].disconnects| && states[from].disconnects[d] == Past(true)
    requires forall j :: from <= j < k ==> !steps[j].Connect?
    ensures !steps[k].ClientConnect?
  {
    StillUntilConnect(states, steps, from, k, d);
    NoReconnectAfterDisconnect(states, steps, k, d);
  }

  /** At most one reconnect loop runs at a time. */
  lemma OneLoopAtATime(states: seq<State>, steps: seq<Step>, k: nat, i: nat, j: nat)
    requires Execution(states, steps) && k < |states| && i < |states[k].callbacks| && j < |states[k].callbacks|
    requires InBody(states[k].callbacks[i]) && InBody(states[k].callbacks[j])
    ensures i == j
  {
    Reachable(states, steps, k);
    if i < j {
      CountTwo(states[k].callbacks, InBody, i, j);
    } else if j < i {
      CountTwo(states[k].callbacks, InBody, j, i);
    }
  }

  // ---------- The wait of Disconnect returns ----------

  /** Steps that bring in a new callback or another Connect. */
  predicate External(step: Step) {
    step.OnLost? || step.OnConnected? || step.Connect?
  }

  /** How many steps a callback has left at most while `running` is cleared. */
  function PcRank(pc: Pc): nat {
    match pc
    case Lost => 6
    case Entered => 5
    case Ready => 5
    case Connecting => 4
    case LoopTop => 3
    case Sleeping => 3
    case Ending => 2
    case Unsetting => 1
    case Connected => 2
    case Serving => 1
    case Over => 0
  }

  function DisconnectRank(d: Disconnect): nat {
    match d
    case Cleared(_) => 3
    case Waiting(_) => 2
    case Released(_) => 1
    case Past(_) => 0
  }

  function Sum(ranks: seq<nat>): nat {
    if ranks == [] then 0 else ranks[0] + Sum(ranks[1..])
  }

  function CallbackRanks(s: State): (ranks: seq<nat>)
    ensures |ranks| == |s.callbacks| && forall i :: 0 <= i < |ranks| ==> ranks[i] == PcRank(s.callbacks[i])
  {
    seq(|s.callbacks|, i requires 0 <= i < |s.callbacks| => PcRank(s.callbacks[i]))
  }

  function DisconnectRanks(s: State): (ranks: seq<nat>)
    ensures |ranks| == |s.disconnects| && forall d :: 0 <= d < |ranks| ==> ranks[d] == DisconnectRank(s.disconnects[d])
  {
    seq(|s.disconnects|, d requires 0 <= d < |s.disconnects| => DisconnectRank(s.disconnects[d]))
  }

  function Measure(s: State): nat {
    Sum(CallbackRanks(s)) + Sum(DisconnectRanks(s))
  }

  lemma {:induction false} SumAtMost(a: seq<nat>, b: seq<nat>)
    requires |a| == |b| && forall i :: 0 <= i < |a| ==> a[i] <= b[i]
    ensures Sum(a) <= Sum(b)
    ensures (exists i :: 0 <= i < |a| && a[i] < b[i]) ==> Sum(a) < Sum(b)
  {
    if a != [] {
      SumAtMost(a[1..], b[1..]);
      if i :| 1 <= i < |a| && a[i] < b[i] {
        assert a[1..][i - 1] < b[1..][i - 1];
      }
    }
  }

  lemma CallbackDrops(s: State, i: nat, t: State)
    requires i < |s.callbacks| == |t.callbacks| && PcRank(t.callbacks[i]) < PcRank(s.callbacks[i])
    requires t.callbacks == s.callbacks[i := t.callbacks[i]]
    requires t.disconnects == s.disconnects || t.disconnects == MapAll(s.disconnects, Release)
    ensures Measure(t) < Measure(s)
  {
    SumAtMost(CallbackRanks(t), CallbackRanks(s));
    SumAtMost(DisconnectRanks(t), DisconnectRanks(s));
    assert CallbackRanks(t)[i] < CallbackRanks(s)[i];
  }

  lemma WaiterDrops(s: State, d: nat, t: State)
    requires d < |s.disconnects| == |t.disconnects| && DisconnectRank(t.disconnects[d]) < DisconnectRank(s.disconnects[d])
    requires t.disconnects == s.disconnects[d := t.disconnects[d]] && t.callbacks == s.callbacks
    ensures Measure(t) < Measure(s)
  {
    SumAtMost(CallbackRanks(t), CallbackRanks(s));
    SumAtMost(DisconnectRanks(t), DisconnectRanks(s));
    assert DisconnectRanks(t)[d] < DisconnectRanks(s)[d];
  }

  lemma MeasureDrops(s: State, step: Step, t: State)
    requires !s.running && Next(s, step, t) && !External(step)
    ensures !t.running && Measure(t) < Measure(s)
  {
    hide Measure, Sum, MapAll;
    match step {
      case Wait(d) => WaiterDrops(s, d, t);
      case WaitReturns(d) => WaiterDrops(s, d, t);
      case TestReconnecting(i) => CallbackDrops(s, i, t);
      case Join(i) => CallbackDrops(s, i, t);
      case TestRunning(i) => CallbackDrops(s, i, t);
      case Wake(i, _) => CallbackDrops(s, i, t);
      case ClientConnect(i) => CallbackDrops(s, i, t);
      case Finished(i, _) => CallbackDrops(s, i, t);
      case Leave(i) => CallbackDrops(s, i, t);
      case Unset(i) => CallbackDrops(s, i, t);
      case _ =>
    }
  }

  lemma {:induction false} MeasureOverRun(states: seq<State>, steps: seq<Step>, from: nat, k: nat)
    requires Execution(states, steps) && from <= k < |states| && !states[from].running
    requires forall j :: from <= j < k ==> !External(steps[j])
    ensures !states[k].running && Measure(states[k]) + (k - from) <= Measure(states[from])
  {
    if k > from {
      MeasureOverRun(states, steps, from, k - 1);
      MeasureDrops(states[k - 1], steps[k - 1], states[k - 1 + 1]);
    }
  }

  /** Every callback is over and every Disconnect is past its wait. */
  ghost predicate AllDone(s: State) {
    && (forall i :: 0 <= i < |s.callbacks| ==> s.callbacks[i].Over?)
    && (forall d :: 0 <= d < |s.disconnects| ==> s.disconnects[d].Past?)
  }

  lemma CallbackMoves(s: State, i: nat)
    requires Inv(s) && i < |s.callbacks| && !s.callbacks[i].Over?
    ensures exists step, t :: !External(step) && Next(s, step, t)
  {
    if InGroup(s.callbacks[i]) {
      CountSome(s.callbacks, InGroup, i);
    }
    match s.callbacks[i] {
      case Lost => assert Next(s, TestReconnecting(i), if s.reconnecting then At(s, i, Over) else At(s, i, Entered).(reconnecting := true));
      case Entered => assert Next(s, Join(i), At(s, i, LoopTop).(group := s.group + 1));
      case Connected => assert Next(s, Join(i), At(s, i, Serving).(group := s.group + 1));
      case LoopTop => assert Next(s, TestRunning(i), At(s, i, if s.running then Sleeping else Ending));
      case Sleeping => assert Next(s, Wake(i, true), At(s, i, if s.running then Ready else Ending));
      case Ready => assert Next(s, ClientConnect(i), At(s, i, Connecting));
      case Connecting => assert Next(s, Finished(i, Success), At(s, i, Ending));
      case Ending => assert Next(s, Leave(i), Done(At(s, i, Unsetting)));
      case Serving => assert Next(s, Leave(i), Done(At(s, i, Over)));
      case Unsetting => assert Next(s, Unset(i), At(s, i, Over).(reconnecting := false));
    }
  }

  lemma DisconnectMoves(s: State, d: nat)
    requires Inv(s) && d < |s.disconnects| && !s.disconnects[d].Past? && s.group == 0
    ensures exists step, t :: !External(step) && Next(s, step, t)
  {
    var still := s.disconnects[d].still;
    assert DisconnectInv(s, s.disconnects[d]);
    if s.disconnects[d].Cleared? {
      assert Next(s, Wait(d), s.(disconnects := s.disconnects[d := Released(still)]));
    } else {
      assert Next(s, WaitReturns(d), s.(disconnects := s.disconnects[d := Past(still)]));
    }
  }

  lemma {:induction false} CountNone(pcs: seq<Pc>, p: Pc -> bool)
    requires forall i :: 0 <= i < |pcs| ==> !p(pcs[i])
    ensures Count(pcs, p) == 0
  {
    if pcs != [] {
      CountNone(pcs[1..], p);
    }
  }

  /** Once `running` is cleared, and while no callback and no Connect comes in, a run
      ends within Measure steps in any interleaving, and one that cannot go on has
      ended every callback and returned from the wait of every Disconnect. That
      the client's Connect comes to an end is taken for granted. */
  lemma DisconnectReturns(states: seq<State>, steps: seq<Step>, from: nat)
    requires Execution(states, steps) && from < |states| && !states[from].running
    requires forall j :: from <= j < |steps| ==> !External(steps[j])
    ensures |steps| - from <= Measure(states[from])
    ensures AllDone(states[|steps|]) || exists step, t :: !External(step) && Next(states[|steps|], step, t)
  {
    MeasureOverRun(states, steps, from, |steps|);
    Reachable(states, steps, |steps|);
    var s := states[|steps|];
    if i :| 0 <= i < |s.callbacks| && !s.callbacks[i].Over? {
      CallbackMoves(s, i);
    } else if d :| 0 <= d < |s.disconnects| && !s.disconnects[d].Past? {
      CountNone(s.callbacks, InGroup);
      DisconnectMoves(s, d);
    }
  }

  // ---------- Reconnecting does happen ----------

  /** An execution that begins with another one. */
  ghost predicate Continues(states: seq<State>, steps: seq<Step>, ss: seq<State>, ts: seq<Step>) {
    Execution(ss, ts) && states <= ss && steps <= ts
  }

  lemma Then(states: seq<State>, steps: seq<Step>, a: State, step: Step, b: State) returns (ss: seq<State>, ts: seq<Step>)
    requires Execution(states, steps) && states[|steps|] == a && Next(a, step, b)
    ensures Continues(states, steps, ss, ts) && ss[|ts|] == b && ts == steps + [step]
  {
    ss, ts := Extend(Init, Next, states, steps, step, b);
  }

  /** A loop at its top calls the client's Connect, after a sleep, while `running` is set. */
  lemma LoopConnects(states: seq<State>, steps: seq<Step>, i: nat) returns (ss: seq<State>, ts: seq<Step>)
    requires Execution(states, steps)
    requires var s := states[|steps|]; i < |s.callbacks| && s.callbacks[i] == LoopTop && s.running
    ensures Continues(states, steps, ss, ts) && |ts| > |steps| && ts[|ts| - 1] == ClientConnect(i)
    ensures var t := ss[|ts|]; i < |t.callbacks| && t.callbacks[i] == Connecting && t.running
  {
    var s := states[|steps|];
    var a, b, c := At(s, i, Sleeping), At(s, i, Ready), At(s, i, Connecting);
    assert Next(s, TestRunning(i), a) && Next(a, Wake(i, true), b) && Next(b, ClientConnect(i), c);
    hide Next, Execution;
    ss, ts := Then(states, steps, s, TestRunning(i), a);
    ss, ts := Then(ss, ts, a, Wake(i, true), b);
    ss, ts := Then(ss, ts, b, ClientConnect(i), c);
  }

  /** After a loss the client's Connect can be reached, from every state with `running`
      set and no loop active: by the very callback that announced the loss. */
  lemma LossIsFollowed(states: seq<State>, steps: seq<Step>, i: nat) returns (ss: seq<State>, ts: seq<Step>)
    requires Execution(states, steps)
    requires var s := states[|steps|]; i < |s.callbacks| && s.callbacks[i] == Lost && s.running && !s.reconnecting
    ensures Continues(states, steps, ss, ts) && |ts| > |steps| && ts[|ts| - 1] == ClientConnect(i)
  {
    var s := states[|steps|];
    var a := At(s, i, Entered).(reconnecting := true);
    var b := At(a, i, LoopTop).(group := a.group + 1);
    assert Next(s, TestReconnecting(i), a) && Next(a, Join(i), b);
    hide Next, Execution;
    ss, ts := Then(states, steps, s, TestReconnecting(i), a);
    ss, ts := Then(ss, ts, a, Join(i), b);
    ss, ts := LoopConnects(ss, ts, i);
  }

  /** And once more after an attempt that failed. */
  lemma FailureIsFollowed(states: seq<State>, steps: seq<Step>, i: nat) returns (ss: seq<State>, ts: seq<Step>)
    requires Execution(states, steps)
    requires var s := states[|steps|]; i < |s.callbacks| && s.callbacks[i] == Connecting && s.running
    ensures Continues(states, steps, ss, ts) && |ts| > |steps| && ts[|steps|] == Finished(i, Failure) && ts[|ts| - 1] == ClientConnect(i)
  {
    var s := states[|steps|];
    var a := At(s, i, LoopTop);
    assert Next(s, Finished(i, Failure), a);
    hide Next, Execution;
    var ss1, ts1 := Then(states, steps, s, Finished(i, Failure), a);
    ss, ts := LoopConnects(ss1, ts1, i);
    assert ts1 <= ts && ts[|steps|] == ts1[|steps|];
  }
}
