/** What cancelling the context of a subscription comes to (connector/subscriber.go)
    as long as nobody outside helps: Close is not called, nothing is read from
    `out`, nothing is acknowledged and no message arrives. */
module Cancellation {
  import opened Machines
  import opened Options
  import opened Shutdown

  /** Free places in the buffer of `out`. */
  function Room(sub: Subscription): int {
    sub.buffSize - sub.buffered
  }

  /** A step of subscription `i` for which it needs nobody outside; the end of the
      acknowledgement timeout is one, and so is a send while there is room. */
  predicate OwnStep(s: State, step: Step, i: nat) {
    && i < |s.subs|
    && (step.Loop? || step.Handler?) && step.i == i
    && (step.Handler? ==> !step.act.Settle? && (step.act.Deliver? ==> Room(s.subs[i]) > 0))
  }

  /** A run that subscription `i` makes on its own. */
  ghost predicate OwnRun(s: State, i: nat, states: seq<State>, steps: seq<Step>) {
    && |states| == |steps| + 1 && states[0] == s
    && forall k :: 0 <= k < |steps| ==> OwnStep(states[k], steps[k], i) && Next(states[k], steps[k], states[k + 1])
  }

  /** Subscription `i` has no step of its own left. */
  ghost predicate Complete(s: State, i: nat) {
    forall step, t :: OwnStep(s, step, i) ==> !Next(s, step, t)
  }

  ghost predicate EndedAt(s: State, i: nat) {
    i < |s.subs| && Ended(s.subs[i])
  }

  /** The loop waits for a lock that is held by a handler which waits for a reader. */
  predicate Stuck(sub: Subscription) {
    && sub.loop.WantLock?
    && sub.holder.ByHandler? && sub.holder.h < |sub.handlers| && sub.handlers[sub.holder.h].Offering?
    && Room(sub) == 0
  }

  // ---------- How many handlers may still send ----------

  /** The flag stops a handler that has not checked it yet. */
  predicate MaySend(pc: HandlerPc, topicClosed: bool) {
    pc.Offering? || (!topicClosed && (pc.Arrived? || pc.Checking?))
  }

  function Senders(handlers: seq<HandlerPc>, topicClosed: bool): nat {
    if handlers == [] then 0 else (if MaySend(handlers[0], topicClosed) then 1 else 0) + Senders(handlers[1..], topicClosed)
  }

  lemma {:induction false} SendersUpdate(handlers: seq<HandlerPc>, topicClosed: bool, h: nat, pc: HandlerPc)
    requires h < |handlers|
    ensures Senders(handlers[h := pc], topicClosed) + (if MaySend(handlers[h], topicClosed) then 1 else 0)
            == Senders(handlers, topicClosed) + (if MaySend(pc, topicClosed) then 1 else 0)
  {
    if h == 0 {
      assert handlers[h := pc][1..] == handlers[1..];
    } else {
      SendersUpdate(handlers[1..], topicClosed, h - 1, pc);
      assert handlers[h := pc][1..] == handlers[1..][h - 1 := pc];
    }
  }

  lemma {:induction false} SendersWhenClosed(handlers: seq<HandlerPc>)
    ensures Senders(handlers, true) <= Senders(handlers, false)
  {
    if handlers != [] {
      SendersWhenClosed(handlers[1..]);
    }
  }

  lemma {:induction false} SendersExist(handlers: seq<HandlerPc>, topicClosed: bool)
    ensures Senders(handlers, topicClosed) > 0 <==> exists h :: 0 <= h < |handlers| && MaySend(handlers[h], topicClosed)
  {
    if handlers != [] {
      SendersExist(handlers[1..], topicClosed);
      if h :| 0 <= h < |handlers| && MaySend(handlers[h], topicClosed) {
        assert h > 0 ==> MaySend(handlers[1..][h - 1], topicClosed);
      }
    }
  }

  /** By how much the handlers that may still send outnumber the free places. */
  function Excess(sub: Subscription): int {
    Senders(sub.handlers, sub.topicClosed) - Room(sub)
  }

  /** Without a buffer there is an excess as soon as one handler may send. */
  lemma WithoutBuffer(sub: Subscription)
    requires sub.buffSize == sub.buffered == 0
    ensures Excess(sub) <= 0 <==> forall h :: 0 <= h < |sub.handlers| ==> !MaySend(sub.handlers[h], sub.topicClosed)
  {
    SendersExist(sub.handlers, sub.topicClosed);
  }

  // ---------- Own steps ----------

  lemma LoopKeepsExcess(sub: Subscription)
    requires LoopNext(sub, false).Some?
    ensures var t := LoopNext(sub, false).value;
            t.cancelled == sub.cancelled && Excess(t) <= Excess(sub)
  {
    SendersWhenClosed(sub.handlers);
  }

  lemma HandlerKeepsExcess(sub: Subscription, h: nat, act: Act)
    requires h < |sub.handlers| && HandlerNext(sub, h, act, false).Some?
    requires act.Deliver? ==> Room(sub) > 0
    ensures var t := HandlerNext(sub, h, act, false).value;
            t.cancelled == sub.cancelled && Excess(t) <= Excess(sub) && (!act.BadPayload? ==> Excess(t) == Excess(sub))
  {
    SendersUpdate(sub.handlers, sub.topicClosed, h, HandlerNext(sub, h, act, false).value.handlers[h]);
  }

  lemma OwnStepKeeps(s: State, step: Step, i: nat, t: State)
    requires Inv(s) && !s.closing && OwnStep(s, step, i) && Next(s, step, t)
    ensures Inv(t) && !t.closing && i < |t.subs| && t.subs[i].cancelled == s.subs[i].cancelled
    ensures Excess(t.subs[i]) <= Excess(s.subs[i])
    ensures Measure(t) < Measure(s)
  {
    Preserved(s, step, t);
    MeasureDrops(s, step, t);
    if step.Loop? {
      LoopKeepsExcess(s.subs[i]);
    } else {
      HandlerKeepsExcess(s.subs[i], step.h, step.act);
    }
  }

  lemma {:induction false} OwnRunKeeps(s: State, i: nat, states: seq<State>, steps: seq<Step>, k: nat)
    requires Inv(s) && !s.closing && i < |s.subs| && OwnRun(s, i, states, steps) && k < |states|
    ensures var t := states[k];
            && Inv(t) && !t.closing && i < |t.subs| && t.subs[i].cancelled == s.subs[i].cancelled
            && Excess(t.subs[i]) <= Excess(s.subs[i])
            && Measure(t) + k <= Measure(s)
  {
    if k > 0 {
      OwnRunKeeps(s, i, states, steps, k - 1);
      OwnStepKeeps(states[k - 1], steps[k - 1], i, states[k - 1 + 1]);
    }
  }

  lemma OwnLoopStep(s: State, i: nat) returns (t: State)
    requires Inv(s) && i < |s.subs| && !s.closing && LoopNext(s.subs[i], false).Some?
    ensures OwnStep(s, Loop(i), i) && Next(s, Loop(i), t)
    ensures t.subs == s.subs[i := LoopNext(s.subs[i], false).value]
  {
    RunningZero(s.subs);
    t := s.(subs := s.subs[i := LoopNext(s.subs[i], false).value]);
    if s.subs[i].loop.Finishing? {
      t := Done(t);
    }
  }

  lemma OwnHandlerStep(s: State, i: nat, h: nat, act: Act) returns (t: State)
    requires i < |s.subs| && !s.closing && h < |s.subs[i].handlers| && HandlerNext(s.subs[i], h, act, false).Some?
    requires !act.Settle? && (act.Deliver? ==> Room(s.subs[i]) > 0)
    ensures OwnStep(s, Handler(i, h, act), i) && Next(s, Handler(i, h, act), t)
    ensures t.subs == s.subs[i := HandlerNext(s.subs[i], h, act, false).value]
  {
    t := s.(subs := s.subs[i := HandlerNext(s.subs[i], h, act, false).value]);
  }

  /** What the handler that holds the lock does next, if it needs nobody outside. */
  function HolderAct(pc: HandlerPc): Act
    requires Holds(pc)
  {
    match pc
    case Checking => Check
    case Offering => Deliver
    case AwaitingAck => Timeout
    case Leaving => Release
  }

  lemma StuckStays(s: State, i: nat)
    requires Inv(s) && !s.closing && i < |s.subs| && Stuck(s.subs[i])
    ensures Complete(s, i) && !Ended(s.subs[i])
  {
    var sub := s.subs[i];
    assert SubInv(sub);
    forall step, t | OwnStep(s, step, i) ensures !Next(s, step, t) {
      if step.Handler? && step.h < |sub.handlers| && step.h != sub.holder.h {
        assert !Holds(sub.handlers[step.h]);
      }
    }
  }

  /** A cancelled subscription goes on until it has ended or is stuck. */
  lemma CancelledMoves(s: State, i: nat)
    requires Inv(s) && !s.closing && i < |s.subs| && s.subs[i].cancelled && !Ended(s.subs[i]) && !Stuck(s.subs[i])
    ensures !Complete(s, i)
  {
    var sub := s.subs[i];
    assert SubInv(sub);
    if LoopNext(sub, false).Some? {
      var t := OwnLoopStep(s, i);
    } else if sub.holder.ByHandler? {
      var t := OwnHandlerStep(s, i, sub.holder.h, HolderAct(sub.handlers[sub.holder.h]));
    } else {
      var h :| 0 <= h < |sub.handlers| && !sub.handlers[h].Gone?;
      assert !Holds(sub.handlers[h]);
      var t := OwnHandlerStep(s, i, h, Acquire);
    }
  }

  // ---------- A run into the stuck state ----------

  /** An own step that leaves an excess, or none if the subscription is stuck. */
  lemma TowardsStuck(s: State, i: nat) returns (step: Step, t: State)
    requires Inv(s) && !s.closing && i < |s.subs| && s.subs[i].cancelled && Excess(s.subs[i]) > 0 && !Stuck(s.subs[i])
    ensures OwnStep(s, step, i) && Next(s, step, t) && i < |t.subs| && Excess(t.subs[i]) > 0
  {
    var sub := s.subs[i];
    assert SubInv(sub);
    SendersExist(sub.handlers, sub.topicClosed);
    var g :| 0 <= g < |sub.handlers| && MaySend(sub.handlers[g], sub.topicClosed);
    if sub.holder.ByHandler? {
      var h := sub.holder.h;
      if sub.handlers[h].Offering? && Room(sub) == 0 {
        step := Loop(i);
        t := OwnLoopStep(s, i);
        SendersExist(t.subs[i].handlers, t.subs[i].topicClosed);
        assert MaySend(sub.handlers[h], true);
      } else {
        var act := HolderAct(sub.handlers[h]);
        step := Handler(i, h, act);
        t := OwnHandlerStep(s, i, h, act);
        HandlerKeepsExcess(sub, h, act);
      }
    } else {
      assert !Holds(sub.handlers[g]);
      step := Handler(i, g, Acquire);
      t := OwnHandlerStep(s, i, g, Acquire);
      HandlerKeepsExcess(sub, g, Acquire);
    }
  }

  lemma {:induction false} RunsIntoStuck(s: State, i: nat) returns (states: seq<State>, steps: seq<Step>)
    requires Inv(s) && !s.closing && i < |s.subs| && s.subs[i].cancelled && Excess(s.subs[i]) > 0
    ensures OwnRun(s, i, states, steps) && i < |states[|steps|].subs| && Stuck(states[|steps|].subs[i])
    decreases Measure(s)
  {
    if Stuck(s.subs[i]) {
      return [s], [];
    }
    var step, t := TowardsStuck(s, i);
    OwnStepKeeps(s, step, i, t);
    states, steps := RunsIntoStuck(t, i);
    OwnRunLonger(s, step, t, i, states, steps);
    states, steps := [s] + states, [step] + steps;
  }

  lemma OwnRunLonger(s: State, step: Step, t: State, i: nat, states: seq<State>, steps: seq<Step>)
    requires OwnStep(s, step, i) && Next(s, step, t) && OwnRun(t, i, states, steps)
    ensures OwnRun(s, i, [s] + states, [step] + steps)
    ensures ([s] + states)[|[step] + steps|] == states[|steps|]
  {
    var longer, more := [s] + states, [step] + steps;
    forall k | 0 <= k < |more| ensures OwnStep(longer[k], more[k], i) && Next(longer[k], more[k], longer[k + 1]) {
      if k > 0 {
        assert OwnStep(states[k - 1], steps[k - 1], i) && Next(states[k - 1], steps[k - 1], states[k - 1 + 1]);
      }
    }
  }

  /** Before Close, a cancelled subscription comes to an end on its own in every
      interleaving exactly when the handlers that may still send do not outnumber the
      free places of `out`: without a buffer, when none of them may. Its own
      runs are bounded in any case. */
  lemma CancelSuffices(states: seq<State>, steps: seq<Step>, k: nat, i: nat)
    requires Execution(states, steps) && k < |states| && i < |states[k].subs|
    requires !states[k].closing && states[k].subs[i].cancelled
    ensures (forall ss, ts :: OwnRun(states[k], i, ss, ts) && Complete(ss[|ts|], i) ==> EndedAt(ss[|ts|], i))
            <==> Excess(states[k].subs[i]) <= 0
    ensures forall ss, ts :: OwnRun(states[k], i, ss, ts) ==> |ts| <= Measure(states[k])
  {
    var s := states[k];
    Reachable(states, steps, k);
    forall ss, ts | OwnRun(s, i, ss, ts)
      ensures |ts| <= Measure(s)
      ensures Complete(ss[|ts|], i) && Excess(s.subs[i]) <= 0 ==> EndedAt(ss[|ts|], i)
    {
      OwnRunKeeps(s, i, ss, ts, |ts|);
      EndOfRun(ss[|ts|], i);
    }
    if Excess(s.subs[i]) > 0 {
      var ss, ts := RunsIntoStuck(s, i);
      OwnRunKeeps(s, i, ss, ts, |ts|);
      StuckStays(ss[|ts|], i);
    }
  }

  lemma EndOfRun(s: State, i: nat)
    requires Inv(s) && !s.closing && i < |s.subs| && s.subs[i].cancelled
    ensures Complete(s, i) && Excess(s.subs[i]) <= 0 ==> Ended(s.subs[i])
  {
    var sub := s.subs[i];
    if Stuck(sub) {
      assert MaySend(sub.handlers[sub.holder.h], sub.topicClosed);
      SendersExist(sub.handlers, sub.topicClosed);
    } else if !Ended(sub) {
      CancelledMoves(s, i);
    }
  }

  // ---------- A run with a handler that no reader serves ----------

  function Alone(sub: Subscription): State {
    State(false, false, 1, 0, [sub], NotCalled)
  }

  lemma AloneHandler(a: Subscription, act: Act, b: Subscription)
    requires |a.handlers| == 1 && HandlerNext(a, 0, act, false) == Some(b)
    ensures Next(Alone(a), Handler(0, 0, act), Alone(b))
  {
    assert [a][0 := b] == [b];
  }

  lemma AloneLoop(a: Subscription, b: Subscription)
    requires !a.loop.Finishing? && LoopNext(a, false) == Some(b)
    ensures Next(Alone(a), Loop(0), Alone(b))
  {
    assert [a][0 := b] == [b];
  }

  lemma Then(states: seq<State>, steps: seq<Step>, a: State, step: Step, b: State) returns (states': seq<State>, steps': seq<Step>)
    requires Execution(states, steps) && states[|steps|] == a && Next(a, step, b)
    ensures Execution(states', steps') && states'[|steps'|] == b
  {
    states', steps' := Extend(Init, Next, states, steps, step, b);
  }

  /** One subscription with one handler that is about to send. */
  lemma OneOffering() returns (states: seq<State>, steps: seq<Step>, sub: Subscription)
    ensures Execution(states, steps) && states[|steps|] == Alone(sub)
    ensures sub == NewSubscription(0).(handlers := [Offering], holder := ByHandler(0))
  {
    var a := NewSubscription(0);
    states, steps := OneSubscription(a);
    var b := a.(handlers := [Arrived]);
    assert a.handlers + [Arrived] == b.handlers && [a][0 := b] == [b];
    var c := At(b, 0, Checking).(holder := ByHandler(0));
    AloneHandler(b, Acquire, c);
    sub := At(c, 0, Offering);
    AloneHandler(c, Check, sub);
    assert sub.handlers == [Offering];
    assert Next(Alone(a), Arrive(0), Alone(b));
    hide Execution, Next;
    states, steps := Then(states, steps, Alone(a), Arrive(0), Alone(b));
    states, steps := Then(states, steps, Alone(b), Handler(0, 0, Acquire), Alone(c));
    states, steps := Then(states, steps, Alone(c), Handler(0, 0, Check), Alone(sub));
  }

  lemma OneSubscription(a: Subscription) returns (states: seq<State>, steps: seq<Step>)
    requires a == NewSubscription(0)
    ensures Execution(states, steps) && states[|steps|] == Alone(a)
  {
    var s := State(false, false, 0, 0, [], NotCalled);
    var t := s.(checked := 1);
    assert Next(s, SubscribeCheck, t);
    Subscribed(t, a);
    assert Execution([s], []);
    hide Next, Execution;
    states, steps := Then([s], [], s, SubscribeCheck, t);
    states, steps := Then(states, steps, t, SubscribeAdd(0), Alone(a));
  }

  lemma Subscribed(t: State, a: Subscription)
    requires t == State(false, false, 0, 1, [], NotCalled) && a == NewSubscription(0)
    ensures Next(t, SubscribeAdd(0), Alone(a))
  {
    assert t.subs + [a] == [a];
  }

  /** Without Close, cancelling the context does not free a handler that no reader
      serves: here is a run to a subscription that is stuck. */
  lemma CancelIsNotEnough() returns (states: seq<State>, steps: seq<Step>)
    ensures Execution(states, steps)
    ensures var s := states[|steps|];
            |s.subs| == 1 && s.subs[0].cancelled && !s.closing && Stuck(s.subs[0]) && Complete(s, 0)
  {
    var d;
    states, steps, d := OneOffering();
    var e := d.(cancelled := true);
    assert [d][0 := e] == [e];
    states, steps := Then(states, steps, Alone(d), Cancel(0), Alone(e));
    var f := e.(loop := Flagging);
    AloneLoop(e, f);
    states, steps := Then(states, steps, Alone(e), Loop(0), Alone(f));
    var g := f.(topicClosed := true, loop := Stopping);
    AloneLoop(f, g);
    states, steps := Then(states, steps, Alone(f), Loop(0), Alone(g));
    var h := g.(loop := WantLock);
    AloneLoop(g, h);
    states, steps := Then(states, steps, Alone(g), Loop(0), Alone(h));
    Reachable(states, steps, |steps|);
    StuckStays(Alone(h), 0);
  }
}
