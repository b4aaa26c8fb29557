/** Delivery and shutdown of a subscriber (connector/subscriber.go and
    connector/wrapper.go) as interleaved steps: any number of subscriptions, each
    with its loop goroutine and any number of message handlers, and the call of
    Close that wins the compare-and-swap. A losing call of Close has no effect. */
module Shutdown {
  import opened Machines
  import opened Options

  /** A call of messageloop.handler; all but the first and last hold the lock. */
  datatype HandlerPc = Arrived | Checking | Offering | AwaitingAck | Leaving | Gone

  /** The goroutine of runMessageLoop, from its select to processWg.Done. */
  datatype LoopPc = Selecting | Flagging | Stopping | WantLock | HasLock | Unlocking | ClosingOut | Finishing | Finished

  datatype Holder = Free | ByLoop | ByHandler(h: nat)

  /** `out` has `buffSize` places, `buffered` of them taken; with a buffer, handlers
      do not wait for acknowledgements. `closes` counts how often `out` was closed,
      `lateSends` the sends after that. */
  datatype Subscription = Subscription(
    buffSize: nat,
    buffered: nat,
    cancelled: bool,
    topicClosed: bool,
    holder: Holder,
    closes: nat,
    lateSends: nat,
    loop: LoopPc,
    handlers: seq<HandlerPc>)

  /** Close waits, is released or has returned; `n` subscriptions had been
      registered when it started to wait. */
  datatype CloserPc = NotCalled | Swapped | ChannelClosed | Waiting(n: nat) | Released(n: nat) | Returned(n: nat)

  datatype State = State(closed: bool, closing: bool, wg: nat, checked: nat, subs: seq<Subscription>, closer: CloserPc)

  datatype Act = Acquire | Check | BadPayload | Deliver | Settle | Timeout | GiveUp | Release

  datatype Step =
    | SubscribeCheck
    | SubscribeAdd(buffSize: nat)
    | Arrive(i: nat)
    | Read(i: nat)
    | Cancel(i: nat)
    | Handler(i: nat, h: nat, act: Act)
    | Loop(i: nat)
    | CloseSwap
    | CloseChannel
    | CloseWait
    | CloseReturn

  function NewSubscription(buffSize: nat): Subscription {
    Subscription(buffSize, 0, false, false, Free, 0, 0, Selecting, [])
  }

  /** The next step of a loop, unless it is blocked or has ended. */
  function LoopNext(s: Subscription, closing: bool): Option<Subscription> {
    match s.loop
    case Selecting => if closing || s.cancelled then Some(s.(loop := Flagging)) else None
    case Flagging => Some(s.(topicClosed := true, loop := Stopping))
    case Stopping => Some(s.(loop := WantLock))
    case WantLock => if s.holder.Free? then Some(s.(holder := ByLoop, loop := HasLock)) else None
    case HasLock => Some(s.(topicClosed := true, loop := Unlocking))
    case Unlocking => Some(s.(holder := Free, loop := ClosingOut))
    case ClosingOut => Some(s.(closes := s.closes + 1, loop := Finishing))
    case Finishing => Some(s.(loop := Finished))
    case Finished => None
  }

  function At(s: Subscription, h: nat, pc: HandlerPc): Subscription
    requires h < |s.handlers|
  {
    s.(handlers := s.handlers[h := pc])
  }

  function Sent(s: Subscription): Subscription {
    s.(lateSends := if s.closes > 0 then s.lateSends + 1 else s.lateSends)
  }

  /** What handler `h` does, if it can: Deliver puts the message into the buffer, or
      hands it to a reader if there is no buffer; Settle is an acknowledgement. */
  function HandlerNext(s: Subscription, h: nat, act: Act, closing: bool): Option<Subscription>
    requires h < |s.handlers|
  {
    match (act, s.handlers[h])
    case (Acquire, Arrived) => if s.holder.Free? then Some(At(s, h, Checking).(holder := ByHandler(h))) else None
    case (Check, Checking) => Some(At(s, h, if s.topicClosed then Leaving else Offering))
    case (BadPayload, Checking) => if s.topicClosed then None else Some(At(s, h, Leaving))
    case (Deliver, Offering) =>
      if s.buffSize == 0 then Some(Sent(At(s, h, AwaitingAck)))
      else if s.buffered < s.buffSize then Some(Sent(At(s, h, Leaving)).(buffered := s.buffered + 1))
      else None
    case (Settle, AwaitingAck) => Some(At(s, h, Leaving))
    case (Timeout, AwaitingAck) => Some(At(s, h, Leaving))
    case (GiveUp, Offering) => if closing then Some(At(s, h, Leaving)) else None
    case (GiveUp, AwaitingAck) => if closing then Some(At(s, h, Leaving)) else None
    case (Release, Leaving) => Some(At(s, h, Gone).(holder := Free))
    case _ => None
  }

  /** The wait group after one Done; reaching zero releases the waiter. */
  function Done(s: State): State
    requires s.wg > 0
  {
    s.(wg := s.wg - 1, closer := if s.wg == 1 && s.closer.Waiting? then Released(s.closer.n) else s.closer)
  }

  ghost predicate HandlerStep(s: State, i: nat, h: nat, act: Act, t: State) {
    i < |s.subs| && h < |s.subs[i].handlers|
    && var next := HandlerNext(s.subs[i], h, act, s.closing);
    next.Some? && t == s.(subs := s.subs[i := next.value])
  }

  ghost predicate LoopStep(s: State, i: nat, t: State) {
    i < |s.subs|
    && var next := LoopNext(s.subs[i], s.closing);
    next.Some?
    && var moved := s.(subs := s.subs[i := next.value]);
    if s.subs[i].loop.Finishing? then moved.wg > 0 && t == Done(moved) else t == moved
  }

  ghost predicate Next(s: State, step: Step, t: State) {
    match step
    case SubscribeCheck => !s.closed && t == s.(checked := s.checked + 1)
    case SubscribeAdd(buffSize) =>
      s.checked > 0 && t == s.(checked := s.checked - 1, wg := s.wg + 1, subs := s.subs + [NewSubscription(buffSize)])
    case Arrive(i) =>
      i < |s.subs| && t == s.(subs := s.subs[i := s.subs[i].(handlers := s.subs[i].handlers + [Arrived])])
    case Read(i) =>
      i < |s.subs| && s.subs[i].buffered > 0 && t == s.(subs := s.subs[i := s.subs[i].(buffered := s.subs[i].buffered - 1)])
    case Cancel(i) =>
      i < |s.subs| && t == s.(subs := s.subs[i := s.subs[i].(cancelled := true)])
    case Handler(i, h, act) => HandlerStep(s, i, h, act, t)
    case Loop(i) => LoopStep(s, i, t)
    case CloseSwap => !s.closed && t == s.(closed := true, closer := Swapped)
    case CloseChannel => s.closer.Swapped? && t == s.(closing := true, closer := ChannelClosed)
    case CloseWait =>
      s.closer.ChannelClosed? && t == s.(closer := if s.wg == 0 then Released(|s.subs|) else Waiting(|s.subs|))
    case CloseReturn => s.closer.Released? && t == s.(closer := Returned(s.closer.n))
  }

  ghost predicate Init(s: State) {
    s == State(false, false, 0, 0, [], NotCalled)
  }

  ghost predicate Execution(states: seq<State>, steps: seq<Step>) {
    Runs(Init, Next, states, steps)
  }

  // ---------- Safety ----------

  predicate Holds(pc: HandlerPc) {
    pc.Checking? || pc.Offering? || pc.AwaitingAck? || pc.Leaving?
  }

  predicate LoopHolds(pc: LoopPc) {
    pc.HasLock? || pc.Unlocking?
  }

  predicate LoopPastLock(pc: LoopPc) {
    LoopHolds(pc) || pc.ClosingOut? || pc.Finishing? || pc.Finished?
  }

  ghost predicate SubInv(s: Subscription) {
    && (forall h :: 0 <= h < |s.handlers| ==> (Holds(s.handlers[h]) <==> s.holder == ByHandler(h)))
    && (s.holder.ByHandler? ==> s.holder.h < |s.handlers|)
    && (LoopHolds(s.loop) <==> s.holder.ByLoop?)
    && (!s.loop.Selecting? && !s.loop.Flagging? ==> s.topicClosed)
    && (LoopPastLock(s.loop) ==> forall h :: 0 <= h < |s.handlers| ==> !s.handlers[h].Offering? && !s.handlers[h].AwaitingAck?)
    && s.closes == (if s.loop.Finishing? || s.loop.Finished? then 1 else 0)
    && s.lateSends == 0
    && s.buffered <= s.buffSize
  }

  function Running(subs: seq<Subscription>): nat {
    if subs == [] then 0 else Running(subs[1..]) + (if subs[0].loop.Finished? then 0 else 1)
  }

  lemma {:induction false} RunningUpdate(subs: seq<Subscription>, i: nat, s: Subscription)
    requires i < |subs|
    ensures Running(subs[i := s]) + (if subs[i].loop.Finished? then 0 else 1) == Running(subs) + (if s.loop.Finished? then 0 else 1)
  {
    if i == 0 {
      assert subs[i := s][1..] == subs[1..];
    } else {
      RunningUpdate(subs[1..], i - 1, s);
      assert subs[i := s][1..] == subs[1..][i - 1 := s];
    }
  }

  lemma {:induction false} RunningAppend(subs: seq<Subscription>, s: Subscription)
    ensures Running(subs + [s]) == Running(subs) + (if s.loop.Finished? then 0 else 1)
  {
    if subs == [] {
      assert subs + [s] == [s];
    } else {
      RunningAppend(subs[1..], s);
      assert (subs + [s])[1..] == subs[1..] + [s];
    }
  }

  lemma {:induction false} RunningZero(subs: seq<Subscription>)
    ensures Running(subs) == 0 <==> forall i :: 0 <= i < |subs| ==> subs[i].loop.Finished?
  {
    if subs != [] {
      RunningZero(subs[1..]);
      assert forall i :: 1 <= i < |subs| ==> subs[i] == subs[1..][i - 1];
      assert forall i :: 0 <= i < |subs| - 1 ==> subs[1..][i] == subs[i + 1];
    }
  }

  ghost predicate AllFinished(subs: seq<Subscription>, n: nat) {
    n <= |subs| && forall i :: 0 <= i < n ==> subs[i].loop.Finished?
  }

  ghost predicate CloserInv(s: State) {
    match s.closer
    case NotCalled => !s.closed && !s.closing
    case Swapped => s.closed && !s.closing
    case ChannelClosed => s.closed && s.closing
    case Waiting(n) => s.closed && s.closing && s.wg > 0 && n <= |s.subs|
    case Released(n) => s.closed && s.closing && AllFinished(s.subs, n)
    case Returned(n) => s.closed && s.closing && AllFinished(s.subs, n)
  }

  ghost predicate Inv(s: State) {
    && (forall i :: 0 <= i < |s.subs| ==> SubInv(s.subs[i]))
    && s.wg == Running(s.subs)
    && CloserInv(s)
  }

  lemma LoopKeeps(s: Subscription, closing: bool)
    requires SubInv(s) && LoopNext(s, closing).Some?
    ensures SubInv(LoopNext(s, closing).value)
  {
  }

  lemma HandlerKeeps(s: Subscription, h: nat, act: Act, closing: bool)
    requires SubInv(s) && h < |s.handlers| && HandlerNext(s, h, act, closing).Some?
    ensures var t := HandlerNext(s, h, act, closing).value;
            SubInv(t) && t.loop == s.loop && (act.Deliver? ==> s.closes == 0)
  {
  }

  /** Changing one subscription, when its loop does not end. */
  lemma SubKept(s: State, i: nat, sub: Subscription)
    requires Inv(s) && i < |s.subs| && SubInv(sub)
    requires sub.loop.Finished? <==> s.subs[i].loop.Finished?
    ensures Inv(s.(subs := s.subs[i := sub]))
  {
    RunningUpdate(s.subs, i, sub);
  }

  /** The last step of a loop: wg counts down, and at zero Close is released. */
  lemma LoopEnds(s: State, i: nat)
    requires Inv(s) && i < |s.subs| && s.subs[i].loop.Finishing?
    ensures s.wg > 0 && Inv(Done(s.(subs := s.subs[i := s.subs[i].(loop := Finished)])))
  {
    var subs := s.subs[i := s.subs[i].(loop := Finished)];
    assert SubInv(s.subs[i]);
    RunningUpdate(s.subs, i, subs[i]);
    RunningZero(subs);
  }

  lemma PreservedByHandler(s: State, i: nat, h: nat, act: Act, t: State)
    requires Inv(s) && HandlerStep(s, i, h, act, t)
    ensures Inv(t)
  {
    HandlerKeeps(s.subs[i], h, act, s.closing);
    SubKept(s, i, HandlerNext(s.subs[i], h, act, s.closing).value);
  }

  lemma PreservedByLoop(s: State, i: nat, t: State)
    requires Inv(s) && LoopStep(s, i, t)
    ensures Inv(t)
  {
    if s.subs[i].loop.Finishing? {
      LoopEnds(s, i);
    } else {
      LoopKeeps(s.subs[i], s.closing);
      SubKept(s, i, LoopNext(s.subs[i], s.closing).value);
    }
  }

  lemma PreservedByEvent(s: State, i: nat, sub: Subscription)
    requires Inv(s) && i < |s.subs|
    requires sub == s.subs[i].(cancelled := true) || sub == s.subs[i].(handlers := s.subs[i].handlers + [Arrived])
             || (s.subs[i].buffered > 0 && sub == s.subs[i].(buffered := s.subs[i].buffered - 1))
    ensures Inv(s.(subs := s.subs[i := sub]))
  {
    assert SubInv(s.subs[i]);
    SubKept(s, i, sub);
  }

  lemma PreservedByAdd(s: State, buffSize: nat, t: State)
    requires Inv(s) && Next(s, SubscribeAdd(buffSize), t)
    ensures Inv(t)
  {
    RunningAppend(s.subs, NewSubscription(buffSize));
  }

  lemma PreservedByCloser(s: State, step: Step, t: State)
    requires Inv(s) && Next(s, step, t) && t.subs == s.subs && (step.CloseSwap? || step.CloseChannel? || step.CloseWait? || step.CloseReturn?)
    ensures Inv(t)
  {
    RunningZero(s.subs);
  }

  lemma Preserved(s: State, step: Step, t: State)
    requires Inv(s) && Next(s, step, t)
    ensures Inv(t)
  {
    match step {
      case Handler(i, h, act) => PreservedByHandler(s, i, h, act, t);
      case Loop(i) => PreservedByLoop(s, i, t);
      case Arrive(i) => PreservedByEvent(s, i, s.subs[i].(handlers := s.subs[i].handlers + [Arrived]));
      case Cancel(i) => PreservedByEvent(s, i, s.subs[i].(cancelled := true));
      case Read(i) => PreservedByEvent(s, i, s.subs[i].(buffered := s.subs[i].buffered - 1));
      case SubscribeAdd(buffSize) => PreservedByAdd(s, buffSize, t);
      case SubscribeCheck =>
      case _ => PreservedByCloser(s, step, t);
    }
  }

  lemma Reachable(states: seq<State>, steps: seq<Step>, k: nat)
    requires Execution(states, steps) && k < |states|
    ensures Inv(states[k])
  {
    forall s, step, t | Inv(s) && Next(s, step, t) ensures Inv(t) {
      Preserved(s, step, t);
    }
    Always(Init, Next, Inv, states, steps, k);
  }

  /** In every execution no handler sends on `out` after it is closed, and `out`
      is closed at most once, by its own loop. */
  lemma NoSendAfterClose(states: seq<State>, steps: seq<Step>, k: nat, i: nat)
    requires Execution(states, steps) && k < |states| && i < |states[k].subs|
    ensures var s := states[k].subs[i];
            && s.lateSends == 0 && s.closes <= 1
            && (s.closes == 1 <==> s.loop.Finishing? || s.loop.Finished?)
    ensures k < |steps| && steps[k].Handler? && steps[k].i == i && steps[k].act.Deliver? ==> states[k].subs[i].closes == 0
  {
    Reachable(states, steps, k);
    if k < |steps| && steps[k].Handler? && steps[k].i == i {
      assert Next(states[k], steps[k], states[k + 1]);
      HandlerKeeps(states[k].subs[i], steps[k].h, steps[k].act, states[k].closing);
    }
  }

  /** At most one handler or loop of a subscription is inside its lock. */
  lemma MutualExclusion(states: seq<State>, steps: seq<Step>, k: nat, i: nat, g: nat, h: nat)
    requires Execution(states, steps) && k < |states| && i < |states[k].subs|
    requires var s := states[k].subs[i]; g < |s.handlers| && h < |s.handlers| && Holds(s.handlers[g])
    ensures var s := states[k].subs[i]; !LoopHolds(s.loop) && (Holds(s.handlers[h]) ==> g == h)
  {
    Reachable(states, steps, k);
  }

  /** Close returns only after every loop that was registered in the wait group
      when the wait began has closed its `out` and finished. */
  lemma CloseWaitsForLoops(states: seq<State>, steps: seq<Step>, k: nat)
    requires Execution(states, steps) && k < |states| && states[k].closer.Returned?
    ensures var s := states[k];
            s.closer.n <= |s.subs| && forall i :: 0 <= i < s.closer.n ==> s.subs[i].loop.Finished? && s.subs[i].closes == 1
  {
    Reachable(states, steps, k);
  }

  // ---------- Progress once `closing` is closed ----------

  /** Steps that bring in new work or another stop request. */
  predicate External(step: Step) {
    step.SubscribeCheck? || step.SubscribeAdd? || step.Arrive? || step.Cancel?
  }

  /** Steps that wait for nobody outside, and for no time to pass: no reader, no
      acknowledgement, no caller, no timeout. */
  predicate Autonomous(step: Step) {
    || step.Loop? || step.CloseWait? || step.CloseReturn?
    || (step.Handler? && !step.act.Deliver? && !step.act.Settle? && !step.act.Timeout?)
  }

  /** All that belongs to a subscription has ended. */
  ghost predicate Ended(sub: Subscription) {
    sub.loop.Finished? && forall h :: 0 <= h < |sub.handlers| ==> sub.handlers[h].Gone?
  }

  ghost predicate AllDone(s: State) {
    && s.closer.Returned?
    && forall i :: 0 <= i < |s.subs| ==> Ended(s.subs[i])
  }

  /** The autonomous step that a handler inside the lock takes while closing. */
  function NextAct(pc: HandlerPc): Act
    requires Holds(pc)
  {
    match pc
    case Checking => Check
    case Offering => GiveUp
    case AwaitingAck => GiveUp
    case Leaving => Release
  }

  lemma SubscriptionMoves(s: State, i: nat)
    requires Inv(s) && s.closing && i < |s.subs|
    requires !Ended(s.subs[i])
    ensures exists step, t :: Autonomous(step) && Next(s, step, t)
  {
    var sub := s.subs[i];
    assert SubInv(sub);
    if sub.holder.ByHandler? {
      HandlerMoves(s, i, sub.holder.h, NextAct(sub.handlers[sub.holder.h]));
    } else if !sub.loop.Finished? {
      LoopMoves(s, i);
    } else {
      var h :| 0 <= h < |sub.handlers| && !sub.handlers[h].Gone?;
      assert !Holds(sub.handlers[h]);
      HandlerMoves(s, i, h, Acquire);
    }
  }

  lemma LoopMoves(s: State, i: nat)
    requires Inv(s) && i < |s.subs| && LoopNext(s.subs[i], s.closing).Some?
    ensures exists t :: Next(s, Loop(i), t)
  {
    RunningZero(s.subs);
    var moved := s.(subs := s.subs[i := LoopNext(s.subs[i], s.closing).value]);
    assert Next(s, Loop(i), if s.subs[i].loop.Finishing? then Done(moved) else moved);
  }

  lemma HandlerMoves(s: State, i: nat, h: nat, act: Act)
    requires i < |s.subs| && h < |s.subs[i].handlers| && HandlerNext(s.subs[i], h, act, s.closing).Some?
    ensures exists t :: Next(s, Handler(i, h, act), t)
  {
    assert Next(s, Handler(i, h, act), s.(subs := s.subs[i := HandlerNext(s.subs[i], h, act, s.closing).value]));
  }

  /** Nothing blocks for good: while closing, unless everything has ended, some
      step is possible that needs nobody outside. */
  lemma ShutdownMoves(s: State)
    requires Inv(s) && s.closing && !AllDone(s)
    ensures exists step, t :: Autonomous(step) && Next(s, step, t)
  {
    if i :| 0 <= i < |s.subs| && !Ended(s.subs[i]) {
      SubscriptionMoves(s, i);
    } else {
      RunningZero(s.subs);
      if s.closer.ChannelClosed? {
        assert Next(s, CloseWait, s.(closer := Released(|s.subs|)));
      } else {
        assert s.closer.Released?;
        assert Next(s, CloseReturn, s.(closer := Returned(s.closer.n)));
      }
    }
  }

  function HandlerRank(pc: HandlerPc): nat {
    match pc
    case Arrived => 5
    case Checking => 4
    case Offering => 3
    case AwaitingAck => 2
    case Leaving => 1
    case Gone => 0
  }

  function LoopRank(pc: LoopPc): nat {
    match pc
    case Selecting => 8
    case Flagging => 7
    case Stopping => 6
    case WantLock => 5
    case HasLock => 4
    case Unlocking => 3
    case ClosingOut => 2
    case Finishing => 1
    case Finished => 0
  }

  function CloserRank(pc: CloserPc): nat {
    match pc
    case NotCalled => 5
    case Swapped => 4
    case ChannelClosed => 3
    case Waiting(_) => 2
    case Released(_) => 1
    case Returned(_) => 0
  }

  function HandlersRank(hs: seq<HandlerPc>): nat {
    if hs == [] then 0 else HandlerRank(hs[0]) + HandlersRank(hs[1..])
  }

  function SubRank(s: Subscription): nat {
    LoopRank(s.loop) + HandlersRank(s.handlers) + s.buffered
  }

  function SubsRank(subs: seq<Subscription>): nat {
    if subs == [] then 0 else SubRank(subs[0]) + SubsRank(subs[1..])
  }

  /** How many steps are left at most. */
  function Measure(s: State): nat {
    SubsRank(s.subs) + CloserRank(s.closer)
  }

  lemma {:induction false} HandlersRankUpdate(hs: seq<HandlerPc>, h: nat, pc: HandlerPc)
    requires h < |hs|
    ensures HandlersRank(hs[h := pc]) + HandlerRank(hs[h]) == HandlersRank(hs) + HandlerRank(pc)
  {
    if h == 0 {
      assert hs[h := pc][1..] == hs[1..];
    } else {
      HandlersRankUpdate(hs[1..], h - 1, pc);
      assert hs[h := pc][1..] == hs[1..][h - 1 := pc];
    }
  }

  lemma {:induction false} SubsRankUpdate(subs: seq<Subscription>, i: nat, s: Subscription)
    requires i < |subs|
    ensures SubsRank(subs[i := s]) + SubRank(subs[i]) == SubsRank(subs) + SubRank(s)
  {
    if i == 0 {
      assert subs[i := s][1..] == subs[1..];
    } else {
      SubsRankUpdate(subs[1..], i - 1, s);
      assert subs[i := s][1..] == subs[1..][i - 1 := s];
    }
  }

  lemma HandlerRankDrops(s: Subscription, h: nat, act: Act, closing: bool)
    requires h < |s.handlers| && HandlerNext(s, h, act, closing).Some?
    ensures var t := HandlerNext(s, h, act, closing).value;
            t.loop == s.loop && SubRank(t) < SubRank(s)
  {
    var t := HandlerNext(s, h, act, closing).value;
    HandlersRankUpdate(s.handlers, h, t.handlers[h]);
  }

  lemma DropsByHandler(s: State, i: nat, h: nat, act: Act, t: State)
    requires HandlerStep(s, i, h, act, t)
    ensures Measure(t) < Measure(s)
  {
    HandlerRankDrops(s.subs[i], h, act, s.closing);
    SubsRankUpdate(s.subs, i, HandlerNext(s.subs[i], h, act, s.closing).value);
  }

  lemma LoopRankDrops(s: Subscription, closing: bool)
    requires LoopNext(s, closing).Some?
    ensures var t := LoopNext(s, closing).value;
            SubRank(t) < SubRank(s)
  {
  }

  lemma DropsByLoop(s: State, i: nat, t: State)
    requires LoopStep(s, i, t)
    ensures Measure(t) < Measure(s)
  {
    var next := LoopNext(s.subs[i], s.closing).value;
    LoopRankDrops(s.subs[i], s.closing);
    SubsRankUpdate(s.subs, i, next);
    assert t.subs == s.subs[i := next];
    assert CloserRank(t.closer) <= CloserRank(s.closer);
  }

  lemma MeasureDrops(s: State, step: Step, t: State)
    requires Inv(s) && Next(s, step, t) && !External(step)
    ensures Measure(t) < Measure(s)
  {
    match step {
      case Handler(i, h, act) => DropsByHandler(s, i, h, act, t);
      case Loop(i) => DropsByLoop(s, i, t);
      case Read(i) => SubsRankUpdate(s.subs, i, t.subs[i]);
      case _ =>
    }
  }

  lemma {:induction false} MeasureOverRun(states: seq<State>, steps: seq<Step>, from: nat, k: nat)
    requires Execution(states, steps) && from <= k < |states|
    requires forall j :: from <= j < k ==> !External(steps[j])
    ensures Measure(states[k]) + (k - from) <= Measure(states[from])
  {
    if k > from {
      MeasureOverRun(states, steps, from, k - 1);
      Reachable(states, steps, k - 1);
      MeasureDrops(states[k - 1], steps[k - 1], states[k - 1 + 1]);
    }
  }

  /** Shutdown: once `closing` is closed and nothing new comes in, an execution
      ends within Measure steps, whatever the interleaving, and one that cannot be
      continued on its own has ended every handler and loop and returned from Close. */
  lemma ShutdownEnds(states: seq<State>, steps: seq<Step>, from: nat)
    requires Execution(states, steps) && from < |states| && states[from].closing
    requires forall j :: from <= j < |steps| ==> !External(steps[j])
    ensures |steps| - from <= Measure(states[from])
    ensures AllDone(states[|steps|]) || exists step, t :: Autonomous(step) && Next(states[|steps|], step, t)
  {
    MeasureOverRun(states, steps, from, |steps|);
    Reachable(states, steps, |steps|);
    ClosingStays(states, steps, from, |steps|);
    if !AllDone(states[|steps|]) {
      ShutdownMoves(states[|steps|]);
    }
  }

  lemma {:induction false} ClosingStays(states: seq<State>, steps: seq<Step>, from: nat, k: nat)
    requires Execution(states, steps) && from <= k < |states| && states[from].closing
    ensures states[k].closing
  {
    if k > from {
      ClosingStays(states, steps, from, k - 1);
      assert Next(states[k - 1], steps[k - 1], states[k - 1 + 1]);
    }
  }
}
