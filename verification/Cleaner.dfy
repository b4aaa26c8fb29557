/** The exchange between the cache's callers and its cleaner goroutine
    (cache/cache.go), from NewTTLCache up to Close. A Put or Remove is a critical
    section followed by a send on the control channel; the cleaner computes its
    pause in a critical section of its own, arms its timer later, and then waits
    for the channel or the timer. Time may pass between any two steps. */
module Cleaner {
  import opened Durations
  import opened Machines
  import opened CacheSpec

  const CONTROL_CAPACITY: nat := 8

  /** Where the cleaner is: at the top of its loop, between pauseTime and
      timer.Reset, in its select, or about to clear. */
  datatype Pc =
    | Top
    | Paused(pause: int, readAt: int)
    | Asleep(deadline: int, readAt: int, armedAt: int)
    | Due

  /** `tokens` wake-ups are in the channel, `unsent` callers have unlocked and not
      yet sent theirs; `tick` is a value that an earlier timer left in timer.C. */
  datatype State<V> = State(now: int, contents: Contents<V>, tokens: nat, unsent: nat, tick: bool, pc: Pc)

  datatype Step<V> =
    | Tick(d: nat)
    | PutBody(key: string, value: V, ttl: nat)
    | RemoveBody(key: string)
    | Send
    | Pause(pause: int)
    | Arm
    | Receive(timerFired: bool)
    | Fire
    | Clear(after: Contents<V>, until: int)

  ghost predicate Init<V>(s: State<V>) {
    s.contents == map[] && s.tokens == 0 && s.unsent == 0 && !s.tick && s.pc == Top
  }

  ghost predicate Next<V>(s: State<V>, step: Step<V>, t: State<V>) {
    match step
    case Tick(d) => t == s.(now := s.now + d)
    case PutBody(key, value, ttl) =>
      t == s.(contents := s.contents[key := Entry(value, ttl, s.now + ttl)], unsent := s.unsent + 1)
    case RemoveBody(key) =>
      t == if key in s.contents then s.(contents := s.contents - {key}, unsent := s.unsent + 1) else s
    case Send =>
      s.unsent > 0 && s.tokens < CONTROL_CAPACITY && t == s.(unsent := s.unsent - 1, tokens := s.tokens + 1)
    case Pause(pause) =>
      s.pc == Top && PauseFor(s.contents, s.now, pause) && t == s.(pc := Paused(pause, s.now))
    case Arm =>
      s.pc.Paused? && t == s.(pc := Asleep(s.now + s.pc.pause, s.pc.readAt, s.now))
    case Receive(timerFired) =>
      s.pc.Asleep? && s.tokens > 0 && (timerFired ==> s.now >= s.pc.deadline)
      && t == s.(tokens := s.tokens - 1, tick := s.tick || timerFired, pc := Top)
    case Fire =>
      s.pc.Asleep? && (s.tick || s.now >= s.pc.deadline) && t == s.(tick := false, pc := Due)
    case Clear(after, until) =>
      s.pc == Due && s.now <= until && Pass(s.contents, after, s.now, until)
      && t == s.(contents := after, now := until, pc := Top)
  }

  ghost predicate Execution<V>(states: seq<State<V>>, steps: seq<Step<V>>) {
    Runs(Init<V>, Next<V>, states, steps)
  }

  function Max(a: int, b: int): int {
    if a < b then b else a
  }

  /** The latest that the timer may be set to: the earliest expiry, or a
      millisecond after the clock was read, delayed by what passed between the
      reading and the arming of the timer. */
  ghost predicate InTime<V>(m: Contents<V>, deadline: int, readAt: int, armedAt: int) {
    forall k :: Earliest(m, k) ==> deadline <= Max(m[k].expTime, readAt + MILLISECOND) + (armedAt - readAt)
  }

  ghost predicate Inv<V>(s: State<V>) {
    && s.tokens <= CONTROL_CAPACITY
    && (s.pc.Paused? ==> s.pc.readAt <= s.now
                         && (s.tokens > 0 || s.unsent > 0 || InTime(s.contents, s.now + s.pc.pause, s.pc.readAt, s.now)))
    && (s.pc.Asleep? ==> s.pc.readAt <= s.pc.armedAt <= s.now
                         && (s.tokens > 0 || s.unsent > 0 || InTime(s.contents, s.pc.deadline, s.pc.readAt, s.pc.armedAt)))
  }

  lemma Preserved<V>(s: State<V>, step: Step<V>, t: State<V>)
    requires Inv(s) && Next(s, step, t)
    ensures Inv(t)
  {
  }

  lemma Reachable<V>(states: seq<State<V>>, steps: seq<Step<V>>, i: nat)
    requires Execution(states, steps) && i < |states|
    ensures Inv(states[i])
  {
    forall s: State<V>, step, t | Inv(s) && Next(s, step, t) ensures Inv(t) {
      Preserved(s, step, t);
    }
    Always(Init<V>, Next<V>, Inv<V>, states, steps, i);
  }

  /** No wake-up is lost: in every state of every execution in which the cleaner
      waits, its timer is in time for the earliest entry, or a wake-up is in the
      channel or still to be sent. */
  lemma NoLostWakeUp<V>(states: seq<State<V>>, steps: seq<Step<V>>, i: nat)
    requires Execution(states, steps) && i < |states| && states[i].pc.Asleep?
    ensures var s := states[i];
            s.tokens > 0 || s.unsent > 0 || InTime(s.contents, s.pc.deadline, s.pc.readAt, s.pc.armedAt)
  {
    Reachable(states, steps, i);
  }

  /** So once an entry is overdue by more than a millisecond and the delay of the
      timer, the cleaner is never left asleep: it has a step of its own, or a
      caller can send. */
  lemma OverdueIsNoticed<V>(states: seq<State<V>>, steps: seq<Step<V>>, i: nat, key: string)
    requires Execution(states, steps) && i < |states|
    requires var s := states[i];
             key in s.contents
             && (s.pc.Asleep? ==> s.now >= Max(s.contents[key].expTime, s.pc.readAt + MILLISECOND) + (s.pc.armedAt - s.pc.readAt))
    ensures exists step: Step<V>, t ::
              (step.Pause? || step.Arm? || step.Receive? || step.Fire? || step.Clear? || step.Send?) && Next(states[i], step, t)
  {
    Reachable(states, steps, i);
    var s := states[i];
    if s.unsent > 0 && s.tokens < CONTROL_CAPACITY {
      var t := s.(unsent := s.unsent - 1, tokens := s.tokens + 1);
      assert Next(s, Send, t);
    } else if !s.pc.Asleep? || s.tokens > 0 {
      CleanerMoves(s);
    } else {
      var k := EarliestExists(s.contents);
      assert Next(s, Fire, s.(tick := false, pc := Due));
    }
  }

  /** The cleaner can only be held up in its select, with an empty channel. */
  lemma CleanerMoves<V>(s: State<V>)
    requires !s.pc.Asleep? || s.tokens > 0
    ensures exists step: Step<V>, t :: (step.Pause? || step.Arm? || step.Receive? || step.Clear?) && Next(s, step, t)
  {
    match s.pc
    case Top =>
      var pause := PauseExists(s.contents, s.now);
      assert Next(s, Pause(pause), s.(pc := Paused(pause, s.now)));
    case Paused(pause, readAt) =>
      assert Next(s, Arm, s.(pc := Asleep(s.now + pause, readAt, s.now)));
    case Asleep(_, _, _) =>
      assert Next(s, Receive(false), s.(tokens := s.tokens - 1, pc := Top));
    case Due =>
      var after := PassExists(s.contents, s.now);
      assert Next(s, Clear(after, s.now), s.(contents := after, pc := Top));
  }

  /** A caller that has to wait for room in the channel waits for a cleaner that
      can move. */
  lemma SendersAreServed<V>(states: seq<State<V>>, steps: seq<Step<V>>, i: nat)
    requires Execution(states, steps) && i < |states| && states[i].unsent > 0
    ensures exists step: Step<V>, t :: !step.Tick? && !step.PutBody? && !step.RemoveBody? && Next(states[i], step, t)
  {
    Reachable(states, steps, i);
    var s := states[i];
    if s.tokens < CONTROL_CAPACITY {
      assert Next(s, Send, s.(unsent := s.unsent - 1, tokens := s.tokens + 1));
    } else {
      CleanerMoves(s);
    }
  }

  // ---------- How soon a pass comes ----------

  function PcRank(pc: Pc): nat {
    match pc
    case Top => 3
    case Paused(_, _) => 2
    case Asleep(_, _, _) => 1
    case Due => 0
  }

  /** How many steps senders and cleaner can take at most before a pass. */
  function Measure<V>(s: State<V>): nat {
    4 * s.unsent + 3 * s.tokens + PcRank(s.pc)
  }

  /** Steps other than a caller's changes of the cache, and other than a pass. */
  predicate Calm<V>(step: Step<V>) {
    !step.PutBody? && !step.RemoveBody? && !step.Clear?
  }

  /** The steps from `from` to `k` in which something other than time moves. */
  function Moves<V>(steps: seq<Step<V>>, from: nat, k: nat): nat
    requires from <= k <= |steps|
    decreases k
  {
    if k == from then 0 else Moves(steps, from, k - 1) + if steps[k - 1].Tick? then 0 else 1
  }

  lemma {:induction false} MeasureOverRun<V>(states: seq<State<V>>, steps: seq<Step<V>>, from: nat, k: nat)
    requires Execution(states, steps) && from <= k < |states|
    requires forall j :: from <= j < k ==> Calm(steps[j])
    ensures Measure(states[k]) + Moves(steps, from, k) <= Measure(states[from])
    decreases k
  {
    if k > from {
      MeasureOverRun(states, steps, from, k - 1);
      assert Next(states[k - 1], steps[k - 1], states[k - 1 + 1]);
    }
  }

  /** From any state on, senders and cleaner take a bounded number of steps before
      a pass, unless a caller changes the cache again; and they are not stuck while
      an entry is overdue. So the pass comes, and removes something. */
  lemma PassComes<V>(states: seq<State<V>>, steps: seq<Step<V>>, from: nat, key: string)
    requires Execution(states, steps) && from <= |steps|
    requires forall j :: from <= j < |steps| ==> Calm(steps[j])
    requires var s := states[|steps|];
             && key in s.contents && s.contents[key].expTime < s.now
             && (s.pc.Asleep? ==> s.now >= Max(s.contents[key].expTime, s.pc.readAt + MILLISECOND) + (s.pc.armedAt - s.pc.readAt))
    ensures Moves(steps, from, |steps|) <= Measure(states[from])
    ensures exists step: Step<V>, t :: !step.Tick? && !step.PutBody? && !step.RemoveBody? && Next(states[|steps|], step, t)
    ensures forall step: Step<V>, t :: step.Clear? && Next(states[|steps|], step, t) ==> |t.contents| < |states[|steps|].contents|
  {
    MeasureOverRun(states, steps, from, |steps|);
    OverdueIsNoticed(states, steps, |steps|, key);
  }

  /** The same for a caller that has its wake-up to send. */
  lemma SendOrPassComes<V>(states: seq<State<V>>, steps: seq<Step<V>>, from: nat)
    requires Execution(states, steps) && from <= |steps| && states[|steps|].unsent > 0
    requires forall j :: from <= j < |steps| ==> Calm(steps[j])
    ensures Moves(steps, from, |steps|) <= Measure(states[from])
    ensures exists step: Step<V>, t :: !step.Tick? && !step.PutBody? && !step.RemoveBody? && Next(states[|steps|], step, t)
  {
    MeasureOverRun(states, steps, from, |steps|);
    SendersAreServed(states, steps, |steps|);
  }
}
