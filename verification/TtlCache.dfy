/** The time-to-live cache of cache/cache.go. Each method is one critical section
    of the source's mutex; the clock readings it makes are parameters. Put and
    Remove send a wake-up to the cleaner after unlocking exactly when they have
    changed something; module Cleaner models that exchange. */
module TtlCache {
  import opened Durations
  import opened Options
  import opened Heap
  import opened CacheSpec

  class Cache<V> {
    var closed: bool
    const queue: PriorityQueue<V>
    var elements: map<string, Element<V>>

    /** What the cache holds, as a map. */
    ghost var contents: Contents<V>

    constructor ()
      ensures Valid() && !closed && contents == map[]
      ensures fresh(queue) && queue.members == {}
    {
      closed := false;
      queue := new PriorityQueue<V>();
      elements := map[];
      contents := map[];
    }

    ghost predicate Valid()
      reads this, queue, queue.members
    {
      queue.Valid() && Linked(elements, queue.members, contents) && |elements| == |queue.items|
    }

    method Size() returns (n: int)
      requires Valid()
      ensures n == if closed then -1 else |contents|
    {
      if closed {
        return -1;
      }
      SameSize(elements, contents);
      return |elements|;
    }

    /** The value of an entry that expires first. */
    method First() returns (r: Option<V>)
      requires Valid()
      ensures r.None? <==> closed || contents == map[]
      ensures r.Some? ==> exists k :: Earliest(contents, k) && contents[k].value == r.value
    {
      if closed || |queue.items| == 0 {
        SameSize(elements, contents);
        return None;
      }
      RootIsEarliest();
      return Some(queue.items[0].value);
    }

    lemma RootIsEarliest()
      requires Valid() && |queue.items| > 0
      ensures Earliest(contents, queue.items[0].key)
      ensures contents[queue.items[0].key] == Entry(queue.items[0].value, queue.items[0].ttl, queue.items[0].expTime)
    {
      forall k | k in contents ensures queue.items[0].expTime <= contents[k].expTime {
        RootIsLeast(queue.Times(), |queue.items|, elements[k].index);
      }
    }

    /** Get does not look at the expiry time. */
    method Get(key: string) returns (r: Option<V>)
      requires Valid()
      ensures r == if !closed && key in contents then Some(contents[key].value) else None
    {
      if closed {
        return None;
      }
      if key in elements {
        return Some(elements[key].value);
      }
      return None;
    }

    /** None is the panic on a negative time to live. */
    method Put(key: string, value: V, ttl: int, now: int) returns (ok: Option<bool>)
      requires Valid()
      modifies this`elements, this`contents, queue, queue.members
      ensures Valid() && fresh(queue.members - old(queue.members))
      ensures ok == if ttl < 0 then None else Some(!closed)
      ensures contents == if ok == Some(true) then old(contents)[key := Entry(value, ttl, now + ttl)] else old(contents)
    {
      hide PriorityQueue.Valid;
      if ttl < 0 {
        return None;
      }
      if closed {
        return Some(false);
      }
      var expireAt := now + ttl;
      if key in elements {
        var e := elements[key];
        Update0(e, value, ttl, expireAt);
      } else {
        var e := new Element(key, value, ttl, expireAt);
        Add0(e);
      }
      return Some(true);
    }

    method Update0(e: Element<V>, value: V, ttl: int, expTime: int)
      requires Valid() && e in queue.members
      modifies this`contents, queue, queue.members
      ensures Valid() && queue.members == old(queue.members)
      ensures contents == old(contents)[e.key := Entry(value, ttl, expTime)]
    {
      hide Linked, Ordered, PriorityQueue.Indexed;
      assert queue.Indexed() && Ordered(queue.Times(), |queue.items|);
      ghost var before := queue.Times();
      Assign(e, value, ttl, expTime);
      queue.HeapFix(e, before);
    }

    method Assign(e: Element<V>, value: V, ttl: int, expTime: int)
      requires queue.Indexed() && Linked(elements, queue.members, contents) && e in queue.members
      modifies this`contents, e`value, e`ttl, e`expTime
      ensures queue.Indexed() && Linked(elements, queue.members, contents)
      ensures contents == old(contents)[e.key := Entry(value, ttl, expTime)]
      ensures forall k :: 0 <= k < |queue.items| && queue.items[k] != e ==> queue.items[k].expTime == old(queue.items[k].expTime)
    {
      assert forall x :: x in queue.members && x != e ==> x.key != e.key;
      e.ttl := ttl;
      e.value := value;
      e.expTime := expTime;
      contents := contents[e.key := Entry(value, ttl, expTime)];
    }

    method Add0(e: Element<V>)
      requires Valid() && e.key !in elements
      modifies this`elements, this`contents, queue, queue.members, e`index
      ensures Valid() && queue.members == old(queue.members) + {e}
      ensures contents == old(contents)[e.key := Entry(e.value, e.ttl, e.expTime)]
    {
      hide PriorityQueue.Valid, Linked;
      Link(elements, queue.members, contents, e);
      queue.HeapPush(e);
      elements := elements[e.key := e];
      contents := contents[e.key := Entry(e.value, e.ttl, e.expTime)];
    }

    method Remove0(e: Element<V>)
      requires Valid() && e in queue.members
      modifies this`elements, this`contents, queue, queue.members
      ensures Valid() && queue.members == old(queue.members) - {e}
      ensures contents == old(contents) - {e.key}
      ensures |queue.items| == |old(queue.items)| - 1
    {
      hide PriorityQueue.Valid, Linked;
      Unlink(elements, queue.members, contents, e);
      elements := elements - {e.key};
      contents := contents - {e.key};
      Dequeue(e);
    }

    /** Takes out of the queue what is not in the map any more. */
    method Dequeue(e: Element<V>)
      requires queue.Valid() && e in queue.members && Linked(elements, queue.members - {e}, contents)
      modifies queue, queue.members
      ensures queue.Valid() && queue.members == old(queue.members) - {e} && |queue.items| == |old(queue.items)| - 1
      ensures Linked(elements, queue.members, contents)
    {
      hide PriorityQueue.Valid, Linked;
      queue.HeapRemove(e);
    }

    /** Remove does not look at the expiry time. */
    method Remove(key: string) returns (removed: bool)
      requires Valid()
      modifies this`elements, this`contents, queue, queue.members
      ensures Valid() && queue.members <= old(queue.members)
      ensures removed == (!closed && key in old(contents))
      ensures contents == if removed then old(contents) - {key} else old(contents)
    {
      if closed {
        return false;
      }
      removed := key in elements;
      if removed {
        Remove0(elements[key]);
      }
    }

    /** Tells whether this call is the one that closes the control channel. */
    method Close() returns (closesControl: bool)
      requires Valid()
      modifies this`closed
      ensures Valid() && closed && closesControl == !old(closed) && contents == old(contents)
    {
      closesControl := !closed;
      closed := true;
    }

    /** How long the cleaner may sleep. */
    method PauseTime(now: int) returns (pause: int)
      requires Valid()
      ensures PauseFor(contents, now, pause)
      ensures contents == map[] ==> pause == 600_000_000_000
      ensures contents != map[] ==> exists k :: Earliest(contents, k) && pause == if contents[k].expTime < now then 1_000_000 else contents[k].expTime - now
    {
      if |queue.items| > 0 {
        RootIsEarliest();
        pause := queue.items[0].expTime - now;
        if pause < 0 {
          pause := MILLISECOND;
        }
      } else {
        SameSize(elements, contents);
        pause := IDLE_PAUSE;
      }
    }

    /** One cleaning pass; `clock(i)` is the time that its i-th expiry test reads.
        The position moves on although a removal has already moved the queue. */
    method ClearExpired(clock: nat -> int) returns (ghost tests: nat, ghost queues: seq<seq<Element<V>>>)
      requires Valid()
      requires forall i: nat, j: nat :: i <= j ==> clock(i) <= clock(j)
      modifies this`elements, this`contents, queue, queue.members
      ensures Valid() && queue.members <= old(queue.members)
      ensures Pass(old(contents), contents, clock(0), clock(tests))
      ensures tests == |old(contents)| - |contents|
      ensures tests < |queue.items| ==> queue.items[tests].ttl != 0 && queue.items[tests].expTime >= clock(tests)
      ensures Trace(queues, old(contents), clock)
      ensures |queues| == tests + 1 && queues[0] == old(queue.items) && queues[tests] == queue.items
    {
      hide PartOfPass, Pass, Trace, TakenOut, WasExpired, Valid, All;
      ghost var before := contents;
      SizeOfQueue();
      PassBegins(before, clock(0));
      queues := [queue.items];
      TraceBegins(queue.items, before, clock);
      var i: nat := 0;
      while i < |queue.items|
        invariant Valid() && queue.members <= old(queue.members)
        invariant |contents| == |queue.items| == |before| - i && i <= |queue.items| + 1 && All(queue.items) == queue.members
        invariant PartOfPass(before, contents, i, clock(0), clock(i))
        invariant Trace(queues, before, clock) && |queues| == i + 1 && queues[0] == old(queue.items) && queues[i] == queue.items
        decreases |queue.items|
      {
        var e := queue.items[i];
        if !(e.ttl == 0 || e.expTime < clock(i)) {
          break;
        }
        PassGoesOn(before, i, clock(0), clock(i), clock(i + 1));
        Remove0(e);
        SizeOfQueue();
        TraceGoesOn(queues, before, clock, queue.items);
        queues := queues + [queue.items];
        i := i + 1;
      }
      tests := i;
      PassEnds(before, i, clock(0), clock(i));
    }

    lemma SizeOfQueue()
      requires Valid()
      ensures |contents| == |queue.items| && All(queue.items) == queue.members
    {
      SameSize(elements, contents);
    }

    /** A removal at position `i` makes the pass longer. */
    lemma PassGoesOn(before: Contents<V>, i: nat, from: int, now: int, later: int)
      requires Valid() && PartOfPass(before, contents, i, from, now) && now <= later && i < |queue.items|
      requires var e := queue.items[i]; e.ttl == 0 || e.expTime < now
      ensures PartOfPass(before, contents - {queue.items[i].key}, i + 1, from, later)
      ensures queue.items[i] in queue.members && WasExpired(before, queue.items[i], now)
    {
      var e := queue.items[i];
      assert e.key in contents && contents[e.key] == Entry(e.value, e.ttl, e.expTime);
      RemoveExpired(before, contents, e.key, now, later);
      LeavesOverdue(from, i);
    }

    /** The pass ends behind the queue, or at a live element. */
    lemma PassEnds(before: Contents<V>, i: nat, from: int, now: int)
      requires Valid() && PartOfPass(before, contents, i, from, now) && from <= now
      requires |contents| == |queue.items| == |before| - i && i <= |queue.items| + 1
      requires i < |queue.items| ==> var e := queue.items[i]; e.ttl != 0 && e.expTime >= now
      ensures Pass(before, contents, from, now)
    {
      NoneOverdue(before, from);
      if i < |queue.items| {
        StoppedEarly(before, from, now, i);
      }
    }

    /** Only the removal at position 0 can take out the last overdue entry: what
        follows it in the root is not tested any more. */
    lemma LeavesOverdue(from: int, i: nat)
      requires Valid() && i < |queue.items|
      ensures var rest := contents - {queue.items[i].key};
              if i == 0 then !Overdue(rest, from) <==> |OverdueKeys(contents, from)| <= 1
              else Overdue(rest, from) <==> Overdue(contents, from)
    {
      RootIsEarliest();
      var first, key := queue.items[0].key, queue.items[i].key;
      if i == 0 {
        WithoutEarliest(contents, first, from);
      } else {
        assert elements[first] != elements[key];
        WithoutLater(contents, first, key, from);
      }
    }

    /** What it means that the pass stops at a live element. */
    lemma StoppedEarly(before: Contents<V>, from: int, now: int, i: nat)
      requires Valid() && Within(contents, before) && from <= now && i < |queue.items|
      requires var e := queue.items[i]; e.ttl != 0 && e.expTime >= now
      requires i == 0 ==> contents == before
      ensures !AllExpired(before, from)
      ensures i == 0 ==> !Overdue(before, from)
    {
      var e := queue.items[i];
      assert e.key in contents && before[e.key] == Entry(e.value, e.ttl, e.expTime);
      if i == 0 {
        RootIsEarliest();
      }
    }
  }

  /** The map holds the elements of the queue, each under its own key, and
      `contents` says what they hold. */
  ghost predicate Linked<V>(elements: map<string, Element<V>>, members: set<Element<V>>, contents: Contents<V>)
    reads members`value, members`ttl, members`expTime
  {
    && contents.Keys == elements.Keys
    && (forall k :: k in elements ==> elements[k] in members && elements[k].key == k)
    && (forall e :: e in members ==> e.key in elements && elements[e.key] == e)
    && (forall e :: e in members ==> e.key in contents && contents[e.key] == Entry(e.value, e.ttl, e.expTime))
  }

  lemma Link<V>(elements: map<string, Element<V>>, members: set<Element<V>>, contents: Contents<V>, e: Element<V>)
    requires Linked(elements, members, contents) && e.key !in elements
    ensures e !in members
    ensures Linked(elements[e.key := e], members + {e}, contents[e.key := Entry(e.value, e.ttl, e.expTime)])
  {
  }

  lemma Unlink<V>(elements: map<string, Element<V>>, members: set<Element<V>>, contents: Contents<V>, e: Element<V>)
    requires Linked(elements, members, contents) && e in members
    ensures Linked(elements - {e.key}, members - {e}, contents - {e.key})
    ensures e.key in elements && |elements - {e.key}| == |elements| - 1
  {
    assert forall x :: x in members - {e} ==> x.key != e.key;
  }

  lemma SameSize<A, B>(m: map<string, A>, n: map<string, B>)
    requires m.Keys == n.Keys
    ensures |m| == |n|
  {
    assert |m| == |m.Keys| && |n| == |n.Keys|;
  }

  ghost function All<T>(s: seq<T>): set<T> {
    set x | x in s
  }

  /** Exactly `e` has left the queue. */
  ghost predicate TakenOut<V>(before: seq<Element<V>>, e: Element<V>, after: seq<Element<V>>) {
    |after| == |before| - 1 && e in before && All(after) == All(before) - {e}
  }

  ghost predicate WasExpired<V>(m: Contents<V>, e: Element<V>, now: int) {
    e.key in m && (m[e.key].ttl == 0 || m[e.key].expTime < now)
  }

  /** The states of the queue in a pass: the i-th test finds the element at position
      `i` expired and takes out just that one. */
  ghost predicate Trace<V>(queues: seq<seq<Element<V>>>, m: Contents<V>, clock: nat -> int) {
    && queues != []
    && forall i :: 0 <= i < |queues| - 1 ==>
         i < |queues[i]| && TakenOut(queues[i], queues[i][i], queues[i + 1]) && WasExpired(m, queues[i][i], clock(i))
  }

  lemma TraceBegins<V>(queue: seq<Element<V>>, m: Contents<V>, clock: nat -> int)
    ensures Trace([queue], m, clock)
  {
  }

  lemma TraceGoesOn<V>(queues: seq<seq<Element<V>>>, m: Contents<V>, clock: nat -> int, after: seq<Element<V>>)
    requires Trace(queues, m, clock)
    requires var i := |queues| - 1; i < |queues[i]| && WasExpired(m, queues[i][i], clock(i))
    requires var i := |queues| - 1; |after| == |queues[i]| - 1 && All(after) == All(queues[i]) - {queues[i][i]}
    ensures Trace(queues + [after], m, clock)
  {
  }

  /** What a pass has done when it comes to position `i`. */
  ghost predicate PartOfPass<V>(before: Contents<V>, after: Contents<V>, i: nat, from: int, now: int) {
    && RemovedOnlyExpired(before, after, now)
    && (i == 0 ==> after == before)
    && (i > 0 ==> (!Overdue(after, from) <==> |OverdueKeys(before, from)| <= 1))
  }

  lemma PassBegins<V>(before: Contents<V>, from: int)
    ensures PartOfPass(before, before, 0, from, from)
  {
  }

  ghost predicate RemovedOnlyExpired<V>(before: Contents<V>, after: Contents<V>, now: int) {
    && Within(after, before)
    && forall k :: k in before && k !in after ==> Expired(before[k], now)
  }

  lemma RemoveExpired<V>(before: Contents<V>, m: Contents<V>, key: string, now: int, later: int)
    requires RemovedOnlyExpired(before, m, now) && now <= later
    requires key in m && Expired(m[key], now)
    ensures RemovedOnlyExpired(before, m - {key}, later)
  {
  }
}
