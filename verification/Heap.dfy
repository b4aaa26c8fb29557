/** The expiry queue of cache/cache.go: a binary min-heap of elements ordered by
    expiry time, in which every element knows its own position. */
module Heap {

  // ---------- Heap order on the sequence of expiry times ----------

  function Parent(j: int): int {
    if j <= 0 then 0 else (j - 1) / 2
  }

  /** `k` is a position other than the root that lies below `n`. */
  ghost predicate Child(k: int, n: int) {
    0 < k < n
  }

  /** The first `n` times are in heap order. */
  ghost predicate Ordered(ts: seq<int>, n: int)
    requires 0 <= n <= |ts|
  {
    forall k {:trigger Child(k, n)} :: Child(k, n) ==> ts[Parent(k)] <= ts[k]
  }

  /** Heap order may fail between `i` and its neighbours only, and `i` can be
      taken out of the way between its parent and its children. */
  ghost predicate OrderedExcept(ts: seq<int>, n: int, i: int)
    requires 0 <= i < n <= |ts|
  {
    && (forall k {:trigger Child(k, n)} :: Child(k, n) && k != i && Parent(k) != i ==> ts[Parent(k)] <= ts[k])
    && (forall k {:trigger Child(k, n)} :: Child(k, n) && Parent(k) == i && i > 0 ==> ts[Parent(i)] <= ts[k])
  }

  /** As OrderedExcept, with `i` not above its children. */
  ghost predicate OrderedBelow(ts: seq<int>, n: int, i: int)
    requires 0 <= i < n <= |ts|
  {
    && OrderedExcept(ts, n, i)
    && (forall k {:trigger Child(k, n)} :: Child(k, n) && Parent(k) == i ==> ts[i] <= ts[k])
  }

  /** As OrderedExcept, with `i` not below its parent. */
  ghost predicate OrderedAbove(ts: seq<int>, n: int, i: int)
    requires 0 <= i < n <= |ts|
  {
    && OrderedExcept(ts, n, i)
    && (i > 0 ==> ts[Parent(i)] <= ts[i])
  }

  function Swapped<T>(s: seq<T>, i: int, j: int): seq<T>
    requires 0 <= i < |s| && 0 <= j < |s|
  {
    s[i := s[j]][j := s[i]]
  }

  /** The root of a heap is a minimum. */
  lemma {:induction false} RootIsLeast(ts: seq<int>, n: int, k: int)
    requires 0 <= k < n <= |ts| && Ordered(ts, n)
    ensures ts[0] <= ts[k]
    decreases k
  {
    if k > 0 {
      assert Child(k, n);
      RootIsLeast(ts, n, Parent(k));
    }
  }

  /** One step of sifting up. */
  lemma UpStep(ts: seq<int>, n: int, i: int)
    requires 0 < i < n <= |ts| && OrderedBelow(ts, n, i)
    requires ts[i] < ts[Parent(i)]
    ensures OrderedBelow(Swapped(ts, i, Parent(i)), n, Parent(i))
  {
    var p := Parent(i);
    var us := Swapped(ts, i, p);
    forall k | Child(k, n) && k != p && Parent(k) != p ensures us[Parent(k)] <= us[k] {
      assert Child(i, n);
    }
    forall k | Child(k, n) && Parent(k) == p && p > 0 ensures us[Parent(p)] <= us[k] {
      assert Child(p, n) && Child(i, n);
    }
    forall k | Child(k, n) && Parent(k) == p ensures us[p] <= us[k] {
      assert Child(i, n);
    }
  }

  /** One step of sifting down, to the smaller child `c` of `i`. */
  lemma DownStep(ts: seq<int>, n: int, i: int, c: int)
    requires 0 <= i < c < n <= |ts| && Parent(c) == i && OrderedExcept(ts, n, i)
    requires ts[c] < ts[i]
    requires forall k {:trigger Child(k, n)} :: Child(k, n) && Parent(k) == i ==> ts[c] <= ts[k]
    ensures OrderedAbove(Swapped(ts, i, c), n, c)
  {
    var us := Swapped(ts, i, c);
    assert Child(c, n);
    forall k | Child(k, n) && k != c && Parent(k) != c ensures us[Parent(k)] <= us[k] {
    }
    forall k | Child(k, n) && Parent(k) == c ensures us[Parent(c)] <= us[k] {
    }
  }

  /** A new time at one position of a heap. */
  lemma ChangeOne(ts: seq<int>, us: seq<int>, n: int, i: int)
    requires 0 <= i < n <= |ts| && n <= |us| && Ordered(ts, |ts|)
    requires forall k :: 0 <= k < n && k != i ==> us[k] == ts[k]
    ensures OrderedExcept(us, n, i)
  {
    forall k | Child(k, n) && Parent(k) == i && i > 0 ensures us[Parent(i)] <= us[k] {
      assert Child(i, |ts|) && Child(k, |ts|);
    }
    assert forall k :: Child(k, n) ==> Child(k, |ts|);
  }

  /** A position without smaller children and without a greater parent leaves nothing to repair. */
  lemma OrderedAll(ts: seq<int>, n: int, i: int)
    requires 0 <= i < n <= |ts| && OrderedBelow(ts, n, i) && OrderedAbove(ts, n, i)
    ensures Ordered(ts, n)
  {
  }

  /** `c` is the smaller of the two children of `i`. */
  lemma LeastChild(ts: seq<int>, n: int, i: int, c: int)
    requires 0 <= i < c < n <= |ts|
    requires c == 2 * i + 1 || (c == 2 * i + 2 && ts[c] <= ts[c - 1])
    requires c == 2 * i + 1 && c + 1 < n ==> ts[c] <= ts[c + 1]
    ensures Parent(c) == i
    ensures forall k {:trigger Child(k, n)} :: Child(k, n) && Parent(k) == i ==> ts[c] <= ts[k]
  {
    forall k | Child(k, n) && Parent(k) == i ensures ts[c] <= ts[k] {
      assert k == 2 * i + 1 || k == 2 * i + 2;
    }
  }

  // ---------- The queue ----------

  class Element<V> {
    var index: int
    const key: string
    var value: V
    var ttl: int
    var expTime: int

    constructor (key: string, value: V, ttl: int, expTime: int)
      ensures this.index == -1 && this.key == key && this.value == value && this.ttl == ttl && this.expTime == expTime
    {
      this.index := -1;
      this.key := key;
      this.value := value;
      this.ttl := ttl;
      this.expTime := expTime;
    }
  }

  class PriorityQueue<V> {
    var items: seq<Element<V>>
    ghost var members: set<Element<V>>

    constructor ()
      ensures Valid() && items == [] && members == {}
    {
      items := [];
      members := {};
    }

    ghost function Times(): (ts: seq<int>)
      reads this, items
      ensures |ts| == |items|
    {
      seq(|items|, i requires 0 <= i < |items| reads this, items => items[i].expTime)
    }

    /** Every element knows its position, so no element is queued twice. */
    ghost predicate Indexed()
      reads this, members
    {
      && (forall i :: 0 <= i < |items| ==> items[i] in members && items[i].index == i)
      && (forall e :: e in members ==> 0 <= e.index < |items| && items[e.index] == e)
    }

    ghost predicate Valid()
      reads this, members
    {
      Indexed() && Ordered(Times(), |items|)
    }

    predicate Less(i: int, j: int)
      requires 0 <= i < |items| && 0 <= j < |items|
      reads this, items
    {
      items[i].expTime < items[j].expTime
    }

    method Swap(i: int, j: int)
      requires 0 <= i < |items| && 0 <= j < |items| && Indexed()
      modifies this, members`index
      ensures items == Swapped(old(items), i, j)
      ensures Indexed() && Times() == Swapped(old(Times()), i, j)
      ensures members == old(members)
    {
      items := items[i := items[j]][j := items[i]];
      items[i].index := i;
      items[j].index := j;
    }

    /** Sifts up from `j` among the first `n` elements. */
    method Up(j: int, ghost n: int)
      requires 0 <= j < n <= |items| && Indexed() && OrderedBelow(Times(), n, j)
      modifies this, members`index
      ensures Indexed() && |items| == |old(items)| && members == old(members)
      ensures Ordered(Times(), n) && items[n..] == old(items[n..])
    {
      var k := j;
      while k > 0 && Less(k, Parent(k))
        invariant 0 <= k < n <= |items| && Indexed() && OrderedBelow(Times(), n, k)
        invariant |items| == |old(items)| && items[n..] == old(items[n..])
        invariant members == old(members)
        decreases k
      {
        UpStep(Times(), n, k);
        Swap(k, Parent(k));
        k := Parent(k);
      }
      OrderedAll(Times(), n, k);
    }

    method SmallerChild(i: int, n: int) returns (c: int)
      requires 0 <= i && 2 * i + 1 < n <= |items|
      ensures i < c < n && Parent(c) == i
      ensures forall k {:trigger Child(k, n)} :: Child(k, n) && Parent(k) == i ==> Times()[c] <= Times()[k]
    {
      c := 2 * i + 1;
      if c + 1 < n && Less(c + 1, c) {
        c := c + 1;
      }
      LeastChild(Times(), n, i, c);
    }

    /** Sifts down from `start` among the first `n` elements; tells whether anything moved. */
    method Down(start: int, n: int) returns (moved: bool)
      requires 0 <= start < n <= |items| && Indexed() && OrderedExcept(Times(), n, start)
      modifies this, members`index
      ensures Indexed() && |items| == |old(items)| && members == old(members)
      ensures items[n..] == old(items[n..])
      ensures moved ==> Ordered(Times(), n)
      ensures !moved ==> items == old(items) && OrderedBelow(Times(), n, start)
    {
      var i := start;
      while true
        invariant start <= i < n <= |items| && Indexed()
        invariant |items| == |old(items)| && items[n..] == old(items[n..])
        invariant members == old(members)
        invariant i == start ==> items == old(items) && OrderedExcept(Times(), n, i)
        invariant i > start ==> OrderedAbove(Times(), n, i)
        decreases n - i
      {
        if 2 * i + 1 >= n {
          break;
        }
        var c := SmallerChild(i, n);
        if !Less(c, i) {
          break;
        }
        DownStep(Times(), n, i, c);
        Swap(i, c);
        i := c;
      }
      assert OrderedBelow(Times(), n, i);
      if i > start {
        OrderedAll(Times(), n, i);
      }
      moved := i > start;
    }

    /** heap.Push */
    method HeapPush(e: Element<V>)
      requires Valid() && e !in members
      modifies this, members`index, e`index
      ensures Valid()
      ensures members == old(members) + {e} && |items| == |old(items)| + 1
    {
      ghost var before := Times();
      e.index := |items|;
      items := items + [e];
      members := members + {e};
      ghost var n := |items|;
      forall k | Child(k, n) && k != n - 1 ensures Times()[Parent(k)] <= Times()[k] {
        assert Child(k, n - 1) && before[Parent(k)] <= before[k];
      }
      Up(|items| - 1, n);
    }

    /** The queue's own Pop: takes the last element off. */
    method Pop() returns (e: Element<V>)
      requires |items| > 0 && Indexed() && Ordered(Times(), |items| - 1)
      modifies this, members`index
      ensures e == old(items)[|old(items)| - 1] && items == old(items)[..|old(items)| - 1]
      ensures e.index == -1 && Valid()
      ensures members == old(members) - {e}
    {
      var n := |items| - 1;
      ghost var before := Times();
      PopRest(items, n);
      e := items[n];
      assert forall i :: 0 <= i < n ==> items[i].index == i && items[i] != e;
      e.index := -1;
      items := items[..n];
      members := members - {e};
      assert Times() == before[..n];
      assert forall k :: Child(k, n) ==> before[Parent(k)] <= before[k];
    }

    /** Down or else Up: what heap.Fix and heap.Remove do to a changed position. */
    method Repair(i: int, n: int)
      requires 0 <= i < n <= |items| && Indexed() && OrderedExcept(Times(), n, i)
      modifies this, members`index
      ensures Indexed() && |items| == |old(items)| && members == old(members)
      ensures Ordered(Times(), n) && items[n..] == old(items[n..])
    {
      var moved := Down(i, n);
      if !moved {
        Up(i, n);
      }
    }

    /** heap.Remove */
    method HeapRemove(e: Element<V>)
      requires Valid() && e in members
      modifies this, members`index
      ensures Valid()
      ensures members == old(members) - {e} && |items| == |old(items)| - 1
    {
      var i, n := e.index, |items| - 1;
      if n != i {
        ghost var before := Times();
        Swap(i, n);
        ChangeOne(before, Times(), n, i);
        assert items[n..][0] == e;
        Repair(i, n);
        assert items[n..][0] == e;
      } else {
        assert forall k :: Child(k, n) ==> Child(k, |items|);
      }
      assert items[n] == e;
      var last := Pop();
    }

    /** heap.Fix; `before` holds the expiry times before that of `e` changed. */
    method HeapFix(e: Element<V>, ghost before: seq<int>)
      requires Indexed() && e in members
      requires |before| == |items| && Ordered(before, |before|)
      requires forall k :: 0 <= k < |items| && items[k] != e ==> items[k].expTime == before[k]
      modifies this, members`index
      ensures Valid() && members == old(members) && |items| == |old(items)|
    {
      ChangeOne(before, Times(), |items|, e.index);
      Repair(e.index, |items|);
    }
  }

  lemma PopRest<T>(s: seq<T>, n: nat)
    requires |s| == n + 1
    ensures forall x :: x in s <==> x in s[..n] || x == s[n]
  {
    assert s == s[..n] + [s[n]];
  }
}
