/** What the cache of cache/cache.go holds, seen as a map, and what its cleaning
    passes do to that map. Times and durations are in nanoseconds. */
module CacheSpec {
  import opened Durations

  datatype Entry<+V> = Entry(value: V, ttl: int, expTime: int)

  type Contents<V> = map<string, Entry<V>>

  predicate Expired<V>(e: Entry<V>, now: int) {
    e.ttl == 0 || e.expTime < now
  }

  /** An entry with an earliest expiry time. */
  ghost predicate Earliest<V>(m: Contents<V>, key: string) {
    key in m && forall k :: k in m ==> m[key].expTime <= m[k].expTime
  }

  /** Some entry has an expiry time before `now`. */
  ghost predicate Overdue<V>(m: Contents<V>, now: int) {
    exists k :: k in m && m[k].expTime < now
  }

  ghost function OverdueKeys<V>(m: Contents<V>, now: int): set<string> {
    set k | k in m && m[k].expTime < now
  }

  ghost predicate AllExpired<V>(m: Contents<V>, now: int) {
    forall k :: k in m ==> Expired(m[k], now)
  }

  const IDLE_PAUSE: int := 10 * MINUTE

  /** How long the cleaner may sleep, counted from a clock reading `now`. */
  ghost predicate PauseFor<V>(m: Contents<V>, now: int, pause: int) {
    && (m == map[] ==> pause == IDLE_PAUSE)
    && (forall k :: Earliest(m, k) ==> pause == if m[k].expTime < now then MILLISECOND else m[k].expTime - now)
  }

  ghost predicate Within<V>(m: Contents<V>, whole: Contents<V>) {
    forall k :: k in m ==> k in whole && m[k] == whole[k]
  }

  /** One cleaning pass, which reads the clock between `from` and `to`: it removes
      expired entries and changes nothing else, removes something if the earliest
      entry is overdue, leaves something overdue exactly when two entries or more
      were, never removes more than half (rounded up) of the entries, and removes
      just that many when all of them have expired. */
  ghost predicate Pass<V>(before: Contents<V>, after: Contents<V>, from: int, to: int) {
    && Within(after, before)
    && (forall k :: k in before && k !in after ==> Expired(before[k], to))
    && (Overdue(before, from) ==> |after| < |before|)
    && (!Overdue(after, from) <==> |OverdueKeys(before, from)| <= 1)
    && |before| / 2 <= |after| <= |before|
    && (AllExpired(before, from) ==> |after| == |before| / 2)
  }

  lemma NoneOverdue<V>(m: Contents<V>, now: int)
    ensures OverdueKeys(m, now) == {} <==> !Overdue(m, now)
    ensures |OverdueKeys(m, now)| == 0 <==> !Overdue(m, now)
  {
    if Overdue(m, now) {
      var k :| k in m && m[k].expTime < now;
      assert k in OverdueKeys(m, now);
    }
  }

  /** Without an earliest entry, a map is rid of overdue entries if it had one at most. */
  lemma WithoutEarliest<V>(m: Contents<V>, key: string, now: int)
    requires Earliest(m, key)
    ensures !Overdue(m - {key}, now) <==> |OverdueKeys(m, now)| <= 1
  {
    NoneOverdue(m, now);
    NoneOverdue(m - {key}, now);
    assert OverdueKeys(m - {key}, now) == OverdueKeys(m, now) - {key};
    if Overdue(m, now) {
      assert key in OverdueKeys(m, now);
    }
  }

  /** Taking out any other entry does not. */
  lemma WithoutLater<V>(m: Contents<V>, first: string, key: string, now: int)
    requires Earliest(m, first) && key != first
    ensures Overdue(m - {key}, now) <==> Overdue(m, now)
  {
    if Overdue(m, now) {
      assert first in m - {key} && (m - {key})[first].expTime < now;
    }
  }

  /** Of two overdue entries a pass leaves one behind. */
  lemma PassLeavesOverdue<V>(value: V, after: Contents<V>)
    ensures var before: Contents<V> := map["a" := Entry(value, 1, 1), "b" := Entry(value, 1, 2)];
            && AllExpired(before, 5)
            && (Pass(before, after, 5, 5) ==> |after| == 1 && Overdue(after, 5))
  {
    var before: Contents<V> := map["a" := Entry(value, 1, 1), "b" := Entry(value, 1, 2)];
    assert OverdueKeys(before, 5) == {"a", "b"};
    assert before.Keys == {"a", "b"};
    assert |before| == |before.Keys|;
  }

  /** Consecutive passes at one time. */
  ghost predicate Passes<V>(chain: seq<Contents<V>>, now: int) {
    && chain != []
    && forall i :: 0 <= i < |chain| - 1 ==> Pass(chain[i], chain[i + 1], now, now)
  }

  function Pow2(k: nat): (p: nat)
    ensures p > 0
  {
    if k == 0 then 1 else 2 * Pow2(k - 1)
  }

  /** `n` halved `k` times, rounding down. */
  function Halved(n: nat, k: nat): nat {
    if k == 0 then n else Halved(n, k - 1) / 2
  }

  lemma {:induction false} HalvedBound(n: nat, k: nat, j: nat)
    ensures Halved(n, k) < Pow2(j) <==> n < Pow2(k + j)
  {
    if k > 0 {
      HalvedBound(n, k - 1, j + 1);
      assert Pow2(j + 1) == 2 * Pow2(j);
    }
  }

  /** When everything has expired, each pass halves what is left. */
  lemma {:induction false} DrainHalves<V>(chain: seq<Contents<V>>, now: int, i: nat)
    requires Passes(chain, now) && AllExpired(chain[0], now) && i < |chain|
    ensures |chain[i]| == Halved(|chain[0]|, i) && AllExpired(chain[i], now)
  {
    if i > 0 {
      DrainHalves(chain, now, i - 1);
      assert Pass(chain[i - 1], chain[i - 1 + 1], now, now);
    }
  }

  /** So `i` passes empty a cache of n expired entries exactly when n < 2^i: it
      takes one pass more than the binary logarithm of n, rounded down. */
  lemma DrainRounds<V>(chain: seq<Contents<V>>, now: int, i: nat)
    requires Passes(chain, now) && AllExpired(chain[0], now) && i < |chain|
    ensures chain[i] == map[] <==> |chain[0]| < Pow2(i)
  {
    DrainHalves(chain, now, i);
    HalvedBound(|chain[0]|, i, 0);
  }

  /** While anything is overdue a pass has removed at least one entry each time. */
  lemma {:induction false} DrainProgress<V>(chain: seq<Contents<V>>, now: int, i: nat)
    requires Passes(chain, now) && i < |chain|
    ensures Overdue(chain[i], now) ==> |chain[i]| + i <= |chain[0]|
    ensures Within(chain[i], chain[0])
    ensures forall k :: k in chain[0] && k !in chain[i] ==> Expired(chain[0][k], now)
  {
    if i > 0 {
      DrainProgress(chain, now, i - 1);
      assert Pass(chain[i - 1], chain[i - 1 + 1], now, now);
      if Overdue(chain[i], now) {
        var k :| k in chain[i] && chain[i][k].expTime < now;
        assert k in chain[i - 1] && chain[i - 1][k].expTime < now;
      }
    }
  }

  /** At a fixed time, after as many passes as there were entries (or more) no
      entry is overdue, and only expired entries have gone. */
  lemma DrainSettles<V>(chain: seq<Contents<V>>, now: int)
    requires Passes(chain, now) && |chain| > |chain[0]|
    ensures !Overdue(chain[|chain| - 1], now)
    ensures Within(chain[|chain| - 1], chain[0])
    ensures forall k :: k in chain[0] && k !in chain[|chain| - 1] ==> Expired(chain[0][k], now)
  {
    var last := |chain| - 1;
    DrainProgress(chain, now, last);
  }

  // ---------- Every map has an earliest entry, a pause and a pass ----------

  lemma {:induction false} EarliestExists<V>(m: Contents<V>) returns (key: string)
    requires m != map[]
    ensures Earliest(m, key)
  {
    key :| key in m;
    var rest := m - {key};
    assert forall x :: x in m && x != key ==> x in rest;
    if rest != map[] {
      var k := EarliestExists(rest);
      if m[k].expTime < m[key].expTime {
        key := k;
      }
    }
  }

  lemma PauseExists<V>(m: Contents<V>, now: int) returns (pause: int)
    ensures PauseFor(m, now, pause)
  {
    if m == map[] {
      pause := IDLE_PAUSE;
    } else {
      var k := EarliestExists(m);
      pause := if m[k].expTime < now then MILLISECOND else m[k].expTime - now;
    }
  }

  lemma {:induction false} RemoveUpTo<V>(m: Contents<V>, now: int, budget: nat) returns (after: Contents<V>)
    ensures Within(after, m) && |m| <= |after| + budget && |after| <= |m|
    ensures forall k :: k in m && k !in after ==> Expired(m[k], now)
    ensures |m| == |after| + budget || forall k :: k in after ==> !Expired(after[k], now)
    decreases budget
  {
    if budget > 0 && exists k :: k in m && Expired(m[k], now) {
      var k :| k in m && Expired(m[k], now);
      after := RemoveUpTo(m - {k}, now, budget - 1);
    } else {
      after := m;
    }
  }

  lemma PassExists<V>(m: Contents<V>, now: int) returns (after: Contents<V>)
    ensures Pass(m, after, now, now)
  {
    NoneOverdue(m, now);
    if m == map[] {
      return m;
    }
    var first := EarliestExists(m);
    if !Expired(m[first], now) {
      return m;
    }
    var rest := m - {first};
    WithoutEarliest(m, first, now);
    var budget := |m| - |m| / 2 - 1;
    if Overdue(rest, now) {
      var kept :| kept in rest && rest[kept].expTime < now;
      var others := RemoveUpTo(rest - {kept}, now, budget);
      UsedUp(m, rest - {kept}, others, now, budget);
      after := others[kept := rest[kept]];
      assert kept in after && after[kept].expTime < now;
      assert |after| == |others| + 1;
    } else {
      after := RemoveUpTo(rest, now, budget);
      UsedUp(m, rest, after, now, budget);
    }
  }

  /** Removal stops early only when there is nothing expired left. */
  lemma UsedUp<V>(m: Contents<V>, rest: Contents<V>, after: Contents<V>, now: int, budget: nat)
    requires AllExpired(m, now) ==> AllExpired(rest, now)
    requires Within(after, rest)
    requires |rest| == |after| + budget || forall k :: k in after ==> !Expired(after[k], now)
    ensures AllExpired(m, now) ==> |rest| == |after| + budget || after == map[]
  {
    if AllExpired(m, now) && after != map[] {
      var k :| k in after;
      assert Expired(after[k], now);
    }
  }
}
