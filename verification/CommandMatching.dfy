/** Runs of requests, responses and cleaning passes over the cache of pending
    correlation ids. The steps are what the handlers of module Commands and the
    cleaning pass of module TtlCache promise for an open cache. */
module CommandMatching {
  import opened Durations
  import opened CacheSpec
  import opened GatewayTopics
  import opened Commands

  datatype Event = Request(headers: Headers, now: int) | Response(headers: Headers, topic: string) | Clean(from: int, to: int)

  ghost predicate Step(m: Contents<bool>, e: Event, n: Contents<bool>) {
    match e
    case Request(h, now) => n == AfterRequest(m, h, now)
    case Response(h, _) => n == AfterResponse(m, h)
    case Clean(from, to) => Pass(m, n, from, to)
  }

  ghost predicate Execution(states: seq<Contents<bool>>, events: seq<Event>) {
    && |states| == |events| + 1
    && states[0] == map[]
    && forall i :: 0 <= i < |events| ==> Step(states[i], events[i], states[i + 1])
  }

  /** A request that is remembered under `id`. */
  predicate Caches(e: Event, id: string) {
    e.Request? && e.headers.correlationId == id && CachedTtl(e.headers).Some?
  }

  predicate Answers(e: Event, id: string) {
    e.Response? && e.headers.correlationId == id
  }

  /** A response that passes the correlation check; all others are dropped. */
  predicate Matched(m: Contents<bool>, e: Event, id: string) {
    Answers(e, id) && id in m
  }

  /** A response that is sent on: a matched one whose topic can be rewritten. */
  predicate Forwarded(s: Settings, m: Contents<bool>, e: Event, id: string) {
    Matched(m, e, id) && ResponseReply(s, e.topic).Forward?
  }

  /** How many of the first `n` events are remembered under `id`. */
  function Requests(events: seq<Event>, n: nat, id: string): nat
    requires n <= |events|
  {
    if n == 0 then 0 else Requests(events, n - 1, id) + if Caches(events[n - 1], id) then 1 else 0
  }

  /** How many of the first `n` events are matched responses with `id`. */
  function Matches(states: seq<Contents<bool>>, events: seq<Event>, n: nat, id: string): nat
    requires n <= |events| <= |states|
  {
    if n == 0 then 0 else Matches(states, events, n - 1, id) + if Matched(states[n - 1], events[n - 1], id) then 1 else 0
  }

  /** How many of the first `n` events are responses with `id` that are sent on. */
  function Forwards(s: Settings, states: seq<Contents<bool>>, events: seq<Event>, n: nat, id: string): nat
    requires n <= |events| <= |states|
  {
    if n == 0 then 0
    else Forwards(s, states, events, n - 1, id) + if Forwarded(s, states[n - 1], events[n - 1], id) then 1 else 0
  }

  lemma {:induction false} ForwardsMatch(s: Settings, states: seq<Contents<bool>>, events: seq<Event>, n: nat, id: string)
    requires n <= |events| <= |states|
    ensures Forwards(s, states, events, n, id) <= Matches(states, events, n, id)
  {
    if n > 0 {
      ForwardsMatch(s, states, events, n - 1, id);
    }
  }

  /** Forwarded responses never outnumber the requests that were remembered. */
  lemma ForwardsBounded(s: Settings, states: seq<Contents<bool>>, events: seq<Event>, n: nat, id: string)
    requires Execution(states, events) && n <= |events|
    ensures Forwards(s, states, events, n, id) <= Requests(events, n, id)
  {
    ForwardsMatch(s, states, events, n, id);
    MatchesBounded(states, events, n, id);
  }

  /** Matched responses never outnumber requests: a pending entry is a request to spare. */
  lemma {:induction false} MatchesBounded(states: seq<Contents<bool>>, events: seq<Event>, n: nat, id: string)
    requires Execution(states, events) && n <= |events|
    ensures Matches(states, events, n, id) + (if id in states[n] then 1 else 0) <= Requests(events, n, id)
  {
    hide Step, Matched, Caches;
    if n > 0 {
      MatchesBounded(states, events, n - 1, id);
      MatchUsesEntry(states[n - 1], events[n - 1], states[n - 1 + 1], id);
    }
  }

  /** A match takes an entry out, and only a request puts one in. */
  lemma MatchUsesEntry(m: Contents<bool>, e: Event, n: Contents<bool>, id: string)
    requires Step(m, e, n)
    ensures (if Matched(m, e, id) then 1 else 0) + (if id in n then 1 else 0) <= (if id in m then 1 else 0) + (if Caches(e, id) then 1 else 0)
  {
  }

  /** The `r`th event is the last to be remembered under `id` before the `n`th,
      and nothing has answered it in between. */
  ghost predicate Pending(events: seq<Event>, r: nat, n: nat, id: string)
    requires n <= |events|
  {
    && r < n
    && Caches(events[r], id)
    && forall k :: r < k < n ==> !Caches(events[k], id) && !Answers(events[k], id)
  }

  /** The entry that the `r`th event makes. */
  function Remembered(e: Event): Entry<bool>
    requires e.Request? && CachedTtl(e.headers).Some?
  {
    var ttl := CachedTtl(e.headers).value;
    Entry(true, ttl, e.now + ttl)
  }

  /** Whatever is in the cache belongs to a pending request. */
  lemma {:induction false} EntryHasRequest(states: seq<Contents<bool>>, events: seq<Event>, n: nat, id: string) returns (r: nat)
    requires Execution(states, events) && n <= |events| && id in states[n]
    ensures Pending(events, r, n, id) && states[n][id] == Remembered(events[r])
  {
    assert Step(states[n - 1], events[n - 1], states[n - 1 + 1]);
    if Caches(events[n - 1], id) {
      r := n - 1;
    } else {
      assert id in states[n - 1];
      r := EntryHasRequest(states, events, n - 1, id);
    }
  }

  /** Between two matched responses with the same id, whether they are sent on or
      not, that id was requested anew. */
  lemma RequestBetweenMatches(states: seq<Contents<bool>>, events: seq<Event>, i: nat, j: nat, id: string)
    requires Execution(states, events) && i < j < |events|
    requires Matched(states[i], events[i], id) && Matched(states[j], events[j], id)
    ensures exists r :: i < r < j && Caches(events[r], id)
  {
    var r := EntryHasRequest(states, events, j, id);
    assert r > i;
  }

  /** No pass that reads the clock up to `deadline` at most. */
  predicate CleanedBefore(e: Event, deadline: int) {
    e.Clean? ==> e.to <= deadline
  }

  /** A pending request stays in the cache until its time is over, so that a response
      in time is matched. */
  lemma {:induction false} PendingIsKept(states: seq<Contents<bool>>, events: seq<Event>, r: nat, n: nat, id: string)
    requires Execution(states, events) && n <= |events| && Pending(events, r, n, id)
    requires forall k :: r < k < n ==> CleanedBefore(events[k], Remembered(events[r]).expTime)
    ensures id in states[n] && states[n][id] == Remembered(events[r])
  {
    assert Step(states[n - 1], events[n - 1], states[n - 1 + 1]);
    TtlRange(events[r].headers);
    if r < n - 1 {
      PendingIsKept(states, events, r, n - 1, id);
    }
  }

  /** The empty id is never remembered, so responses without an id are dropped, and
      every entry lives for more than 5 seconds and less than an hour and 5 seconds. */
  lemma EntriesWellFormed(states: seq<Contents<bool>>, events: seq<Event>, n: nat, id: string)
    requires Execution(states, events) && n <= |events| && id in states[n]
    ensures id != "" && 5 * SECOND < states[n][id].ttl < HOUR + 5 * SECOND
  {
    var r := EntryHasRequest(states, events, n, id);
    TtlRange(events[r].headers);
  }
}
