/** The two retry loops of the hub connection: HonoConnect (config/connections.go)
    for the first connection, with StatusCause (routing/service.go), and
    externalReconnect (connector/connection.go) after a loss. What the attempts
    come to is an input; a finite input that no attempt ends leaves the loop trying. */
module Retries {

  datatype Outcome = Connected | BadCredentials | NotAuthorised | IdRejected | BadProtocol | OtherError

  datatype Cause = ConnectionError | NotAuthenticated

  /** A stop signal that arrives while attempt `k` is made, or in the wait that
      follows it (before the attempt, for externalReconnect, whose waits come first). */
  datatype Stop = Never | DuringAttempt(k: nat) | DuringWait(k: nat)

  datatype End = Success | AuthRetriesUsed | Refused | Cancelled | StillTrying

  predicate AuthFailure(o: Outcome) {
    o.BadCredentials? || o.NotAuthorised?
  }

  /** An error that HonoConnect does not retry although it is no authentication failure. */
  predicate Fatal(o: Outcome) {
    o.IdRejected? || o.BadProtocol?
  }

  /** The status to announce for an error, and whether the error may be retried. */
  function StatusCause(o: Outcome): (r: (Cause, bool))
    requires !o.Connected?
    ensures r.1 <==> o == OtherError
    ensures r.0 == NotAuthenticated <==> o == BadCredentials
  {
    match o
    case IdRejected => (ConnectionError, false)
    case BadProtocol => (ConnectionError, false)
    case NotAuthorised => (ConnectionError, false)
    case BadCredentials => (NotAuthenticated, false)
    case OtherError => (ConnectionError, true)
  }

  function AuthFailures(outcomes: seq<Outcome>): nat {
    if outcomes == [] then 0
    else AuthFailures(outcomes[..|outcomes| - 1]) + (if AuthFailure(outcomes[|outcomes| - 1]) then 1 else 0)
  }

  /** Why the retry rules end at attempt `i`, if they do; `fatal` tells whether
      the errors that are Fatal count as a reason. */
  function EndAt(outcomes: seq<Outcome>, limit: int, fatal: bool, i: nat): End
    requires i < |outcomes|
  {
    if outcomes[i].Connected? then Success
    else if fatal && Fatal(outcomes[i]) then Refused
    else if AuthFailure(outcomes[i]) && AuthFailures(outcomes[..i + 1]) == limit then AuthRetriesUsed
    else StillTrying
  }

  /** The loop has made `attempts` attempts and ended for the reason `end`: at the
      first attempt for which there is a reason, and nowhere if there is none. */
  ghost predicate Ends(outcomes: seq<Outcome>, limit: int, fatal: bool, attempts: nat, end: End) {
    && attempts <= |outcomes|
    && (forall i :: 0 <= i < attempts - 1 ==> EndAt(outcomes, limit, fatal, i) == StillTrying)
    && (if attempts == 0 then outcomes == [] && end == StillTrying else end == EndAt(outcomes, limit, fatal, attempts - 1))
    && (end == StillTrying ==> attempts == |outcomes|)
  }

  /** Every attempt that failed was announced once, with its own cause. */
  ghost predicate Announced(outcomes: seq<Outcome>, statuses: seq<Cause>) {
    && |statuses| <= |outcomes|
    && forall i :: 0 <= i < |statuses| ==> !outcomes[i].Connected? && statuses[i] == StatusCause(outcomes[i]).0
  }

  /** The last attempt is the one authentication failure too many. */
  predicate LastAuthRetry(outcomes: seq<Outcome>, limit: int, attempts: nat)
    requires 0 < attempts <= |outcomes|
  {
    var last := outcomes[attempts - 1];
    (last.BadCredentials? || last.NotAuthorised?) && AuthFailures(outcomes[..attempts]) == limit
  }

  /** One more outcome counts if it is bad credentials or a missing authorisation. */
  lemma AuthFailuresNext(outcomes: seq<Outcome>, o: Outcome)
    ensures AuthFailures([]) == 0
    ensures AuthFailures(outcomes + [o]) == AuthFailures(outcomes) + (if o in {BadCredentials, NotAuthorised} then 1 else 0)
  {
    assert (outcomes + [o])[..|outcomes + [o]| - 1] == outcomes;
  }

  /** The stop signal comes before the rules end the loop: they do not before attempt
      `k`, nor, with `own` 1, at attempt `k` itself. */
  ghost predicate Interrupts(outcomes: seq<Outcome>, limit: int, fatal: bool, stop: Stop, own: nat) {
    && stop != Never && stop.k < |outcomes|
    && forall i :: 0 <= i < stop.k + own && i < |outcomes| ==> EndAt(outcomes, limit, fatal, i) == StillTrying
  }

  method HonoConnect(outcomes: seq<Outcome>, limit: int, stop: Stop)
    returns (attempts: nat, end: End, statuses: seq<Cause>)
    ensures attempts <= |outcomes| && Announced(outcomes, statuses)
    ensures end == Cancelled <==> Interrupts(outcomes, limit, true, stop, if stop.DuringAttempt? then 0 else 1)
    ensures end == Cancelled ==> attempts == stop.k + 1
    ensures end != Cancelled ==> Ends(outcomes, limit, true, attempts, end)
    ensures |statuses| == attempts - (if end == Success || (end == Cancelled && stop.DuringAttempt?) then 1 else 0)
    ensures forall i :: 0 <= i < attempts - 1 ==> !outcomes[i].Connected? && !outcomes[i].IdRejected? && !outcomes[i].BadProtocol?
    ensures end == Success <==> end != Cancelled && attempts > 0 && outcomes[attempts - 1].Connected?
    ensures end == Refused <==> end != Cancelled && attempts > 0 && (outcomes[attempts - 1].IdRejected? || outcomes[attempts - 1].BadProtocol?)
    ensures end == AuthRetriesUsed <==> end != Cancelled && attempts > 0 && LastAuthRetry(outcomes, limit, attempts)
    ensures end == StillTrying ==> attempts == |outcomes|
    ensures stop == Never && (forall i :: 0 <= i < |outcomes| ==> outcomes[i] == OtherError) ==> end == StillTrying
  {
    attempts, statuses := 0, [];
    var authErrRetries := 0;
    while attempts < |outcomes|
      invariant 0 <= attempts <= |outcomes| && |statuses| == attempts && Announced(outcomes, statuses)
      invariant authErrRetries == AuthFailures(outcomes[..attempts])
      invariant forall i :: 0 <= i < attempts ==> EndAt(outcomes, limit, true, i) == StillTrying
      invariant forall i :: 0 <= i < attempts ==> !outcomes[i].Connected? && !outcomes[i].IdRejected? && !outcomes[i].BadProtocol?
      invariant stop != Never ==> attempts <= stop.k
    {
      var o := outcomes[attempts];
      assert outcomes[..attempts + 1][..attempts] == outcomes[..attempts];
      attempts := attempts + 1;
      ghost var reason := EndAt(outcomes, limit, true, attempts - 1);
      if stop == DuringAttempt(attempts - 1) {
        return attempts, Cancelled, statuses;
      }
      if o.Connected? {
        return attempts, Success, statuses;
      }
      var (cause, retry) := StatusCause(o);
      statuses := statuses + [cause];
      if !retry {
        if AuthFailure(o) {
          authErrRetries := authErrRetries + 1;
          if authErrRetries == limit {
            return attempts, AuthRetriesUsed, statuses;
          }
        } else {
          return attempts, Refused, statuses;
        }
      }
      if stop == DuringWait(attempts - 1) {
        return attempts, Cancelled, statuses;
      }
    }
    end := StillTrying;
  }

  /** `fired` counts the connection events that announce authentication failures. */
  method ExternalReconnect(outcomes: seq<Outcome>, limit: int, stop: Stop) returns (attempts: nat, end: End, fired: nat)
    ensures attempts <= |outcomes|
    ensures fired == AuthFailures(outcomes[..attempts])
    ensures end == Cancelled <==> Interrupts(outcomes, limit, false, stop, if stop.DuringAttempt? then 1 else 0)
    ensures end == Cancelled ==> attempts == if stop.DuringWait? then stop.k else stop.k + 1
    ensures end != Cancelled ==> Ends(outcomes, limit, false, attempts, end)
    ensures forall i :: 0 <= i < attempts - 1 ==> !outcomes[i].Connected?
    ensures end == Success <==> end != Cancelled && attempts > 0 && outcomes[attempts - 1].Connected?
    ensures end == AuthRetriesUsed <==> end != Cancelled && attempts > 0 && LastAuthRetry(outcomes, limit, attempts)
    ensures end != Refused && (end == StillTrying ==> attempts == |outcomes|)
    ensures stop == Never && (forall i :: 0 <= i < |outcomes| ==> outcomes[i] == OtherError) ==> end == StillTrying
  {
    attempts, fired := 0, 0;
    var authErrRetries := 0;
    while attempts < |outcomes|
      invariant 0 <= attempts <= |outcomes| && fired == authErrRetries == AuthFailures(outcomes[..attempts])
      invariant forall i :: 0 <= i < attempts ==> EndAt(outcomes, limit, false, i) == StillTrying
      invariant forall i :: 0 <= i < attempts ==> !outcomes[i].Connected?
      invariant stop != Never ==> attempts <= stop.k
    {
      if stop == DuringWait(attempts) {
        return attempts, Cancelled, fired;
      }
      var o := outcomes[attempts];
      assert outcomes[..attempts + 1][..attempts] == outcomes[..attempts];
      attempts := attempts + 1;
      ghost var reason := EndAt(outcomes, limit, false, attempts - 1);
      if o.Connected? {
        return attempts, Success, fired;
      }
      if AuthFailure(o) {
        authErrRetries := authErrRetries + 1;
        fired := fired + 1;
        if authErrRetries == limit {
          return attempts, AuthRetriesUsed, fired;
        }
      }
      if stop == DuringAttempt(attempts - 1) {
        return attempts, Cancelled, fired;
      }
    }
    end := StillTrying;
  }

  /** The rules leave no choice: attempts and reason are determined. */
  lemma EndIsUnique(outcomes: seq<Outcome>, limit: int, fatal: bool, a: nat, e: End, b: nat, f: End)
    requires Ends(outcomes, limit, fatal, a, e) && Ends(outcomes, limit, fatal, b, f)
    ensures a == b && e == f
  {
    assert a > 0 ==> EndAt(outcomes, limit, fatal, a - 1) == e;
    assert b > 0 ==> EndAt(outcomes, limit, fatal, b - 1) == f;
  }

  /** Without a stop signal both loops make the same attempts and stop for the
      same reason exactly when none of the attempts that externalReconnect makes
      ends in an error that HonoConnect refuses to retry. */
  lemma SameRetries(outcomes: seq<Outcome>, limit: int, a: nat, e: End, b: nat, f: End)
    requires Ends(outcomes, limit, true, a, e) && Ends(outcomes, limit, false, b, f)
    ensures a == b && e == f <==> forall i :: 0 <= i < b ==> !Fatal(outcomes[i])
  {
    forall i | 0 <= i < |outcomes| && !Fatal(outcomes[i])
      ensures EndAt(outcomes, limit, true, i) == EndAt(outcomes, limit, false, i)
    {
    }
    if forall i :: 0 <= i < b ==> !Fatal(outcomes[i]) {
      assert Ends(outcomes, limit, true, b, f);
      EndIsUnique(outcomes, limit, true, a, e, b, f);
    } else {
      var i :| 0 <= i < b && Fatal(outcomes[i]);
      assert EndAt(outcomes, limit, true, i) == Refused;
      assert e == f ==> e != Refused;
    }
  }

  /** They differ when the hub refuses the id and then accepts it: only
      externalReconnect makes the second attempt. */
  lemma RetriesDiffer(limit: int)
    ensures Ends([IdRejected, Connected], limit, true, 1, Refused)
    ensures Ends([IdRejected, Connected], limit, false, 2, Success)
  {
  }

  /** On successes, authentication failures and retryable errors alone the loops agree. */
  lemma SameRetriesWithoutFatal(outcomes: seq<Outcome>, limit: int, a: nat, e: End, b: nat, f: End)
    requires forall i :: 0 <= i < |outcomes| ==> !Fatal(outcomes[i])
    requires Ends(outcomes, limit, true, a, e) && Ends(outcomes, limit, false, b, f)
    ensures a == b && e == f
  {
    SameRetries(outcomes, limit, a, e, b, f);
  }

  /** A loop that ends on authentication has made exactly `limit` attempts that
      failed to authenticate, the last one among them; other errors do not count. */
  lemma AuthLimit(outcomes: seq<Outcome>, limit: int, fatal: bool, attempts: nat, end: End)
    requires Ends(outcomes, limit, fatal, attempts, end) && limit >= 1
    ensures end == AuthRetriesUsed ==> attempts > 0 && AuthFailure(outcomes[attempts - 1]) && AuthFailures(outcomes[..attempts]) == limit
    ensures end != AuthRetriesUsed ==> AuthFailures(outcomes[..attempts]) < limit
  {
    if end != AuthRetriesUsed {
      BelowLimit(outcomes, limit, fatal, attempts);
    }
  }

  lemma {:induction false} BelowLimit(outcomes: seq<Outcome>, limit: int, fatal: bool, n: nat)
    requires n <= |outcomes| && limit >= 1
    requires forall i :: 0 <= i < n ==> EndAt(outcomes, limit, fatal, i) != AuthRetriesUsed
    ensures AuthFailures(outcomes[..n]) < limit
  {
    if n > 0 {
      BelowLimit(outcomes, limit, fatal, n - 1);
      assert outcomes[..n][..n - 1] == outcomes[..n - 1];
      assert EndAt(outcomes, limit, fatal, n - 1) != AuthRetriesUsed;
      assert outcomes[..n - 1 + 1] == outcomes[..n];
    }
  }
}
