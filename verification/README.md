# Suite connector: verified model

This project models the stateful core of the suite connector (a gateway component
that connects local MQTT clients to a cloud hub) in Dafny and proves properties of
the model. `dafny verify dfyconfig.toml` checks all of it.

| file | what it models |
|---|---|
| `Heap.dfy`, `CacheSpec.dfy`, `TtlCache.dfy` | the time-to-live cache: an indexed heap and a key map over the same elements, refining a plain map |
| `Machines.dfy` | executions of a step machine, and the induction over them |
| `Cleaner.dfy` | the exchange between the cache's callers and its cleaner goroutine |
| `Shutdown.dfy`, `Cancellation.dfy` | message handlers, loop goroutines and `Close` of a subscriber; cancelling a subscription without `Close` |
| `Counting.dfy`, `Subscriptions.dfy`, `Connection.dfy`, `Forwarding.dfy` | client subscriptions, their reference counts, and the topic map of the hub connection |
| `ForwardRace.dfy` | the hand-over to a new connection while subscriptions come and go |
| `Reconnect.dfy`, `Records.dfy`, `Withdrawals.dfy`, `Retries.dfy` | life cycle of a connection: reconnect against disconnect, re-subscribe against unsubscribe, bounded retries |
| `TopicStrings.dfy`, `Util.dfy`, `GatewayTopics.dfy`, `Events.dfy` | topic parsing and rewriting, command timeouts |
| `Commands.dfy`, `CommandMatching.dfy` | command requests and responses, and their matching over runs |

How the code is rendered:

- Code that changes objects in place is a class whose methods are proved against
  functions on values. A Go slice or list is a `seq` field, a map a `map` field;
  elements of the cache are objects that carry their own position.
- Goroutines are step machines: a state, a relation `Next` with one step for each
  access to shared data, and theorems about every state of every `Execution`, for
  any number of threads of each kind and any interleaving. The wait groups,
  mutexes and channels are part of the state.
- `Up`, `Down`, `HeapPush`, `HeapRemove` and `HeapFix` follow Go's `container/heap`;
  `RemoveAllSubscriptions` follows `container/list`, whose `Remove` clears the
  successor of the removed element.
- A Go string is a sequence of one character per byte. An `int64` product wraps
  where the code multiplies (`Wrap64`).
- An error return is a value (`Failed`, `None`), and so is a panic (`Panic`, or `None`
  as the doc comment of the function says).
- Clock readings, the results of the MQTT client, whether its connection is open, the
  stop signals, the decoded headers of a message and the parsed log messages are
  parameters or are left open. Durations are in nanoseconds.

Where the code and its own words disagree, the model follows the code:

- `routing/subscription.go:185` says that all subscriptions of a client that has gone
  are removed. The loop at lines 324-330 stops after its first removal, because the
  removed element has lost its successor. `DisconnectRemovesOne` says exactly when this
  leaves nothing behind, `DisconnectLeavesTopic` is a run in which a topic stays
  forwarded. Counts and forwarded topics agree with the list all the same.
- `cache/cache.go:229` moves the position on after a removal has moved the queue. A pass
  leaves an overdue entry behind exactly when two or more were overdue (`Pass`, kept by
  `ClearExpired`; `PassLeavesOverdue` is a cache of two entries).
- A timeout that is too long is meant to become a minute, but the product wraps before
  it is compared. `TimeoutUnits` says for every text that holds a number, signed or
  not, and for every unit exactly when the result is the intended one, `TimeoutWraps` has
  texts for which it is not. The timeout `s`
  alone panics (`TimeoutRange`).
- `NormalizeTopic` is idempotent on well-formed filters, not on all strings
  (`NormalizeNotIdempotent`); `NormalizeIdempotent` has the exact condition.
- `routing/utils.go:50` takes an id for `gatewayID:ID` once it starts with the gateway's
  id. A message of another gateway whose id continues this one's is sent on as this
  gateway's (`ForeignEvent`, `ForeignResponse`); `StripExact`, `GenericEvent` and
  `ResponseDevice` say exactly which ids are accepted and which of them compose back.
- `HonoConnect` gives up on two errors that `externalReconnect` retries; `SameRetries`
  says exactly when the two loops agree, `RetriesDiffer` is a case in which they do not.
- Cancelling the context of a subscription need not end it: `CancelSuffices` says exactly
  when every run of it ends without outside help, `CancelIsNotEnough` is a run into the
  stuck state.
- A topic can stay subscribed with no count after a hand-over: `ForwardedExactly` says
  which topics do, `StaleForward` is a run with one.
- The call that `subscribe` makes after storing its record can follow the record's
  unsubscribe call. It cannot if `unsubscribe` is only called for what `subscribe` has
  returned (`PromptIsOrdered`), and it can exactly if that `subscribe` has not made its
  call when the record is taken out (`FirstCanFollow`; `EarlyWithdraw` is a run).
- A second `subscribe` under an id in use drops the first record without disposing it, so
  that it is never unsubscribed and can be subscribed again (`WithdrawnUnlessDropped`,
  `FreshIdsDropNothing`; `DroppedComesBack` is a run).

## Model

| member | source | states |
|---|---|---|
| Heap.PriorityQueue.Swap | cache/cache.go:272-276 | exchanges two positions and keeps every element's index equal to its position |
| Heap.PriorityQueue.Up | cache/cache.go:295-297 | sifting up restores heap order from a heap that is broken at one position only, moving no element in or out |
| Heap.PriorityQueue.Down | cache/cache.go:299-305 | sifting down restores heap order, or reports that nothing moved and the position is not above its children |
| Heap.PriorityQueue.HeapPush | cache/cache.go:278-297 | pushing keeps heap order and indexes and adds exactly the one element |
| Heap.PriorityQueue.Pop | cache/cache.go:285-293 | takes off the last element, marks it as unqueued, and keeps a heap |
| Heap.PriorityQueue.HeapRemove | cache/cache.go:299-301 | removes exactly the given element, wherever it stands, and keeps heap order and indexes |
| Heap.PriorityQueue.HeapFix | cache/cache.go:303-305 | makes a heap again after the expiry of one element has changed, in either direction |
| Heap.UpStep | cache/cache.go:268-276 | one exchange with the parent moves the only breach of heap order to the parent |
| Heap.DownStep | cache/cache.go:268-276 | one exchange with the smaller child moves the only breach of heap order to that child |
| Heap.RootIsLeast | cache/cache.go:261-270 | in heap order the root has a least expiry time |
| TtlCache.Cache.Size | cache/cache.go:42-51 | the number of entries, or -1 once closed |
| TtlCache.Cache.First | cache/cache.go:54-63 | the value of an entry with an earliest expiry; nothing when empty or closed |
| TtlCache.Cache.Get | cache/cache.go:66-79 | the entry's value if the key is present, expired or not, and the cache open |
| TtlCache.Cache.Put | cache/cache.go:82-115 | stores value, ttl and expiry under its key and changes no other; false once closed; panics exactly on a negative ttl |
| TtlCache.Cache.Update0 | cache/cache.go:157-162 | replaces the entry of an element that is queued already, keeping map, queue, indexes and heap order together |
| TtlCache.Cache.Add0 | cache/cache.go:164-167 | adds an element under a new key to map and queue alike |
| TtlCache.Cache.Remove0 | cache/cache.go:169-172 | takes an element out of map and queue alike |
| TtlCache.Cache.Remove | cache/cache.go:118-135 | removes the key only, expired or not, and tells whether it was there; nothing once closed |
| TtlCache.Cache.Close | cache/cache.go:138-155 | closes for good, changes no entry, and closes the control channel on the first call only |
| TtlCache.Cache.PauseTime | cache/cache.go:201-217 | the time to the earliest expiry, 1 000 000 ns if that is past, 600 s if there is no entry |
| TtlCache.Cache.ClearExpired | cache/cache.go:225-236 | one pass, with its clock readings: the i-th test finds the element at position i of the queue expired and takes out just that one, and the pass stops only behind the queue or at a live element; so only expired entries go, the rest is unchanged, at least one goes if the earliest is overdue, something overdue stays exactly if two or more were, at most half rounded up go, and just that many if all are expired |
| CacheSpec.PassLeavesOverdue | cache/cache.go:229-235 | of two overdue entries every pass leaves one |
| CacheSpec.DrainRounds | cache/cache.go:225-253 | when all n entries are expired, i passes empty the cache exactly when n < 2^i |
| CacheSpec.DrainSettles | cache/cache.go:225-253 | at a fixed time, after at least as many passes as there were entries nothing is overdue, and only expired entries have gone |
| Cleaner.Preserved | cache/cache.go:174-223 | every step of callers, cleaner and time keeps the wake-up invariant |
| Cleaner.NoLostWakeUp | cache/cache.go:174-223 | whenever the cleaner waits, its timer is in time for the earliest entry, or a wake-up is in the channel or about to be sent |
| Cleaner.OverdueIsNoticed | cache/cache.go:174-223 | in every state with an overdue entry a step of the cleaner or of a sender is possible |
| Cleaner.PassComes | cache/cache.go:174-236 | while callers change nothing, senders and cleaner take at most a fixed number of steps before a pass and are not stuck while an entry is overdue; that pass removes something |
| Cleaner.SendersAreServed | cache/cache.go:219-223 | in every state with a wake-up to send it can be sent or the cleaner can move |
| Cleaner.SendOrPassComes | cache/cache.go:174-223 | the same bound and freedom for a caller that has its wake-up to send |
| Shutdown.Preserved | connector/subscriber.go:284-378 | every step of handlers, loops, subscribers and closer keeps the lock, flag, channel and wait group consistent |
| Shutdown.NoSendAfterClose | connector/subscriber.go:284-378 | no handler sends on `out` after it is closed, and `out` is closed at most once, by its own loop |
| Shutdown.MutualExclusion | connector/subscriber.go:284-373 | at most one handler or loop of a subscription is inside its lock |
| Shutdown.CloseWaitsForLoops | connector/wrapper.go:69-85 | `Close` returns only after every loop that was registered before its wait has closed its `out` |
| Shutdown.ShutdownMoves | connector/subscriber.go:311-374 | once `closing` is closed, a state with anything unfinished has a step that waits for no reader and no acknowledgement |
| Shutdown.MeasureDrops | connector/subscriber.go:311-374 | every step but new arrivals brings a measure over all positions down |
| Shutdown.ShutdownEnds | connector/wrapper.go:69-85 | so shutdown ends within that many steps in any interleaving, and only with all handlers and loops gone and `Close` returned |
| Cancellation.CancelSuffices | connector/subscriber.go:284-373 | before `Close`, a cancelled subscription ends in every run that it makes on its own (nothing read, acknowledged or arriving; the acknowledgement timeout and sends into free places of `out` are its own) exactly when the handlers that may still send do not outnumber the free places; its own runs are bounded |
| Cancellation.WithoutBuffer | connector/subscriber.go:95-102 | without a buffer that means: no handler is about to send, and none may still come to that because the flag is set or nobody has arrived |
| Cancellation.StuckStays | connector/subscriber.go:311-373 | a loop that waits for the lock of a handler that waits for a reader has no step of its own left |
| Cancellation.CancelIsNotEnough | connector/subscriber.go:311-320 | a run in which cancelling the context alone leaves a subscription without a buffer stuck |
| Counting.CountsAreExact | routing/subscription.go:271-340 | after every run the count of a topic is the number of list items with that normalised topic, absent exactly when zero |
| Counting.ForwardedIsExact | connector/subscription_manager.go:66-112 | after every run the current connection carries exactly the topics that are needed and the command bus's own, and the two never coincide |
| Counting.BusStays | routing/subscription.go:267-277 | no log message unsubscribes the command bus |
| Counting.ApplyKeeps | routing/subscription.go:151-193 | every event keeps counts, normal forms and forwarded topics in agreement |
| Counting.CountedIsNotBus | routing/commands.go:34 | the filter keeps the command bus's topic out of the list |
| Counting.DisconnectRemovesOne | routing/subscription.go:321-340 | a disconnection removes one subscription of the client, so all are gone exactly when it had at most one |
| Counting.DisconnectLeavesTopic | routing/subscription.go:324-330 | a run on texts as the broker logs them in which the topic of a client that has gone stays forwarded |
| Subscriptions.SubscriptionListed | routing/subscription.go:271-295 | a subscription is listed once more for its client and text, unless the normal form has `/+/`; every other client and text keeps its number |
| Subscriptions.UnsubscriptionListed | routing/subscription.go:297-319 | an unsubscription takes one listed subscription of that client with that text, if there is one, and no other |
| Subscriptions.DisconnectionListed | routing/subscription.go:321-340 | a client that goes loses its first listed text once, and nobody else loses anything |
| Subscriptions.SubscribeUnsubscribe | routing/subscription.go:271-319 | subscribing and then unsubscribing a topic that nobody else needs leaves list, counts and forwarded topics as they were, after one subscription and one unsubscription of just that topic at the client |
| Subscriptions.ClientFollows | connector/subscription_manager.go:42-112 | after every run on an open connection the client's last call for a topic is a subscription exactly when some listed subscription needs the topic |
| Forwarding.SubscriptionManager.Add | connector/subscription_manager.go:42-51 | counts up and, for a topic that was not counted, stores it on the current connection and, if that is open, asks the client for just that topic with quality of service 0 |
| Forwarding.SubscriptionManager.Remove | connector/subscription_manager.go:66-75 | counts down and, for the last count, takes it off the current connection and asks the client to unsubscribe it, or, if the connection is not open, routes it to the default handler |
| Forwarding.SubscriptionManager.CopyTopics | connector/subscription_manager.go:114-128 | every counted topic once, clearing the counts on request |
| Forwarding.SubscriptionManager.ForwardTo | connector/subscription_manager.go:104-112 | makes the connection the current one, adds exactly the counted topics to it, and asks its client for each of them once, in some order |
| Forwarding.LogHandler.ProcessLogs | routing/subscription.go:151-193 | list, counts and connection change as the function `Process` says |
| Forwarding.LogHandler.AddSubscription | routing/subscription.go:271-295 | appends an item with the normalised topic and counts it, unless it is filtered |
| Forwarding.LogHandler.RemoveSubscription | routing/subscription.go:297-319 | removes the client's first item with that very text and counts it down |
| Forwarding.LogHandler.RemoveAllSubscriptions | routing/subscription.go:321-340 | removes the client's first item only, as the list's iteration does |
| Connection.MqttConnection.Subscribe | connector/connection.go:439-469 | stores a new live record under its id, keeps all others, and makes exactly the client calls due |
| Connection.MqttConnection.Unsubscribe | connector/connection.go:471-498 | takes the record out, disposes it, and unsubscribes or re-routes its topics |
| Connection.MqttConnection.OnConnected | connector/connection.go:352-371 | subscribes every stored record again with its topics and quality of service |
| ForwardRace.Preserved | connector/subscription_manager.go:42-112 | every step keeps each counted topic registered on the current connection, or on its way there |
| ForwardRace.NoLostForward | connector/subscription_manager.go:104-112 | whenever handler and launcher are between calls, each counted topic is in the topic map of the current connection, and the last client call for it was to subscribe |
| ForwardRace.ForwardedExactly | connector/subscription_manager.go:42-128 | whenever both threads are between calls and each hand-over was to an empty connection, the topic map of the current connection has exactly the counted topics and those whose removal overtook the hand-over, and the same holds of what its client has last subscribed; so the counted ones alone exactly if none did |
| ForwardRace.StaleForward | connector/subscription_manager.go:66-112 | a run with an overtaken topic: it is uncounted, and still stored and subscribed |
| Reconnect.Preserved | connector/connection.go:194-242 | every step keeps wait group, flags and positions consistent |
| Reconnect.NoReconnectAfterDisconnect | connector/connection.go:235-242 | past the wait of `Disconnect` and before a `Connect` no loop is about to connect, however late it joined |
| Reconnect.QuietAfterDisconnect | connector/connection.go:500-540 | so no step after that wait calls the client's connect until `Connect` is called |
| Reconnect.OneLoopAtATime | connector/connection.go:404-421 | at most one reconnect loop runs at a time |
| Reconnect.LossIsFollowed | connector/connection.go:404-540 | from every state with `running` set and no loop active, the callback that announced a loss can reach the client's connect |
| Reconnect.FailureIsFollowed | connector/connection.go:512-558 | and again after an attempt that failed |
| Reconnect.MeasureDrops | connector/connection.go:500-559 | while `running` is cleared every step but an arrival brings a measure over all positions down |
| Reconnect.DisconnectReturns | connector/connection.go:235-242 | once `running` is cleared and nothing new arrives, a run ends within a bounded number of steps in any interleaving, and only with all callbacks over and every `Disconnect` past its wait |
| Records.Preserved | connector/connection.go:352-498 | every step keeps owners, locks and flags of the records consistent |
| Records.NoSubscribeAfterWithdraw | connector/connection.go:352-371 | no re-subscription of a record follows its unsubscribe or re-route call |
| Records.DisposedOnce | connector/connection.go:471-498 | each record is disposed at most once |
| Withdrawals.VisitedIsSubscribed | connector/connection.go:352-371 | an onConnected callback leaves no live record that it was given without subscribing it again |
| Withdrawals.PromptIsOrdered | connector/connection.go:439-498 | if each unsubscribe takes out only what a returned `subscribe` has stored, no call of a `subscribe` follows the record's unsubscribe call |
| Withdrawals.FirstCanFollow | connector/connection.go:439-498 | once an unsubscribe has taken out a record, some continuation makes the call of the record's own `subscribe` after the unsubscribe call exactly if that `subscribe` has not made its call yet |
| Withdrawals.EarlyWithdraw | connector/connection.go:445-498 | a run in which that happens |
| Withdrawals.WithdrawnUnlessDropped | connector/connection.go:445-498 | once no unsubscribe is under way, a record that is in the map no more has been withdrawn for good exactly if no store under its id dropped it |
| Withdrawals.FreshIdsDropNothing | connector/connection.go:440-449 | stores under ids that are not in use drop nothing |
| Withdrawals.DroppedComesBack | connector/connection.go:352-371 | a run in which a dropped record is subscribed again after the unsubscribe call for its id |
| Retries.StatusCause | routing/service.go:227-245 | retryable exactly if neither an authentication failure nor a refused id or protocol; "not authenticated" exactly for bad credentials |
| Retries.HonoConnect | config/connections.go:409-476 | ends as a success exactly at the first success, as refused exactly at the first refused id or protocol, for its authentication failures exactly at the last one allowed, and never for another error; one status for each failed attempt, in order; cancelled exactly if the stop signal comes first |
| Retries.ExternalReconnect | connector/connection.go:500-559 | ends as a success exactly at the first success, for its authentication failures exactly at the last one allowed, and never for another error; announces each authentication failure; cancelled exactly if `running` is cleared first |
| Retries.EndIsUnique | config/connections.go:429-475 | attempts and reason are determined by the outcomes |
| Retries.SameRetries | connector/connection.go:512-558 | both loops make the same attempts and stop for the same reason exactly when no attempt is refused for its id or protocol |
| Retries.RetriesDiffer | connector/connection.go:544-558 | outcomes on which the loops differ: a refused id, then a success |
| Retries.SameRetriesWithoutFatal | connector/connection.go:512-558 | so they agree on successes, authentication failures and retryable errors |
| Retries.AuthLimit | config/connections.go:429-450 | a loop that gives up on authentication has made exactly the allowed number of such failures, any other fewer |
| Retries.AuthFailuresNext | config/connections.go:439-446 | bad credentials and a missing authorisation are what is counted |
| TopicStrings.SplitJoin | routing/utils.go:23-40 | splitting undoes joining of slash-free segments |
| TopicStrings.JoinSplit | routing/utils.go:23-40 | joining undoes splitting |
| TopicStrings.SplitConcat | routing/events.go:58 | splitting a text at one of its slashes first makes no difference |
| Util.NormalizeIdempotent | util/utils.go:26-35 | a second normalisation changes nothing exactly if the short ending, when a suffix, stands nowhere else |
| Util.NormalizeIdempotentOnFilters | util/utils.go:26-35 | so normalising is idempotent on filters with `#` at the end only |
| Util.NormalizeNotIdempotent | util/utils.go:26-35 | on `c//x/q/#/q/#`, which the log expression admits, it is not |
| Util.CommandFilterNormal | util/utils.go:26-35 | every short or long spelling of a command filter has the long form as its normal form |
| Util.CommandFilterTexts | util/utils.go:26-35 | the four spellings, as texts, have the same normal form |
| Util.CommandFiltersAgree | routing/subscription.go:271-290 | two command filters normalise alike exactly when they name the same device |
| Util.ParseCommand | util/utils.go:38-62 | a well-formed command topic is read back in its kind, device and suffix |
| Util.ParseTexts | util/utils.go:38-62 | the four forms of command topics, as texts, are read back in kind, device and suffix |
| Util.ParseAfterParts | util/utils.go:38-62 | conversely the parts that are read make up the topic |
| Util.ResponseAnswersRequest | util/utils.go:66-71 | the status topic goes to the device and the request that asked |
| Util.TimeoutRange | util/utils.go:108-144 | panics exactly on `s`; every other timeout is at least zero and below an hour |
| Util.TimeoutUnits | util/utils.go:108-144 | whatever number a text holds, signed or not, with its unit it is read as that many units, or a minute if that is no time below an hour, exactly when its product modulo 2^64 is out of range, a minute, or did not wrap |
| Util.TimeoutNanoseconds | util/utils.go:108-144 | a number of minutes, seconds or milliseconds below an hour is that many nanoseconds |
| Util.TimeoutDefault | util/utils.go:108-144 | a timeout that is missing or holds no number counts as a minute |
| Util.TimeoutWraps | util/utils.go:108-144 | timeouts far out of range, above and below, that are read as some 26 and 33 seconds |
| Util.NumberDecimal | util/utils.go:108-140 | decimal notation is read back, with a sign and without |
| GatewayTopics.FixCommand | routing/utils.go:22-47 | the loop builds the local form of a hub topic, or reports too few segments |
| GatewayTopics.StripUndoes | routing/utils.go:50-61 | stripping undoes composing a device id and fails exactly on ids that lack the gateway's |
| GatewayTopics.StripExact | routing/utils.go:50-61 | stripping accepts exactly the ids that start with the gateway's, and what is left composes back exactly when a colon follows there |
| GatewayTopics.RequestRoundTrip | routing/utils.go:22-47 | a hub request becomes a local topic that is read back as request, composed device id and suffix |
| GatewayTopics.RequestWithoutDevice | routing/utils.go:32-37 | a hub request without a device becomes the local topic without one |
| Commands.CmdRequestHandler.HandleRequest | routing/commands.go:67-109 | remembers the request and sends it on under the long and the short topic, with every error and panic case |
| Commands.CmdResponseHandler.HandleResponse | routing/commands.go:166-216 | forgets the id and sends the response on if the id was pending, else drops it, with every error and panic case |
| Commands.TtlRange | routing/commands.go:74-80 | a remembered request has an id and lives more than 5 s and less than 3605 s, so `Put` never panics |
| Commands.RequestRemembered | routing/commands.go:74-80 | what a request leaves in the cache for each form of timeout, in nanoseconds: an entry that lives 5 s longer than the timeout, nothing for a zero timeout |
| Commands.RequestDelivered | routing/commands.go:82-102 | a generic request reaches the composed device id on both topics |
| Commands.RequestToGateway | routing/commands.go:82-102 | without a device the request goes to the two topics without one |
| Commands.RequestPlain | routing/commands.go:82-102 | outside generic mode a request keeps its topic and goes out on the short one too; in generic mode a topic with fewer than five segments is refused |
| Commands.ResponseReturns | routing/commands.go:175-207 | the device's answer, long or short, goes to the hub under exactly the device that was asked |
| Commands.ResponseSegments | routing/commands.go:175-207 | the segments of that answer's topic: the prefix's, command, tenant, gateway, device, res, then the suffix's |
| Commands.ResponseDevice | routing/commands.go:175-207 | in generic mode a response goes out exactly when its device id starts with the gateway's, under a device that composes back exactly when a colon follows there |
| Commands.ForeignResponse | routing/commands.go:175-207 | the response of gateway gw10's device x goes out as one of gateway gw1 |
| Commands.ResponseNormalised | routing/commands.go:175-207 | outside generic mode both forms of an answer go out in the long form |
| CommandMatching.ForwardsBounded | routing/commands.go:174-212 | over every run, forwarded responses with an id never outnumber the requests that cached it |
| CommandMatching.MatchesBounded | routing/commands.go:74-80 | the same for all matched responses, with room for one more while an entry is pending |
| CommandMatching.EntryHasRequest | routing/commands.go:74-80 | every cached entry is the one that a request made, with no answer since |
| CommandMatching.RequestBetweenMatches | routing/commands.go:174-212 | between two matched (so between two forwarded) responses with an id there is a request that cached it anew |
| CommandMatching.PendingIsKept | routing/commands.go:174-212 | an unanswered request stays cached until its time is over, so a timely response is matched |
| CommandMatching.EntriesWellFormed | routing/commands.go:74-80 | the empty id is never cached, and every cached ttl lies between 5 s and 3605 s |
| Events.HandleEvent | routing/events.go:52-109 | the loop builds the function `EventTopic`, with both error cases |
| Events.EventSegments | routing/events.go:52-107 | type, tenant and device are filled in, and everything after the third segment is kept in order |
| Events.EventIdempotent | routing/events.go:52-107 | outside generic mode the rewriting applied twice is the rewriting applied once |
| Events.FirstSegment | routing/events.go:52-62 | topics that differ only in a first segment of the same type go out alike |
| Events.ShortNames | routing/events.go:52-62 | so short and long names go out alike |
| Events.GenericEvent | routing/events.go:52-107 | in generic mode any message goes out exactly when its device id, filled in if missing, starts with the gateway's, under a device that composes back exactly when a colon follows there |
| Events.GenericEventSegments | routing/events.go:52-107 | the segments of a message's topic in generic mode: the prefix's, type, tenant, gateway, what the device id has left, then everything after the third, in order |
| Events.GenericTopicsDiffer | routing/events.go:75-107 | hub topics of one type and tenant with the same further segments tell the gateway's own devices apart |
| Events.GenericEventsCollide | routing/events.go:52-107 | accepted messages of one type and tenant with the same further segments go out under one topic exactly when their ids leave the same device, whatever stands where the colon should |
| Events.ForeignEvent | routing/events.go:75-107 | the event of gateway gw10's device x goes out as one of gateway gw1 |

## Left out

- Cleaner.PassComes: says that the cleaner is never stuck and is done within so many steps, not that the scheduler lets it run; the models have no fairness.
- Counting.ForwardedIsExact: each hand-over is to a connection on which nothing is subscribed yet, as in the launcher; it is about calls made one after the other, `ForwardedExactly` is its counterpart for interleaved ones.
- Reconnect.DisconnectReturns: takes for granted that the client's own connect attempt comes to an end.
- Retries.HonoConnect: the lengths of the waits are not modelled, and the backoff never ends the loop, as its maximum elapsed time is zero.
- Subscriptions.ClientFollows: the command bus's own calls on the connection are not among the recorded ones, and the connection stays open; `Add` and `Remove` say what is asked when it is not.
- ForwardRace.ForwardedExactly: what the client has last subscribed is meant for a connection that stays open; on a new session `OnConnected` subscribes what is stored.
- Cancellation.CancelSuffices: no message arrives after the state in question; one that arrives before the flag is set is one more handler that may send.
- `Close` of the cache while a `Put` or `Remove` still has its wake-up to send: the cleaner is modelled up to `Close`.
- `RemoveAll` of the subscription manager, which only its own tests call.
- The regular expressions that read log lines, and the decoding of envelopes: their results are inputs.
- The acknowledgement timeout letting a second log message overtake the first: one handler thread is assumed in `ForwardRace`.
- The dynamic subscriber, the default handler, and the publisher with its rate limiter.
- Connection listeners, the launcher with its event loop, provisioning, settings, logging and tracing.
- The MQTT client, the message router, TLS and TPM.
- Overflow of `time.Time`, and clocks that run backwards during a cleaning pass.
