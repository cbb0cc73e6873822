# Verified model of the social networking platform

This project models the stateful core of the platform's Go services in Dafny and proves what
that core promises. Each `.dfy` file is one module named after the component it models.

| file | component |
|---|---|
| `Breaker.dfy` | the gateway's circuit breaker and the registry of one breaker per upstream |
| `RetryTransport.dfy` | the retry loop around one upstream call, with its backoff arithmetic |
| `GatewayLoad.dfy`, `LoadAttained.dfy` | concurrent calls through one breaker, conservation and the load bound |
| `RateLimiter.dfy` | the per-user fixed-window limiter with background cleanup |
| `Ranking.dfy`, `FeedIndex.dfy` | the trimmed sorted set behind the home feed |
| `FeedDelivery.dfy` | the post fan-out and the stale-feed fallback |
| `Resp.dfy` | the hand-written Redis protocol client |
| `FollowGraph.dfy`, `UserService.dfy` | the follow graph and its event log |
| `NotificationConsumer.dfy` | the fetch, retry, dead-letter, commit protocol |
| `Tokens.dfy`, `Sessions.dfy` | tokens and sessions across auth-service and gateway |
| `Text.dfy`, `Wrappers.dfy`, `Arithmetic.dfy` | string functions of the Go library, Option and Result, shared arithmetic |

Conventions. Times and durations are integers in nanoseconds, times counted from Go's zero
time. Every clock reading, random id and answer of an outside system is a parameter. Where the
source updates an object in place there is a class whose methods do the same and whose
`ensures` clauses tie the new state to a function of the old one; lemmas about that function,
or about runs built from it, carry the properties. Concurrency is interleaving: every section
the source runs under one lock is one atomic step. Redis commands have their documented
meaning (sorted sets order by score, then by member bytes). A write to Redis can be applied,
lost, or applied without the caller learning of it.

Assumptions, each a precondition where it is used: JSON and base64url decode what they encode
and the base64url alphabet has no dot and no white space (`Codec.Lawful`, `Primitives.Lawful`);
a token with a valid signature comes from a login that returned it (`Unforged`); session ids are
never reused (`Genuine`). Stamps come in the order of the locks only where a lemma says
`Monotone`; where one says `Clocked`, only the stamps read under the lock do.

Findings, each proved by the lemmas named, with a concrete input or with the exact condition
under which the property holds:

- The intended exponential wait overflows `int64` for long retry chains; with the default base the
  38th wait is negative and fires at once (`BackoffExact`, `BackoffOverflows`).
- The breaker admits a request with an older stamp once a later one has probed it
  (`AdmissionExact`, `AdmissionNeedsMonotoneClock`).
- A `bufio` read that returns short leaves the Redis client out of step: a bulk reply is read in
  step exactly when one `Read` hands over all of it (`BulkReadExact`).
- Follow keys collide exactly for ids that contain NUL (`UniquelyKeyed`), and a user can then be
  listed as following itself (`SelfEdgeByNul`, `EdgesSoundExactly`).
- A save that fails after inserting can store a notification three times (`StoresThrice`); a
  duplicate is stored exactly when two reached attempts insert (`StoresTwice`).
- Creation times beyond 2^53 can share a score (`Float64Collides`). The feed is newest first
  exactly when payload bytes then follow the times (`FeedIsNewestFirst`); `PageOutOfOrder` gives a
  feed that shows the older post first.
- A cleanup is visible exactly to requests that lag it by more than a window and one clock tick
  (`CleanupInvisible`, `CleanupVisibleBeyondLag`).
- The limiter can grant one less than twice its limit in one window's length (`SlidingBound`,
  `SlidingBoundTight`). Because it reads the clock before the lock, requests that are overtaken
  by c windows can be granted c * (limit - 1) more, and no more than that (`SlidingBoundLagging`).

## Model

| member | source | states |
|---|---|---|
| Breaker.Effective | api-gateway/internal/handler/http/resilience.go:38-51 | non-positive settings become 5 failures and 30 s, others are kept |
| Breaker.CircuitBreaker.constructor | api-gateway/internal/handler/http/resilience.go:38-51 | a new breaker is closed with no failures |
| Breaker.CircuitBreaker.Allow | api-gateway/internal/handler/http/resilience.go:53-64 | refuses exactly while open and before openedUntil; the first admission after that half-opens |
| Breaker.CircuitBreaker.RecordSuccess | api-gateway/internal/handler/http/resilience.go:66-76 | a success closes the breaker and forgets its failures |
| Breaker.CircuitBreaker.RecordFailure | api-gateway/internal/handler/http/resilience.go:78-91 | a failure at the threshold or in half-open opens it for openFor from the failure's stamp |
| Breaker.ReplayTells | api-gateway/internal/handler/http/resilience.go:53-91 | in every history: closed iff fewer trailing failures than the threshold, openedUntil is the last failure plus openFor, half-open iff probed since |
| Breaker.AdmissionExact | api-gateway/internal/handler/http/resilience.go:53-91 | under any clock, admission is decided by the trailing failures, the last failure's stamp and whether a later request already probed |
| Breaker.AdmissionMonotone | api-gateway/internal/handler/http/resilience.go:53-91 | if the stamps come in lock order: admitted iff trailing failures are below the threshold or the last failure is openFor ago |
| Breaker.AdmissionNeedsMonotoneClock | api-gateway/internal/handler/http/resilience.go:53-64 | a history in which the two facts do not decide because a stamp is out of order |
| Breaker.BreakerRegistry.BreakerFor | api-gateway/internal/handler/http/proxy_handler.go:369-381 | returns the service's breaker, making a closed one on first use |
| Breaker.BreakerRegistry.Step | api-gateway/internal/handler/http/proxy_handler.go:302-313 | a step for one upstream changes that upstream's breaker only |
| Breaker.ProjectionRunsAlone | api-gateway/internal/handler/http/proxy_handler.go:369-381 | a mixed run projected to one service equals that service's breaker run alone |
| RetryTransport.BackoffExact | api-gateway/internal/handler/http/resilience.go:210-215 | the wait is base * 2^(attempt-1) iff that fits in int64 |
| RetryTransport.BackoffOverflows | api-gateway/internal/handler/http/resilience.go:210-215 | with the default base the 38th wait is negative |
| RetryTransport.ResilientTransport.Try | api-gateway/internal/handler/http/resilience.go:120-164 | one turn of the loop does what TurnOf says and records an outcome iff it ends the call |
| RetryTransport.ResilientTransport.RoundTrip | api-gateway/internal/handler/http/resilience.go:100-173 | refused without a send when the breaker is open; else one outcome recorded, a success iff the answer is no error and not 502, 503 or 504; 1 to attempts sends, one for a request that cannot be replayed, all attempts before a 502, 503 or 504 is returned for one that can; each wait is the backoff for the sends before it; each resend has a fresh body; the code after the loop is unreachable |
| RetryTransport.ScriptShape | api-gateway/internal/handler/http/resilience.go:120-164 | the loop stops at the first attempt that is not retried, sends each attempt in order and records once, last |
| RetryTransport.OneCall | api-gateway/internal/handler/http/resilience.go:100-197 | per call: exactly one record, a success iff the last send was conclusive; a returned response is the last one and was not drained |
| RetryTransport.AnswerOfCall | api-gateway/internal/handler/http/resilience.go:120-164 | which response or error is returned for each of the four reasons to stop |
| RetryTransport.StatusDecides | api-gateway/internal/handler/http/resilience.go:132-186 | which answers count as success and which are retried to the last attempt, by status |
| RetryTransport.ScriptPaced | api-gateway/internal/handler/http/resilience.go:156-164 | every wait of a call is the backoff for the number of sends before it |
| RetryTransport.RetriedAreDrained | api-gateway/internal/handler/http/resilience.go:152-155 | every response with a body that is retried away is drained |
| RetryTransport.WaitsDouble | api-gateway/internal/handler/http/resilience.go:210-215 | each wait is twice the one before while the longest fits in int64 |
| RetryTransport.FullFailureWaits | api-gateway/internal/handler/http/resilience.go:106-164 | the waits of a call that fails n times add up to base * (2^(n-1) - 1) |
| GatewayLoad.AlwaysAccounts | api-gateway/internal/handler/http/resilience.go:100-164 | in every interleaving: admitted = successes + failures + in flight, rejected calls record nothing, sends are at most attempts times admitted |
| GatewayLoad.AlwaysBounded | api-gateway/internal/handler/http/resilience.go:53-164 | on a failing upstream, under a clock that never runs backwards though arrivals read it before the lock, each probing period lets in at most k requests and takes at least openFor to come about |
| GatewayLoad.LoadBound | api-gateway/internal/handler/http/resilience.go:53-164 | under such a clock, while no stamp is later than d after the first opening, at most failures + k - 1 + k * floor(d / openFor) requests are admitted, each with at most n sends |
| LoadAttained.LoadBoundAttained | api-gateway/internal/handler/http/resilience.go:53-164 | the bound on admissions and on sends is attained for every threshold, k, n and number of probing periods |
| RateLimiter.UserRateLimiter.constructor | api-gateway/internal/middleware/rate_limiter.go:32-51 | positive settings are kept, others become 100 and one minute; no user has a window |
| RateLimiter.UserRateLimiter.Allow | api-gateway/internal/middleware/rate_limiter.go:53-108 | answers and updates the user's window; other users' windows are untouched |
| RateLimiter.UserRateLimiter.CleanupExpired | api-gateway/internal/middleware/rate_limiter.go:128-139 | deletes exactly the windows that ended more than a window ago |
| RateLimiter.CleanupInvisible | api-gateway/internal/middleware/rate_limiter.go:53-139 | with cleanups at arbitrary points every answer is that of a limiter that never cleans, if no request lags an earlier cleanup by more than a window and one clock tick |
| RateLimiter.CleanupVisibleBeyondLag | api-gateway/internal/middleware/rate_limiter.go:128-139 | that lag bound is exact: under every setting, for every pair of stamps beyond it, a run lets in a user at the limit |
| RateLimiter.SlidingBoundLagging | api-gateway/internal/middleware/rate_limiter.go:53-139 | stamps are read before the lock: if no request of the user is stamped more than lag before an earlier one, and no request lags an earlier cleanup by more than a window and a tick, any half-open interval of k windows grants at most (k+1) * limit - 1 requests and limit - 1 more for each started window of lag |
| RateLimiter.SlidingBound | api-gateway/internal/middleware/rate_limiter.go:53-139 | if the stamps come in lock order, fewer than (k+1) * limit requests in any half-open interval of k windows, with cleanups anywhere |
| RateLimiter.SlidingBoundTight | api-gateway/internal/middleware/rate_limiter.go:53-108 | both bounds are attained for every limit, every k, every lag of whole windows and every window longer than one clock tick |
| RateLimiter.CountsWithinLimit | api-gateway/internal/middleware/rate_limiter.go:53-108 | in every reachable state a window's count is between 1 and the limit |
| RateLimiter.LagUndisturbs | api-gateway/internal/middleware/rate_limiter.go:128-139 | a run whose requests do not lag its cleanups meets the hypothesis of the forecast |
| RateLimiter.AnswerForecasts | api-gateway/internal/middleware/rate_limiter.go:53-108 | after Remaining r and ResetAt R exactly the next r requests before R are granted, the rest denied with the same R, and the first at or after R opens a new window however many cleanups ran; only a request before R that follows a cleanup stamped after R plus a window is excluded, which takes a request overtaken by more than a window |
| RateLimiter.RetryAfterSuffices | api-gateway/internal/middleware/rate_limiter.go:80-93 | a denied user who waits out RetryAfter is granted, however late |
| Ranking.RankedTop | feed-service/internal/repository/redis/feed_repository.go:47-52 | the best k of a set are the first k of its ranking, and there are min(k, size) of them |
| Ranking.TopAbsorbs | feed-service/internal/repository/redis/feed_repository.go:47-52 | trimming to the best k before an insert does not change the best k after it |
| FeedIndex.Float64Exact | feed-service/internal/repository/redis/feed_repository.go:47-50 | scores are the creation times up to 2^53 |
| FeedIndex.Float64Monotone | feed-service/internal/repository/redis/feed_repository.go:47-50 | scores keep the order of creation times, though two times may share one |
| FeedIndex.Float64Collides | feed-service/internal/repository/redis/feed_repository.go:47-50 | beyond 2^53 two creation times can share a score |
| FeedIndex.TrimKeepsTop | feed-service/internal/repository/redis/feed_repository.go:52-52 | ZREMRANGEBYRANK 0 -(k+1) keeps exactly the best k |
| FeedIndex.FeedRepository.AddFeedItem | feed-service/internal/repository/redis/feed_repository.go:35-55 | the user's set becomes the best 1000 of itself and the item unless the write is lost; other users' sets are untouched |
| FeedIndex.FeedRepository.GetFeed | feed-service/internal/repository/redis/feed_repository.go:57-83 | the items of the top 20 in rank order, the server's error, or the decoding error |
| FeedIndex.IndexIsTopOfHistory | feed-service/internal/repository/redis/feed_repository.go:35-55 | after any sequence of inserts the set is the best 1000 of all items ever added |
| FeedIndex.FeedReadsHistory | feed-service/internal/repository/redis/feed_repository.go:57-83 | the page of the trimmed set is the page of the untrimmed history |
| FeedIndex.FeedIsFromHistory | feed-service/internal/repository/redis/feed_repository.go:57-83 | a served feed shows only items that were added, none twice, 20 of them or all, and leaves items out only on a full page |
| FeedIndex.ShownIsTop | feed-service/internal/repository/redis/feed_repository.go:57-83 | the items shown are those among the best 20 of the history |
| FeedIndex.RankedByTime | feed-service/internal/repository/redis/feed_repository.go:47-50 | a newer item ranks above an older one iff their scores differ or their payload bytes are ordered like their times |
| FeedIndex.FeedIsNewestFirst | feed-service/internal/repository/redis/feed_repository.go:57-83 | over all creation times: a served feed is newest first, with nothing left out that is newer than an item shown, iff every item among the best 20 of the history is told apart from every newer one by score or payload bytes |
| FeedIndex.ExactTimesNewestFirst | feed-service/internal/repository/redis/feed_repository.go:57-83 | creation times up to 2^53 always give a newest-first feed |
| FeedIndex.TwoItemFeed | feed-service/internal/repository/redis/feed_repository.go:57-83 | the feed of two items shows the newer one first iff the two are told apart |
| FeedIndex.PageOutOfOrder | feed-service/internal/repository/redis/feed_repository.go:47-50 | at creation times 2^53 and 2^53 + 1 the older post with the greater id is shown first |
| FeedIndex.SameItemsSameIndex | feed-service/internal/repository/redis/feed_repository.go:35-55 | redelivery and reordering of inserts leave the same set |
| FeedDelivery.PostConsumer.HandleMessage | feed-service/internal/repository/kafka/post_consumer.go:106-133 | invalid events and failed lookups change nothing; else exactly the followers some write reached get the item |
| FeedDelivery.DeliveredIsServed | feed-service/internal/repository/kafka/post_consumer.go:106-133 | field by field: a message that gets through is served as exactly that post to a user whose feed was empty, any other message as nothing |
| FeedDelivery.PostConsumer.Run | feed-service/internal/repository/kafka/post_consumer.go:88-104 | messages in order, each committed whatever became of it, until a commit or the fetch fails |
| FeedDelivery.FeedHoldsReceived | feed-service/internal/repository/kafka/post_consumer.go:106-133 | a feed is the best 1000 of what it held before and of the events whose author the user follows |
| FeedDelivery.DeliveryOrderIrrelevant | feed-service/internal/repository/kafka/post_consumer.go:106-133 | from any trimmed feed, events in any order, each one or more times, give the same feeds |
| FeedDelivery.RunOrderIrrelevant | feed-service/internal/repository/kafka/post_consumer.go:88-133 | from any trimmed feed, two runs of the consumer over the same posts in any order and number leave the same feeds |
| FeedDelivery.FollowersReceive | feed-service/internal/repository/kafka/post_consumer.go:106-133 | every acceptable event is in the feed of every follower with a non-blank id, unless the feed is full of better ones |
| FeedDelivery.OnlyFollowersReceive | feed-service/internal/repository/kafka/post_consumer.go:121-131 | the events add an item to a feed only if its user is a follower with a non-blank id and some event has just its four fields |
| FeedDelivery.FeedService.GetFeed | feed-service/internal/service/feed_service.go:38-86 | serves the page of the moment named by Serve, from Redis or from the fallback, and remembers it on success |
| FeedDelivery.FallbackIsLatestRead | feed-service/internal/service/feed_service.go:48-53 | the fallback holds the user's latest successful read, if any |
| FeedDelivery.ServedMomentsAdvance | feed-service/internal/service/feed_service.go:38-86 | a served moment is not later than now and never moves back; degraded iff the repository failed; an error only without an earlier successful read |
| Resp.ParseItoa | api-gateway/internal/repository/redis/client.go:103-109 | every int64 printed by Itoa is parsed back |
| Resp.WriteCommand | api-gateway/internal/repository/redis/client.go:69-83 | the loop writes the RESP2 array of bulk strings |
| Resp.CommandRoundTrip | api-gateway/internal/repository/redis/client.go:69-83 | a RESP2 server reads any arguments back, CR LF inside them included, and nothing more |
| Resp.CommandsRoundTrip | api-gateway/internal/repository/redis/client.go:45-66 | the concatenation of commands decodes to exactly that list of commands |
| Resp.CommandOnTheWire | api-gateway/internal/repository/redis/client.go:69-83 | a command byte by byte |
| Resp.ReadReply | api-gateway/internal/repository/redis/client.go:85-124 | answer and remaining stream for every input, the failing ones included |
| Resp.ReplyRoundTrip | api-gateway/internal/repository/redis/client.go:85-124 | readReply undoes the reply printer and consumes exactly one reply iff one Read hands over the whole bulk payload; other replies need nothing at hand |
| Resp.BulkReadExact | api-gateway/internal/repository/redis/client.go:116-120 | a bulk reply is read in step iff one Read hands over all of it |
| Resp.SimpleReadExact | api-gateway/internal/repository/redis/client.go:91-99 | a one-line reply is read in step iff its text has no LF |
| Resp.RepliesOnTheWire | api-gateway/internal/repository/redis/client.go:85-124 | what each kind of reply, and an unknown one, is read as, byte by byte |
| Resp.BrokenOffReply | api-gateway/internal/repository/redis/client.go:86-94 | a stream that ends before the line does gives an error |
| Resp.Client.Do | api-gateway/internal/repository/redis/client.go:32-67 | sends AUTH, SELECT and the command in lockstep up to the first failed write or error reply; a failed dial sends nothing |
| Resp.ErrorsStop | api-gateway/internal/repository/redis/client.go:45-62 | an error or a missing value ends a conversation, a text or a number lets it go on |
| Resp.Client.ScriptParts | api-gateway/internal/repository/redis/client.go:45-64 | AUTH with the password comes first if there is one, then SELECT with the database, then the command |
| Resp.ConversationInStep | api-gateway/internal/repository/redis/client.go:45-66 | with working writes and each bulk payload at hand when it is read, the script is sent up to the first command answered by an error, or whole, and that reply returned |
| FollowGraph.InMemoryFollowRepository.Follow | users-service/internal/repository/postgres/follow_repository.go:53-62 | adds the key and reports whether it was absent |
| FollowGraph.InMemoryFollowRepository.Unfollow | users-service/internal/repository/postgres/follow_repository.go:64-69 | removes exactly that key |
| FollowGraph.InMemoryFollowRepository.ListFollowerIDs | users-service/internal/repository/postgres/follow_repository.go:71-84 | exactly the ids whose key with this followee is stored, strictly ascending |
| FollowGraph.KeysRefinePairs | users-service/internal/repository/postgres/follow_repository.go:49-69 | on NUL-free followee ids the key operations are insertion and removal of one pair |
| FollowGraph.StoreIsPairSet | users-service/internal/repository/postgres/follow_repository.go:49-84 | over every run with NUL-free followee ids the string set represents the set of pairs |
| FollowGraph.UniquelyKeyed | users-service/internal/repository/postgres/follow_repository.go:49-51 | a pair shares its key with no other iff both ids are NUL-free |
| UserService.Service.EnsureUser | users-service/internal/service/user_service.go:144-153 | an unknown id gets a bare user; the records of known users are untouched |
| UserService.Service.FollowUser | users-service/internal/service/user_service.go:155-185 | blank ids are refused, then self-follows, both without effect; else both users exist, known users keep their records, the edge is present and one event is published iff it was absent |
| UserService.Service.UnfollowUser | users-service/internal/service/user_service.go:187-204 | refuses blank ids and self-edges; else removes exactly that edge |
| UserService.Service.ListFollowerIDs | users-service/internal/service/user_service.go:206-221 | refuses a blank id; else exactly the followers, ascending |
| UserService.LoneCall | users-service/internal/service/user_service.go:155-185 | the locked steps of one call, run alone, do what FollowUser's contract says |
| UserService.EdgesAreStored | users-service/internal/repository/postgres/follow_repository.go:49-69 | in every interleaving over NUL-free followee ids the stored keys represent the pairs followed and not unfollowed since |
| UserService.EdgesAlwaysSound | users-service/internal/service/user_service.go:144-204 | in every interleaving every stored key comes from a followed pair of two different existing users; a pair of NUL-free ids whose key is stored is that pair |
| UserService.EdgesSoundExactly | users-service/internal/service/user_service.go:144-204 | for ids of any kind, a pair read off the store is in every run a pair of two different existing users iff every pair that may be followed under its key has the same ends |
| UserService.SelfEdgeByNul | users-service/internal/repository/postgres/follow_repository.go:49-84 | with NUL in ids a user can be listed as following itself |
| UserService.AppearancesArePublished | users-service/internal/service/user_service.go:173-182 | in every interleaving, for ids of any kind, each absent-to-present transition of a stored key is published exactly once or owed by the call that made it; the key of NUL-free ids is published for that pair only |
| NotificationConsumer.VerdictMeans | notification-service/internal/service/notification_service.go:56-117 | the consumers' field check turns away exactly blank fields; self-actions are suppressed; what a wanted follow or like notifies, by user, kind and message; nobody is notified of their own action |
| NotificationConsumer.LikeMeans | notification-service/internal/service/notification_service.go:97-109 | the kind that notifies is "like" in any case with white space around it |
| NotificationConsumer.Consumer.CreateFollowNotification | notification-service/internal/service/notification_service.go:56-83 | rejects blank ids, suppresses self-follows, else saves the notification spelled out in the contract |
| NotificationConsumer.Consumer.CreatePostInteractionNotification | notification-service/internal/service/notification_service.go:85-117 | rejects blank fields and other kinds, suppresses self-likes, else saves the notification spelled out in the contract |
| NotificationConsumer.Consumer.Retry | notification-service/internal/repository/kafka/retry.go:17-40 | the bounded loop returns and stores what RetryFrom says; the code after the loop is unreachable |
| NotificationConsumer.RetryStores | notification-service/internal/repository/kafka/retry.go:17-40 | success means suppressed or stored; an invalid payload fails; at most one notification is stored per attempt |
| NotificationConsumer.StoresAtMostOnce | notification-service/internal/repository/kafka/retry.go:17-40 | with all-or-nothing saves one notification is stored iff the loop succeeds on a wanted payload |
| NotificationConsumer.StoresTwice | notification-service/internal/repository/kafka/retry.go:17-40 | the loop stores a duplicate iff a reached attempt inserts and fails all the same and a later reached one inserts again |
| NotificationConsumer.StoresThrice | notification-service/internal/repository/kafka/retry.go:17-40 | with saves that fail after inserting one delivery can store three |
| NotificationConsumer.Consumer.HandleNext | notification-service/internal/repository/kafka/follow_consumer.go:103-138 | one delivery: validate, retry, dead-letter on failure, then commit |
| NotificationConsumer.Consumer.Run | notification-service/internal/repository/kafka/interacion_consumer.go:74-123 | deliveries in order until exactly the first failed commit or the fetch fails; nil only when the fetch is cancelled |
| NotificationConsumer.DeliveredMeans | notification-service/internal/repository/kafka/interacion_consumer.go:83-119 | the effect of one delivery on offset, store, dead letters and commit |
| NotificationConsumer.Undisturbed | notification-service/internal/repository/kafka/interacion_consumer.go:74-123 | an undisturbed delivery stores exactly the notification its payload asks for, field by field, or dead-letters an invalid payload, and commits |
| NotificationConsumer.AlwaysConserves | notification-service/internal/repository/kafka/follow_consumer.go:94-159 | in every run with crashes and redelivery every message before the position is settled and what is stored is what its payload asks for |
| NotificationConsumer.NoMessageLost | notification-service/internal/repository/kafka/follow_consumer.go:94-159 | a committed message is stored, dead-lettered, a self-action, or its dead-letter write failed |
| NotificationConsumer.OneCopyPerDelivery | notification-service/internal/repository/kafka/follow_consumer.go:125-139 | a message is stored at most once per delivery if none of its deliveries inserts twice |
| NotificationConsumer.AllOrNothingNoneTwice | notification-service/internal/repository/kafka/follow_consumer.go:125-139 | with all-or-nothing saves no delivery inserts twice |
| Tokens.SplitCompact | auth-service/internal/security/jwt.go:72-75 | splitting the compact form gives back its three parts |
| Tokens.IssueThenParse | auth-service/internal/security/jwt.go:40-117 | an issued token parses to its claims, or to the first failing check on subject, session, issuer and expiry |
| Tokens.IssuedClaims | auth-service/internal/security/jwt.go:49-59 | the claims of an issued token, one by one |
| Tokens.ParsedIsHS256 | api-gateway/internal/security/jwt.go:36-59 | a token that parses names HS256 and carries the signature over its first two parts |
| Tokens.SignedDeterminesToken | api-gateway/internal/security/jwt.go:36-59 | a validly signed token is its signing input followed by the signature |
| Tokens.VerifiersAgree | api-gateway/internal/security/jwt.go:36-80 | with one secret and issuer both services accept the same tokens up to the typ field |
| Sessions.SessionRepository.Save | auth-service/internal/repository/redis/session_repository.go:32-55 | stores the session unless it lives under a second or the write is lost |
| Sessions.SessionRepository.DeleteByID | auth-service/internal/repository/redis/session_repository.go:78-83 | removes exactly that session unless the write is lost |
| Sessions.AuthService.HandleCallback | auth-service/internal/service/auth_service.go:107-199 | the first bad outside answer decides the error and nothing is stored before all are good; then the session is stored as spelled out and a token returned iff the write is acknowledged |
| Sessions.AuthService.Logout | auth-service/internal/service/auth_service.go:201-215 | deletes the session named by a valid token and nothing else; the error otherwise |
| Sessions.AuthService.ValidateSession | auth-service/internal/service/auth_service.go:217-257 | agrees with the gateway's decision on the same store and clock |
| Sessions.VerifierGetsToken | auth-service/internal/service/auth_service.go:259-283 | the verifier is given exactly the token behind "bearer", in whatever case and white space the header has it |
| Sessions.VerifierGetsHeader | auth-service/internal/service/auth_service.go:259-283 | a header without the scheme is given to the verifier as it is, and a blank one is refused |
| Sessions.Gateway.RequireAuthenticated | api-gateway/internal/handler/http/proxy_handler.go:143-211 | the chain of checks on header, token, session, owner and expiry |
| Sessions.DecisionOnSession | api-gateway/internal/handler/http/proxy_handler.go:175-210 | acceptance and the two refusals by the stored session |
| Sessions.AlwaysConsistent | auth-service/internal/service/auth_service.go:107-215 | in every run a granted session is stored as granted until it is logged out or evicted |
| Sessions.GatewayAcceptsExactly | api-gateway/internal/handler/http/proxy_handler.go:143-211 | the gateway accepts iff the token was returned by a login, its session is neither logged out nor evicted, the token's expiry second is ahead, the session has not expired and the two services' issuers agree |
| Sessions.ValidationNamesUser | auth-service/internal/service/auth_service.go:217-257 | the auth-service validates a login's token while it is live and then names that login's user, session and expiry |
| Sessions.BearerHeaderAccepted | api-gateway/internal/handler/http/proxy_handler.go:143-211 | the usual header of a login's token is accepted iff the login is current |
| Sessions.LogoutIsolated | auth-service/internal/service/auth_service.go:201-215 | a logout leaves every other session accepted or refused as before |
| Sessions.LoggedOutForGood | auth-service/internal/service/auth_service.go:201-215 | a logged-out token is refused in every later state |

## Left out

- HTTP plumbing, routing, response envelopes, logging, metrics, tracing, configuration loading and the demo simulation.
- The whole-second Retry-After header, and the exact moment at which Redis expires a session key: eviction may happen at any time.
- The SQL repositories and their failures in users-service: `UserService` is over the in-memory repositories, which do not fail.
- The lost update when `ensureUser` saves a bare user between another request's read and write of the profile: only which users exist is tracked under concurrency.
- Kafka partition rebalancing; one consumer reads one partition in order.
- Allocation failures for huge bulk sizes in the Redis client; a negative size other than -1 is modelled as a panic.
- RESP arrays as replies, which the client reports as unsupported.
- Wrap-around of the breaker's and the limiter's counters after 2^63 steps.
- The Google OAuth exchange, the OAuth state token and random id generation, which are parameters of a login.
- Posts CRUD and profile length checks, which single branches settle.
- RetryTransport.BackoffExact: states the int64 wrap-around of the wait; the rest of the project assumes nothing about waits that overflow.
