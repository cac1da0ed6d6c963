# Stile, verified

Stile is a gateway between MCP clients and upstream tool servers. This project models the state
machines it depends on and proves what they keep over every input, run and interleaving.

Where the program takes a lock, the locked region is one step. Where it lets go of the lock, the
operation is several steps, and anything may happen between them. Clocks, randomness, the network,
the database driver and child processes are parameters: a caller of a modelled method supplies the
time, the jitter, the failing statement or the upstream's answer.

| file | what it models |
|---|---|
| `AuthStore.dfy` | callers, keys and roles behind SQL, with statements that may fail half-way |
| `AuthCache.dfy`, `CachedStore.dfy` | the TTL cache with its reverse index, as a value and as an object |
| `Staleness.dfy` | split lookups racing writes, evictions and lost notifications |
| `ColonSeparated.dfy`, `Invalidation.dfy`, `Cluster.dfy` | payloads, the listener, and a cluster exchanging them in any order |
| `Authenticator.dfy` | API-key authentication over the cache and its shared caller objects |
| `CircuitBreaker.dfy`, `Retry.dfy`, `Outage.dfy` | breaker, retry loop, and many requests through one breaker |
| `SlidingWindow.dfy`, `RateLimiter.dfy`, `LimiterRuns.dfy` | the Redis script against a log that never forgets, the three-level limiter, and overlapping calls with clocks of their own |
| `RouteTable.dfy`, `RouteRefresh.dfy` | the tool index, the merged list, and refreshes that commit late |
| `Proxy.dfy` | what is listed, what is forwarded |
| `SSE.dfy` | the server-sent-events reader and the printer it inverts |
| `Stdio.dfy` | the child-process restart machine |
| `Powers.dfy` | powers of two, for both backoffs |

Each class is proved against a function on values (`CachedApply`, `AfterCheck`, `CheckAll`, `Rebuild`,
`NextFrom`, `Uninterrupted`, ...), and the theorems are about runs of those functions. In particular the
methods of `SQLiteStore` and `CachedStore` do, statement by statement, what `Apply` and `CachedApply` say;
their rows below only name what is special to each.

## Where the code falls short

Some properties one would expect are false. Each has a concrete witness, and the condition under which
the property holds.

- The cache does not always answer as the store does. A write that reports an error evicts nothing,
  although rows may already have changed: provisioning (`internal/auth/store.go:402-418`) is not a
  transaction, and a lost row count comes after the rows are gone. Witness
  `PartialProvisioningIsServedStale`. Exact condition: all answers of a history, and all reads one could
  make at any point of it, agree with the store if and only if no call was a stale fault of the entries
  live at the time (`RefinementExact`, per call `StepReadsExact`).
- A successful provisioning does not always give the default roles: the error of its row count is
  ignored (`internal/auth/store.go:406`), a new caller is then taken for an old one, and provisioning
  again does not mend it (`LostCountLeavesNoRoles`). Every successful write does what it promises if and
  only if it is not this case (`DoneWritePromiseExact`).
- A cache fill racing a revocation can outlive the eviction meant for it (`RacingFillOutlivesEviction`).
  An insertion is harmless if and only if what was fetched still holds or the notice that evicts it is
  still to come to that instance (`InsertCoveredExact`; without notices `InsertCoherentExact`), and it
  turns harmful exactly by the steps of `StepTimelyExact`. The TTL bound holds in every interleaving
  (`BoundedStaleness`).
- Instances do not always agree once their queues have drained: what a write does before it fails is
  not announced (`HalfProvisionedStaysStale`). In every run each wrong entry has its message to come, at
  all times, if and only if every step was harmless: insertions timely, and failures not stale for
  entries no message is going to evict (`RunCoveredExact`). After such a run drained caches agree
  (`DrainedClusterAgrees`).
- A caller object handed to a request can change under it: authentication rewrites the object of every
  other request with the same cached key (`LaterRequestRewritesEarlier`). It is rewritten exactly when
  the key is a cache hit, and no other cached object is (`Authenticate`).
- A retry does not always wait. A delay that does not fit in 64 bits turns negative before it is capped,
  which the default backoff and cap with forty attempts do on every retry 38
  (`DefaultBackoffStopsWaiting`). The cap aside, a delay is at least half the unjittered one if and only
  if it fits (`BackoffAtLeastHalfExact`).
- The limiter does not always count every admission of its window. In every interleaving, for any
  windows, clocks and members, all replies are those of a limiter that keeps everything if and only if
  no run of the script has lost an admission of its window (`RepliesExact`): to an earlier call with a
  smaller window (`SmallerWindowForgets`; a caller's window follows its roles, its key does not), to one
  whose clock was ahead (`LateClockExceedsTheLimit`), to an equal member
  (`CollidingMembersExceedTheLimit`), or to expiry. Where the calls on each key come in the order of
  their times, that can be read off times and windows (`HorizonExact`). What is kept all the same: the least window used with
  a key, if its calls come in the order of their times and clocks differ by at most a second
  (`SlidingWindowBound`); in any order, that window less the difference of the clocks (`LaggingBound`).
- Two callers can share a tool key if and only if one name is the other up to one of its colons
  (`ToolKeysSharedExact`, a pair in `ToolKeysIsolate`).
- A tool whose listed name is empty is shown and cannot be called (`NamelessToolIsShown`); every other
  shown tool can (`ShownToolIsCallable`).
- Leading newlines of event data are lost by the reader (`LeadingNewlineIsLost`); the round trip holds
  if and only if no event's data starts with one (`RoundTripExact`). Sections 9.2.5 and 9.2.6 of the
  WHATWG HTML Living Standard would keep them; they would also drop an event cut off by the end of the
  stream and one without data, both of which this reader returns. The model follows the code.
- A stdio transport that has permanently failed can still start a child, if and only if it is open and
  a request sleeps in its backoff (`GivenUpExact`, reached in `SleeperOutlivesGivingUp`).
- Close can leave a child running (`ChildSurvivesClose`): a woken sleeper replaces a child that another
  request started meanwhile, and nothing kills the replaced one. Close leaves none if and only if that
  never happened (`CloseLeavesExact`), and requests one after another never do it
  (`SequentialCloseLeavesNone`).

## Model

| member | source | states |
|---|---|---|
| `AuthStore.ApplyKeepsSchema` | internal/auth/store.go:33-52 | Every call, also one that fails half-way, keeps foreign keys valid, key ids unique and role rows unique |
| `AuthStore.ReadAnswers` | internal/auth/store.go:135-173 | Key, role and existence reads answer what the rows say, unless their statement fails |
| `AuthStore.WriteSucceedsExact` | internal/auth/store.go:175-449 | Each write succeeds iff it finds the rows it needs, spelled on callers and keys, and none of its reported statements fails |
| `AuthStore.WriteErrorExact` | internal/auth/store.go:175-449 | Which error each write gives otherwise |
| `AuthStore.FailedWriteTables` | internal/auth/store.go:175-449 | What a write that does not succeed leaves: the tables as they were, or half-way the rows of the success or the first default roles |
| `AuthStore.WriteFrame` | internal/auth/store.go:175-449 | A write touches only the named caller: every other caller stays, with its keys and roles; a new key row is the named caller's, and no surviving row changes |
| `AuthStore.DeleteCallerCascades` | internal/auth/store.go:247-261 | A deleted caller takes exactly its own keys and roles with it |
| `AuthStore.DoneWritePromiseExact` | internal/auth/store.go:175-449 | A successful write does what it promises, as later key, role and existence reads see it, and changes nothing else in callers, roles, key rows and key ids, iff it is not the provisioning of a new caller whose row count is lost |
| `AuthStore.LostCountLeavesNoRoles` | internal/auth/store.go:406-409 | Witness: provisioning succeeds, the caller exists without its default role, and provisioning again changes nothing |
| `AuthStore.OnlyAddKeyAddsRows` | internal/auth/store.go:187-202 | No other call adds key rows, moves the id counter or orphans a key |
| `AuthStore.WithRolesDistinct` | internal/auth/store.go:410-417 | Inserting roles adds exactly the given ones and never duplicates one |
| `AuthStore.WithoutRoleSpec` | internal/auth/store.go:230-243 | Unassigning removes exactly that role and changes nothing when it was absent |
| `AuthStore.SQLiteStore.LookupByKey` | internal/auth/store.go:135-149 | Owner and label of the key's row in a fresh caller object; any error reads as not found |
| `AuthStore.SQLiteStore.RolesForCaller` | internal/auth/store.go:152-173 | The caller's role rows; an unknown caller has none |
| `AuthStore.SQLiteStore.CallerExists` | internal/auth/store.go:422-429 | Whether the name is taken, or the database's failure |
| `AuthStore.SQLiteStore.AddCaller` | internal/auth/store.go:176-185 | A new caller without roles, or a duplicate error and no change |
| `AuthStore.SQLiteStore.AddKey` | internal/auth/store.go:188-202 | A new row under a fresh id; unknown caller and taken hash are errors that change nothing |
| `AuthStore.SQLiteStore.AssignRole` | internal/auth/store.go:206-220 | Idempotent insertion of one role |
| `AuthStore.SQLiteStore.UnassignRole` | internal/auth/store.go:224-245 | The role is gone; a failing row count is reported after the deletion |
| `AuthStore.SQLiteStore.DeleteCaller` | internal/auth/store.go:248-261 | Cascading deletion; a failing row count is reported after it |
| `AuthStore.SQLiteStore.DeleteKey` | internal/auth/store.go:365-382 | Deletes the caller's key of that id and no one else's |
| `AuthStore.SQLiteStore.RevokeKey` | internal/auth/store.go:432-449 | Deletes all keys of the caller with that label |
| `AuthStore.SQLiteStore.EnsureCaller` | internal/auth/store.go:401-419 | Creates caller and defaults one statement at a time; an existing caller, or one whose row count is lost, gets no roles; a failing insert leaves the earlier rows |
| `AuthCache.FillKeyKeepsIndex` | internal/auth/cached_store.go:113-123 | A fill keeps every cached hash listed under its own entry's caller, leftovers of moved hashes included |
| `AuthCache.CachedReadExact` | internal/auth/cached_store.go:95-161 | A hit answers by itself and changes nothing; a miss answers as the database, and only a success is entered, with its expiry and under its caller |
| `AuthCache.EvictAfterExact` | internal/auth/cached_store.go:165-281 | Exactly the entries a successful write evicts, and none else |
| `AuthCache.NoticesExact` | internal/auth/cached_store.go:165-235 | Exactly the notices it sends |
| `AuthCache.ServedUntilExpiry` | internal/auth/cached_store.go:95-161 | What was fetched at a time is served until that time plus the TTL, whatever has become of the database, and fetched again after it |
| `AuthCache.EvictKeysRemovesAll` | internal/auth/cached_store.go:255-263 | Evicting a caller removes all its entries, no entry changes, and the index stays right for everyone else |
| `AuthCache.CachedApplyKeepsIndex` | internal/auth/cached_store.go:95-235 | Every store call keeps the reverse index |
| `AuthCache.IndexedAlways` | internal/auth/cached_store.go:95-338 | The reverse index holds in every reachable state of one instance, failed writes included |
| `AuthCache.DoneWriteKeepsCoherence` | internal/auth/cached_store.go:165-235 | A successful write evicts every entry it made wrong |
| `AuthCache.FailedWriteExact` | internal/auth/cached_store.go:169-235 | After a failed write the cache agrees with the tables iff the failure is not a stale fault |
| `AuthCache.StepCoherenceExact` | internal/auth/cached_store.go:95-235 | One call keeps all stored entries, expired ones included, in agreement with the tables iff it is not a stale fault of them |
| `AuthCache.FillExact` | internal/auth/cached_store.go:113-123 | Inserting an answer keeps the cache in agreement iff the tables give that answer |
| `AuthCache.ReadsAgreeExact` | internal/auth/cached_store.go:95-161 | All reads answer as the database iff the live entries agree with it |
| `AuthCache.StepReadsExact` | internal/auth/cached_store.go:95-235 | From live entries that agree, one call leaves all later reads in agreement iff it is not a stale fault of the live entries |
| `AuthCache.ReadsAgreeThroughoutExact` | internal/auth/cached_store.go:95-235 | At every point of a history all reads would agree iff no call was such a stale fault |
| `AuthCache.RefinementExact` | internal/auth/cached_store.go:95-235 | Every answer of a history and every read at any point of it agree with the bare store iff no call was a stale fault of the entries live at the time |
| `AuthCache.RunStaysSound` | internal/auth/cached_store.go:95-235 | After any history without a stale fault of live entries, the tables are those of the bare store and the live entries agree with them |
| `AuthCache.CachedRefinesBare` | internal/auth/cached_store.go:95-235 | Sequential refinement: every answer is the bare store's, or for a read whose database access would fail, what the database would have said |
| `AuthCache.CachedEqualsBare` | internal/auth/cached_store.go:95-235 | While reads reach the database the answers are equal one by one |
| `AuthCache.PartialProvisioningIsServedStale` | internal/auth/store.go:402-418 | Witness: a half-provisioned caller is served its old empty role list from the cache |
| `CachedAuthStore.CachedStore.constructor` | internal/auth/cached_store.go:67-79 | A new cache is empty over the given store and TTL |
| `CachedAuthStore.CachedStore.LookupByKey` | internal/auth/cached_store.go:95-126 | State and answer of `CachedApply`; a hit hands out the one cached caller object |
| `CachedAuthStore.CachedStore.InsertKey` | internal/auth/cached_store.go:113-123 | Entry and reverse index are filled together |
| `CachedAuthStore.CachedStore.RolesForCaller` | internal/auth/cached_store.go:128-161 | State and answer of `CachedApply` for role lists |
| `CachedAuthStore.CachedStore.CallerExists` | internal/auth/cached_store.go:237-239 | Never cached |
| `CachedAuthStore.CachedStore.EvictKeysForCaller` | internal/auth/cached_store.go:255-269 | The loop removes exactly the hashes indexed under the caller; other entries keep their objects |
| `CachedAuthStore.CachedStore.EvictRolesForCaller` | internal/auth/cached_store.go:271-281 | Removes that caller's role list only |
| `CachedAuthStore.CachedStore.FlushLocal` | internal/auth/cached_store.go:324-338 | Empties the cache and announces nothing |
| `CachedAuthStore.CachedStore.Flush` | internal/auth/cached_store.go:318-321 | Empties the cache and announces one flush |
| `CachedAuthStore.CachedStore.AddCaller` | internal/auth/cached_store.go:165-167 | Passes through; the cache is untouched |
| `CachedAuthStore.CachedStore.AddKey` | internal/auth/cached_store.go:181-183 | Passes through; the cache is untouched |
| `CachedAuthStore.CachedStore.DeleteCaller` | internal/auth/cached_store.go:169-179 | On success evicts keys and roles and announces both; on failure does neither |
| `CachedAuthStore.CachedStore.DeleteKey` | internal/auth/cached_store.go:185-193 | On success evicts and announces keys only |
| `CachedAuthStore.CachedStore.RevokeKey` | internal/auth/cached_store.go:195-203 | On success evicts and announces keys only |
| `CachedAuthStore.CachedStore.AssignRole` | internal/auth/cached_store.go:205-213 | On success evicts and announces roles only |
| `CachedAuthStore.CachedStore.UnassignRole` | internal/auth/cached_store.go:215-223 | On success evicts and announces roles only |
| `CachedAuthStore.CachedStore.EnsureCaller` | internal/auth/cached_store.go:227-235 | On success evicts and announces roles, also for an existing caller |
| `Staleness.StepKeepsInv` | internal/auth/cached_store.go:95-161 | Every step of every interleaving keeps each entry and each fetched answer backed by a moment the database held it |
| `Staleness.RunKeepsInv` | internal/auth/cached_store.go:95-161 | The same over every run |
| `Staleness.BoundedStaleness` | internal/auth/cached_store.go:95-161 | In every interleaving a successful lookup that read the clock at t returns what the database held at some instant no earlier than t - ttl |
| `Staleness.UninterruptedIsCachedApply` | internal/auth/cached_store.go:95-161 | The steps of a lookup with nothing in between are one call on the cached store: same answer, same cache |
| `Staleness.IndexedInEveryInterleaving` | internal/auth/cached_store.go:113-123 | The reverse index survives every interleaving, lost notifications included |
| `Staleness.RacingFillOutlivesEviction` | internal/auth/cached_store.go:108-117 | Witness: a live entry for a revoked key after its eviction |
| `Staleness.InsertCoherentExact` | internal/auth/cached_store.go:108-123 | On a coherent cache the last step of a lookup keeps it coherent iff the database still gives the fetched answer |
| `ColonSeparated.SplitInvertsEncode` | internal/auth/pg_notify.go:125-130 | Splitting at the first colon recovers kind and name, for names with colons too |
| `ColonSeparated.SplitExact` | internal/auth/pg_notify.go:125-130 | Where any string is split, and which ones are not |
| `ColonSeparated.EncodeInjective` | internal/policy/redis.go:150 | Joined parts determine the parts when the first holds no colon |
| `ColonSeparated.MeetExact` | internal/policy/redis.go:150 | Two first parts can be completed to the same string iff they are equal or one is the other up to one of its colons |
| `Invalidation.HandleEncoded` | internal/auth/pg_notify.go:57-67 | Handling an encoded notice is the eviction it announces, for every caller name |
| `Invalidation.HandleExact` | internal/auth/pg_notify.go:119-141 | What every payload does, malformed and unknown ones included |
| `Invalidation.PGNotifyListener.HandleNotification` | internal/auth/pg_notify.go:119-141 | Evicts as decoded; malformed and unknown payloads do nothing; nothing is announced again |
| `Clusters.WriteAnnounces` | internal/auth/cached_store.go:165-235 | Whatever entry a successful write makes wrong, it announces |
| `Clusters.DeliverKeepsCovered` | internal/auth/pg_notify.go:119-141 | A handled message removes every entry it was pending for |
| `Clusters.InsertCoveredExact` | internal/auth/cached_store.go:108-123 | A late insertion keeps every wrong entry covered iff what was fetched still holds or its notice is pending for that instance |
| `Clusters.FailedWriteCoveredExact` | internal/auth/cached_store.go:169-235 | A write that fails keeps an instance covered iff it is not a stale fault of the entries no message is going to evict |
| `Clusters.ProvisionedIsEnsureCaller` | internal/auth/store.go:401-419 | The statements of a provisioning, with nothing in between, do to the tables what the one call does |
| `Clusters.EnsureKeepsCovered` | internal/auth/store.go:402-418 | No statement of a provisioning under way leaves a wrong list without its announcement to come |
| `Clusters.EnsureFailExact` | internal/auth/store.go:410-417 | Giving up half-way keeps an instance covered iff it has no outdated list of that caller, or another message will evict it |
| `Clusters.HalfProvisionedStaysStale` | internal/auth/store.go:410-417 | Witness: drained queues, one role in the database and none in the cache |
| `Clusters.StepKeepsInvExact` | internal/auth/pg_notify.go:57-141 | A step of the cluster keeps every wrong entry covered by a message to come iff it is harmless |
| `Clusters.RunCoveredExact` | internal/auth/pg_notify.go:57-141 | Over every run, in any order of delivery, with provisioning statement by statement and writes that fail half-way: an entry that disagrees with the database has its message to come at all times, iff every step was harmless |
| `Clusters.PlainRunsAreHarmless` | internal/auth/cached_store.go:95-235 | Lookups taken as one step and statements that do not fail are always harmless |
| `Clusters.StepTimelyExact` | internal/auth/pg_notify.go:119-141 | A fetched answer turns untimely exactly by the handling of its last notice after it stopped to hold, by a provisioning that gives up, or by a write that fails half-way |
| `Clusters.FailedWriteOutdates` | internal/auth/cached_store.go:108-123 | A write that fails half-way outdates what was fetched iff it is a stale fault for a cache holding just that |
| `Clusters.NoOvertakingIsTimely` | internal/auth/pg_notify.go:119-141 | If no notice overtakes a lookup in that way, every insertion of the run is timely |
| `Clusters.RunKeepsInv` | internal/auth/pg_notify.go:57-141 | The state a run ends in is covered if the run was covered throughout |
| `Clusters.DrainedClusterAgrees` | internal/auth/pg_notify.go:57-141 | Once the queues drain, every cache agrees with the database, if all steps were harmless |
| `Clusters.DrainedPlainClusterAgrees` | internal/auth/pg_notify.go:57-141 | So it does, without further condition, when lookups are one step and no statement fails |
| `Authentication.OrderedMembers` | internal/auth/auth.go:285-297 | Ordering keeps exactly the assigned roles that are configured |
| `Authentication.OrderedPositions` | internal/auth/auth.go:285-297 | They stand in the order of the configuration |
| `Authentication.UnionMembers` | internal/auth/auth.go:259-267 | A pattern is in the union iff some role has it |
| `Authentication.VerdictExact` | internal/auth/auth.go:203-219 | A tool is allowed iff some assigned role present in the configuration has a matching pattern |
| `Authentication.GrantExact` | internal/auth/auth.go:203-219 | An unknown key is refused; a known one gets its owner, label, configured roles in configuration order and their patterns |
| `Authentication.RefusalExact` | internal/auth/auth.go:203-215 | Which refusal is given when the database fails, and that a hit does not mind |
| `Authentication.AuthStepAgrees` | internal/auth/auth.go:203-219 | While the live entries agree with the store, authentication grants what the store grants, and they agree afterwards |
| `Authentication.AuthenticationAgrees` | internal/auth/auth.go:203-219 | After every sequential history without a stale fault of live entries, name, label, ordered roles and patterns are those the bare store gives |
| `Authentication.CanAccessTool` | internal/auth/auth.go:42-49 | True iff some pattern matches |
| `Authentication.Authenticator.OrderByConfig` | internal/auth/auth.go:285-297 | The loops compute `Ordered` |
| `Authentication.Authenticator.UnionAllowedTools` | internal/auth/auth.go:259-267 | The loop computes `Union` |
| `Authentication.Authenticator.UpstreamToken` | internal/auth/auth.go:272-281 | The token of the first role with a credential for the upstream; none iff no role has one |
| `Authentication.Authenticator.Authenticate` | internal/auth/auth.go:202-220 | Result, cache and caller object agree with `AuthCached`, whatever earlier requests wrote into the object; it is the cached one iff the key is a hit, and all other cached objects keep roles and patterns |
| `Authentication.Authenticator.Equip` | internal/auth/auth.go:216-217 | The roles and patterns written into the object |
| `Authentication.LaterRequestRewritesEarlier` | internal/auth/auth.go:216-217 | Witness: a request that was granted nothing holds a role assigned later, once another request uses its key |
| `Breakers.CircuitBreaker.constructor` | internal/resilience/circuitbreaker.go:39-46 | Starts closed |
| `Breakers.CheckExact` | internal/resilience/circuitbreaker.go:50-72 | Who is admitted in every state of the fields, and what the check changes |
| `Breakers.CircuitBreaker.Allow` | internal/resilience/circuitbreaker.go:50-72 | Verdict and new state of an admission check |
| `Breakers.CircuitBreaker.RecordSuccess` | internal/resilience/circuitbreaker.go:75-81 | Closes and clears the count |
| `Breakers.CircuitBreaker.RecordFailure` | internal/resilience/circuitbreaker.go:84-100 | Reopens a half-open breaker without counting; otherwise counts and trips at the threshold |
| `Retries.BackoffBound` | internal/resilience/retry.go:43-51 | A delay is at most maxBackoff and at most backoff * 2^attempt |
| `Retries.RetryableExact` | internal/resilience/retry.go:23-39 | A listed failed connection, or a status whose decimal code is listed, and nothing else |
| `Retries.DigitsExact` | internal/resilience/retry.go:35 | The text of a code is its decimal text without leading zeros |
| `Retries.BackoffExact` | internal/resilience/retry.go:43-51 | A delay that fits is the scaled one rounded down, or the cap if less |
| `Retries.TotalWaitSum` | internal/resilience/retry.go:43-51 | Each retry adds its own delay to the time waited, if positive |
| `Retries.BackoffAtLeastHalfExact` | internal/resilience/retry.go:43-51 | The cap aside, a delay is at least half of backoff * 2^attempt, up to rounding, iff the scaled value fits in 64 bits; otherwise the retry does not wait |
| `Retries.DefaultBackoffStopsWaiting` | internal/resilience/retry.go:43-51 | Witness: with the default backoff and cap and forty attempts, retry 38 never waits |
| `Retries.TotalWaitBound` | internal/resilience/retry.go:43-51 | The time waited before n retries is at most n * maxBackoff and at most backoff * (2^n - 1); none with a negative setting |
| `Retries.ReachedIsReturned` | internal/resilience/resilient.go:78-118 | A success preceded only by retryable errors, within the attempts and before any cancellation, is returned, after one wait between any two calls |
| `Retries.ReturnedIsReached` | internal/resilience/resilient.go:78-126 | Nothing else is returned: otherwise the last call's error, or the context's if cancelled, with one wait more iff that was during a wait |
| `Retries.LoopMeaning` | internal/resilience/resilient.go:72-126 | Without cancellation the first success is returned iff all earlier errors are retryable and fewer than the attempts; otherwise the last error |
| `Retries.ResilientTransport.RoundTrip` | internal/resilience/resilient.go:63-127 | One admission check, then exactly one recorded outcome; result, calls and time waited, also in a wait cut short, are those of the loop |
| `Outages.DriveIsTrips` | internal/resilience/resilient.go:78-118 | A request of the interleaved system, cancelled or not, makes the calls of the retry loop and reports its result |
| `Outages.RunKeepsInv` | internal/resilience/circuitbreaker.go:50-100 | The invariants below hold over every interleaving with stragglers |
| `Outages.ClosedIffFewFailures` | internal/resilience/circuitbreaker.go:75-100 | Closed iff fewer failures than the threshold were recorded since the last success |
| `Outages.ProbeSpacing` | internal/resilience/circuitbreaker.go:54-99 | Two requests admitted while not closed, with no success recorded between, are at least a cooldown apart |
| `Outages.TrippedAtLastFailure` | internal/resilience/circuitbreaker.go:84-100 | While not closed the cooldown runs from the last recorded failure, late ones included; open admits exactly after it |
| `Outages.OneOutcomeEach` | internal/resilience/resilient.go:63-127 | Each admitted request records at most one outcome, exactly one once it has reported, within its attempts |
| `Outages.NeverStuck` | internal/resilience/circuitbreaker.go:54-92 | halfOpenActive iff half-open; half-open some admitted request has yet to report and can move; open admits iff the cooldown has passed |
| `Outages.ProbesSpread` | internal/resilience/circuitbreaker.go:54-63 | n probes without a success between them span at least (n - 1) cooldowns |
| `Outages.OutageBound` | internal/resilience/resilient.go:63-127 | An outage of length L admits at most L / cooldown + 1 probes and maxAttempts times as many upstream calls |
| `SlidingWindows.AdmissionKeepsBound` | internal/policy/redis.go:25-26 | Admitting only with room in the own window keeps every half-open window of that length within the limit, in whatever order |
| `SlidingWindows.ScriptExact` | internal/policy/redis.go:22-30 | One run member by member: who survives the trim and the expiry, what is added, the reply, and when the expiry is set |
| `SlidingWindows.LifetimeExact` | internal/policy/redis.go:27 | The expiry covers the window in whole seconds and one more, no longer |
| `SlidingWindows.TrimmedIsWindow` | internal/policy/redis.go:22-27 | After trimming, the set counts exactly the admissions of the window, whether or not the key has expired by the server's clock |
| `SlidingWindows.ScriptIsIdeal` | internal/policy/redis.go:16-31 | With calls in the order of their times and clocks within the extra second, the script answers as the log that keeps everything, and still represents it afterwards iff the added member was new |
| `SlidingWindows.LeastWindowIsKept` | internal/policy/redis.go:16-31 | A key used with several windows remembers enough for the least, and no window of that length exceeds the largest limit |
| `SlidingWindows.LaggingWindowIsKept` | internal/policy/redis.go:16-31 | In any order of calls the same holds for windows shorter by the difference of the clocks |
| `SlidingWindows.AnswerExact` | internal/policy/redis.go:22-30 | For any windows, times, clocks and members, a call answers as the log does iff no admission of its window has been lost |
| `SlidingWindows.TracksStep` | internal/policy/redis.go:22-27 | After any call, set and lost admissions together are the log: lost to expiry, to the trim, or to an overwritten member |
| `SlidingWindows.HorizonAnswerExact` | internal/policy/redis.go:22-30 | For calls in the order of their times: a call answers as the log does iff no admission of its window lies at or before the latest start of a window already trimmed to, or went with an expired key |
| `SlidingWindows.HorizonMoves` | internal/policy/redis.go:22-27 | Each call moves that horizon to the start of its own window, if later |
| `SlidingWindows.SmallerWindowForgets` | internal/policy/redis.go:22 | Witness: a call with a smaller window trims what a larger one still counts, and four get in under a limit of two |
| `SlidingWindows.LateClockExceedsTheLimit` | internal/policy/redis.go:22 | Witness: after a call ten seconds later, one whose clock is six seconds behind is the third in its window under a limit of two |
| `SlidingWindows.CollidingMembersExceedTheLimit` | internal/policy/redis.go:26 | Witness: with equal members a limit of two admits three in an instant |
| `LimiterRuns.FinishIsCheckAll` | internal/policy/redis.go:114-178 | The levels of one call with nothing in between are what the limiter's method does |
| `LimiterRuns.RepliesExact` | internal/policy/redis.go:16-31 | In every interleaving from an empty database, all replies are those of a limiter that keeps every admission iff no run of the script has lost an admission of its window |
| `LimiterRuns.HorizonExact` | internal/policy/redis.go:16-31 | In every interleaving with new members and the calls on each key in the order of their times, with any windows, all replies are the log's iff no call's window reaches past the horizon to an admission |
| `LimiterRuns.RunIsIdeal` | internal/policy/redis.go:114-178 | Where all replies are the log's, every call has the verdicts and counts of that limiter, and the same is admitted |
| `LimiterRuns.LimiterIsIdeal` | internal/policy/redis.go:16-31 | With one window per key, new members, calls on each key in the order of their times and clocks within a second, trimming and expiry are invisible |
| `LimiterRuns.FaithfulThroughout` | internal/policy/redis.go:16-31 | From any state that represents its logs, such runs keep the bound of each key's least window, overlapping calls and lost replies included |
| `LimiterRuns.NewStampsAreNew` | internal/policy/redis.go:26 | Members are new in every interleaving in which no two calls print their time alike, whatever the random draws |
| `LimiterRuns.SlidingWindowBound` | internal/policy/redis.go:16-31 | In every interleaving with the calls on each key in the order of their times, no half-open window of a key's least length holds more admissions than its largest limit |
| `LimiterRuns.StampedWindowBound` | internal/policy/redis.go:16-31 | The same bound from the printed times alone: members are new because no two calls print their time alike |
| `LimiterRuns.LaggingBound` | internal/policy/redis.go:16-31 | In every interleaving, whatever the order, windows shorter by the difference of the clocks keep the limit |
| `RateLimiting.CheckAllIsIdealAll` | internal/policy/redis.go:129-178 | A call whose replies are those of its logs has their verdict and counts, level by level up to the first denial |
| `RateLimiting.CallVerdictExact` | internal/policy/redis.go:129-178 | Such a call on Redis is refused at the first level without room in its log or without an answer, and not refused if all pass |
| `RateLimiting.RedisRateLimiter.AllowVerdictExact` | internal/policy/redis.go:114-178 | That is what `Allow` decides, whose levels never share a key |
| `LimiterRuns.FinishIsIdealAll` | internal/policy/redis.go:129-178 | Such a call leaves in the logs of its levels what a limiter that keeps everything would |
| `LimiterRuns.CallChargesExact` | internal/policy/redis.go:129-178 | A level of such a call is charged one admission iff all levels before it pass and its own script admits, also when the reply is lost |
| `LimiterRuns.SameRepliesExact` | internal/policy/redis.go:22-30 | The replies of a call are those of its logs iff none of its levels misses an admission of its window |
| `RateLimiting.SnapshotExact` | internal/policy/redis.go:133-142 | A checked level reports its limit and what is left of its window after the call |
| `RateLimiting.CheckOnceExact` | internal/policy/redis.go:217-241 | One level in full: arguments of the script, the key it touches, verdict and snapshot, errors included |
| `RateLimiting.RetryAfterExact` | internal/policy/redis.go:200-205 | The suggested wait is the window over the limit in whole nanoseconds, at least a second, on denials only |
| `RateLimiting.DenialLeavesZero` | internal/policy/redis.go:135-142 | A denial comes with a level that has nothing remaining |
| `RateLimiting.PickMostRestrictive` | internal/policy/redis.go:184-190 | The earliest snapshot with the least remaining |
| `RateLimiting.EffectiveLimit` | internal/policy/redis.go:245-275 | The most permissive limit among the roles, earliest on ties; the default iff no role has one |
| `RateLimiting.RedisRateLimiter.constructor` | internal/policy/redis.go:72-98 | Limits as configured over an empty database |
| `RateLimiting.RedisRateLimiter.ChecksExact` | internal/policy/redis.go:129-178 | Which levels a call is checked at, in order, each with its key spelled out and its limit: from the roles or the default, for the upstream its own or the default |
| `RateLimiting.RedisRateLimiter.ChecksDistinct` | internal/policy/redis.go:129-178 | The levels of one call never share a key |
| `RateLimiting.RedisRateLimiter.ToolKeysSharedExact` | internal/policy/redis.go:147-150 | Two callers can share a tool key iff they are equal or one name is the other up to one of its colons |
| `RateLimiting.RedisRateLimiter.ToolKeysIsolate` | internal/policy/redis.go:150 | Colon-free callers share a key only for the same caller and tool; witness: two callers with a colon that do |
| `RateLimiting.RedisRateLimiter.CheckLimit` | internal/policy/redis.go:217-241 | One run of the script on the level's key; an error denies, whether Redis was not reached or its reply was lost after the script ran |
| `RateLimiting.RedisRateLimiter.RunLevels` | internal/policy/redis.go:129-178 | Caller, tool, upstream in this order, each only if configured and nothing refused yet |
| `RateLimiting.RedisRateLimiter.Allow` | internal/policy/redis.go:114-208 | No result iff no level applies; otherwise denial, most restrictive level, and on denial nothing remaining and a wait of at least a second |
| `Routing.EveryNameRouted` | internal/router/router.go:219-251 | Every name any upstream offers resolves |
| `Routing.RoutedToOwner` | internal/router/router.go:219-251 | A name resolves to the earliest upstream and then the earliest tool that produces it |
| `Routing.RouteExact` | internal/router/router.go:219-251 | A name resolves iff it has an owner; its route leads there under the owner's own name for the tool, from which the prefix and two underscores give the name back, and shows the tool as described |
| `Routing.ListInOrder` | internal/router/router.go:113-122 | The merged list is in the order of the upstreams and within one in the order of its tools |
| `Routing.ListAgreesWithIndex` | internal/router/router.go:113-122 | The merged list has no duplicate names, names exactly the keys that resolve, and shows each tool as routed |
| `RouteTables.RouteTable.constructor` | internal/router/router.go:66-73 | Starts empty |
| `RouteTables.RouteTable.Resolve` | internal/router/router.go:100-109 | The entry of the name, or unknown |
| `RouteTables.RouteTable.ListTools` | internal/router/router.go:113-122 | On a consistent table the loop returns the merged list of a rebuild |
| `RouteTables.RouteTable.AddToolsOf` | internal/router/router.go:222-249 | One upstream's tools join the entries and its own listing, first come first served |
| `RouteTables.RouteTable.RebuildEntriesLocked` | internal/router/router.go:219-251 | Entries and listings become those of the current upstreams |
| `RouteTables.RouteTable.AddUpstreamLocked` | internal/router/router.go:275-282 | A new upstream at the end, prefixed by its name and without tools; nothing is rebuilt |
| `RouteTables.RouteTable.RemoveUpstream` | internal/router/router.go:289-301 | The first upstream of that name is taken out and the table rebuilt |
| `RouteTables.RouteTable.CommitRefresh` | internal/router/router.go:156-170 | Discovered tools replace the old ones, failures only mark stale, then a rebuild |
| `RouteTables.RouteTable.CommitUpstream` | internal/router/router.go:200-214 | The same for one upstream; a failure rebuilds nothing |
| `RouteTables.RebuildIsConsistent` | internal/router/router.go:219-251 | A rebuild is its own rebuild and changes no upstream's tools |
| `RouteTables.CommitAllExact` | internal/router/router.go:159-170 | After a refresh each upstream has the tools of its last discovery, is stale iff its last result failed, and is otherwise as before |
| `RouteTables.CommitOneExact` | internal/router/router.go:203-212 | The same for a refresh of one upstream |
| `RouteTables.CommittedToolResolves` | internal/router/router.go:159-170 | Then a tool whose name no earlier upstream or tool produces resolves to the upstream that offers it, under its own name |
| `RouteTables.CommittedUpstreamResolves` | internal/router/router.go:208-212 | The same for a refresh of one upstream |
| `RouteTables.AddExact` | internal/router/router.go:275-282 | A new upstream comes last, prefixed by its name, without tools; all others stay as they are |
| `RouteTables.AddIsConsistent` | internal/router/router.go:275-282 | Adding without rebuilding leaves the table the rebuild of its list |
| `RouteTables.StepKeepsInv` | internal/router/router.go:127-301 | Each step, with discovery outside the lock, keeps the table the rebuild of the current list and brings no removed upstream back |
| `RouteTables.TableIsRebuild` | internal/router/router.go:127-301 | So does every interleaving; list and index agree throughout |
| `RouteTables.NewIsConsistent` | internal/router/router.go:66-97 | A new table, configured with any prefixes and after its first refresh, is where such runs start |
| `RouteTables.RoutesAreCurrent` | internal/router/router.go:219-251 | Every route leads to an upstream of the current list |
| `RouteTables.RemovalTakesFirst` | internal/router/router.go:293-299 | Removal takes out the first upstream of that name and keeps the rest in order |
| `RouteTables.RemovalKeepsTools` | internal/router/router.go:289-301 | An unknown name removes nothing, and no removal touches what an upstream offers |
| `RouteTables.RemovedIsNeverRouted` | internal/router/router.go:156-170 | A removed upstream is never routed to again, even if a refresh that was discovering it commits later |
| `RouteTables.FailedRefreshChangesNothing` | internal/router/router.go:159-170 | A refresh whose discoveries all fail leaves what every name resolves to and the list of tools as they were |
| `RouteTables.FailedUpstreamChangesNothing` | internal/router/router.go:203-206 | So does a failed refresh of one upstream |
| `Proxying.ShownMembers` | internal/proxy/proxy.go:116-159 | A listed tool is shown iff the caller is anonymous, or may access it and its upstream needs no connection or has one |
| `Proxying.NeedsExact` | internal/proxy/proxy.go:140-147 | The providers a caller still has to connect |
| `Proxying.ShownConcat` | internal/proxy/proxy.go:121-149 | Filtering keeps the order of the merged list |
| `Proxying.Handler.FilteredToolsWithPending` | internal/proxy/proxy.go:116-159 | The shown tools in list order; pending providers are exactly those of accessible tools on unconnected upstreams, with their URLs |
| `Proxying.FilterAccessible` | internal/proxy/proxy.go:120-128 | The loop keeps exactly the accessible tools, in order |
| `Proxying.FilterConnected` | internal/proxy/proxy.go:131-149 | The loop keeps the connected tools and collects each missing provider once |
| `Proxying.Handler.HandleToolsCall` | internal/proxy/proxy.go:172-282 | The decision: bad name, access, unknown tool, rate limit, token, and only then forwarding |
| `Proxying.DecideExact` | internal/proxy/proxy.go:183-282 | Exactly when a named call is denied, unknown, rate limited, without a token, or forwarded, and to whom with which fields |
| `Proxying.NamelessIsInvalid` | internal/proxy/proxy.go:178-181 | A call is invalid iff it names no tool |
| `Proxying.ShownToolIsCallable` | internal/proxy/proxy.go:189-217 | A call of a shown tool is forwarded iff its name is not empty, to the annotated upstream, under the name that upstream advertised, other fields unchanged |
| `Proxying.NamelessToolIsShown` | internal/proxy/proxy.go:178-181 | Witness: a tool without a name on an upstream without a prefix is shown, and its call is refused as invalid |
| `Proxying.CallableToolIsListed` | internal/proxy/proxy.go:116-159 | A forwarded call names a listed, accessible tool, which is shown iff its upstream is connected |
| `ServerSentEvents.SSEReader.Scan` | internal/transport/sse.go:42-43 | The next line without its line ending, unless the text is over or the line does not fit the buffer |
| `ServerSentEvents.SSEReader.Err` | internal/transport/sse.go:66-68 | After the last line, whether it was a long line or a read error that stopped it |
| `ServerSentEvents.SSEReader.Next` | internal/transport/sse.go:38-76 | The loop returns the next event and leaves the lines after it, or the error, or end of stream |
| `ServerSentEvents.LinesInvertText` | internal/transport/sse.go:42-43 | Printed lines are delivered as printed |
| `ServerSentEvents.LinesInvertCRLF` | internal/transport/sse.go:42-43 | Lines ended by CRLF come without it |
| `ServerSentEvents.LastLineUnterminated` | internal/transport/sse.go:42-43 | A last line without its newline is delivered too |
| `ServerSentEvents.FieldExact` | internal/transport/sse.go:53-62 | What a field line does, with a space after its colon or none |
| `ServerSentEvents.LongLineCutsOff` | internal/transport/sse.go:32 | A line too long for the buffer ends the reading after the lines before it, with an error |
| `ServerSentEvents.JoinFromEmpty` | internal/transport/sse.go:56-61 | Joining the data lines of a text gives it back without its leading newlines |
| `ServerSentEvents.ReadAllIgnoresNoise` | internal/transport/sse.go:53-63 | Comment, id, retry and other lines inserted anywhere change nothing |
| `ServerSentEvents.BlankIgnored` | internal/transport/sse.go:46-51 | So do blank lines between events |
| `ServerSentEvents.EndExact` | internal/transport/sse.go:66-75 | How reading ends: error first, else the event under construction, else end of stream |
| `ServerSentEvents.ReadPrinted` | internal/transport/sse.go:38-76 | Reading a print gives the events, each as `ReadBack` has it, then the end or the error |
| `ServerSentEvents.ReadUnfinished` | internal/transport/sse.go:66-75 | Without the final blank line the last event is still read at the end of the stream, and lost at an error |
| `ServerSentEvents.ReadCarried` | internal/transport/sse.go:38-76 | The same for every text carrying the events, with noise and with or without the final blank line |
| `ServerSentEvents.ReadBroken` | internal/transport/sse.go:66-75 | If an error follows instead of the end, exactly the events closed by their blank line are read |
| `ServerSentEvents.RoundTripExact` | internal/transport/sse.go:38-76 | The very events come back iff no event's data begins with a newline |
| `ServerSentEvents.LeadingNewlineIsLost` | internal/transport/sse.go:57-60 | Witness: two prints that read the same |
| `StdioRestarts.StdioTransport.constructor` | internal/transport/stdio.go:47-63 | Not started, nothing counted |
| `StdioRestarts.StdioTransport.StartChild` | internal/transport/stdio.go:67-100 | The command in hand is replaced whether or not the new one starts; a child it stood for is not killed |
| `StdioRestarts.StdioTransport.KillChild` | internal/transport/stdio.go:327-356 | The child in hand, if any, has ended and none is in hand |
| `StdioRestarts.StdioTransport.EnsureRunning` | internal/transport/stdio.go:124-148 | Refuses after permanent failure, reuses a live child, otherwise reaps the dead one and starts another |
| `StdioRestarts.StdioTransport.BeginRestart` | internal/transport/stdio.go:238-267 | Counts the restart, gives up past the budget, otherwise doubles the backoff up to a minute and sleeps |
| `StdioRestarts.StdioTransport.EndRestart` | internal/transport/stdio.go:268-316 | Refuses after Close, otherwise starts a child in place of whatever is in hand; a ping that times out kills it |
| `StdioRestarts.StdioTransport.ResetBackoff` | internal/transport/stdio.go:320-323 | Clears count and backoff and nothing else |
| `StdioRestarts.StdioTransport.Close` | internal/transport/stdio.go:359-372 | Closed, and the child in hand has ended; a second Close changes nothing |
| `StdioRestarts.StdioTransport.RoundTrip` | internal/transport/stdio.go:152-200 | A request that nothing interrupts is its locked regions back to back, with what it slept |
| `StdioRestarts.ResultExact` | internal/transport/stdio.go:152-200 | Exactly when an uninterrupted request is answered, sent or failed, from the transport, the budget and what the children do; an answer clears count and backoff; it gives up iff it needs a restart beyond the budget |
| `StdioRestarts.EndRestartExact` | internal/transport/stdio.go:268-316 | The second half of a restart, field by field, for every outcome of start and ping |
| `StdioRestarts.StepKeepsInv` | internal/transport/stdio.go:152-280 | Every locked region keeps count, backoff and permanent failure consistent, and a closed transport without a child in hand |
| `StdioRestarts.BackoffIsCappedPower` | internal/transport/stdio.go:241-257 | In every interleaving restart count n within the budget means a backoff of min(2^(n-1), 60) s |
| `StdioRestarts.StartsExactly` | internal/transport/stdio.go:124-136 | Which steps start a child |
| `StdioRestarts.ClosedStartsNothing` | internal/transport/stdio.go:270-272 | No child is started after Close, in any interleaving |
| `StdioRestarts.GivenUpStartsNothing` | internal/transport/stdio.go:125-127 | Nor after permanent failure with nobody asleep |
| `StdioRestarts.GivenUpExact` | internal/transport/stdio.go:265-276 | After permanent failure some run starts a child iff the transport is open and a request sleeps |
| `StdioRestarts.SleeperOutlivesGivingUp` | internal/transport/stdio.go:265-276 | Witness: such a state is reachable |
| `StdioRestarts.OrphansExact` | internal/transport/stdio.go:265-276 | In every interleaving the children running besides the one in hand are exactly those a woken sleeper replaced |
| `StdioRestarts.CloseLeavesExact` | internal/transport/stdio.go:359-372 | Close leaves no child running iff no sleeper ever woke on an open transport to a child started meanwhile |
| `StdioRestarts.ChildSurvivesClose` | internal/transport/stdio.go:265-276 | Witness: three starts, one child still running after Close |
| `StdioRestarts.SequentialCloseLeavesNone` | internal/transport/stdio.go:152-200 | For requests one after another Close leaves no child running |
| `StdioRestarts.SleepBudget` | internal/transport/stdio.go:152-323 | For requests one after another, the sleep between two replies is at most the sum of min(2^(k-1), 60) for k up to the budget |
| `StdioRestarts.TenRestartsCost` | internal/transport/stdio.go:60 | For the built-in ten restarts that is 303 s |
| `StdioRestarts.GivenUpIsFinal` | internal/transport/stdio.go:125-127 | For requests one after another, permanent failure changes nothing any more and starts nothing |

## Left out

- OIDC, session cookies and the Authorization header: they rest on cryptography and remote services; the model starts at the key's hash.
- Glob matching, JSON and SQL text: a match predicate, a map of fields and three tables stand for them. Case-insensitive matching of the JSON field `name` is not modelled.
- The order of role rows: the tables keep them in insertion order; the source's query fixes none, and authentication reorders them.
- Reads that are never cached (ListCallers, GetCaller, ListKeys, KeyCountForCaller), hit counters and Stats: easy members.
- A TTL of zero, for which the program installs no cache at all.
- The Postgres store: it has the same tables, and its SQL differs little; where SQLite passes over a role for a caller deleted meanwhile, Postgres fails the statement, which the cluster has as `EnsureFail`.
- Lost notifications in the cluster: `Clusters` delivers every message; `Staleness` covers losses with the TTL bound, and there provisioning is the writes AddCaller and AssignRole one after another.
- Requests whose writes into one shared caller object overlap: each authentication here is one step.
- Retries.BackoffBound: durations are exact reals and not 64-bit floats, without infinities; a product beyond 64 bits converts to the least integer, as on amd64.
- Outages.OutageBound: needs a threshold of at least one, a positive cooldown and a clock that does not go back, which configuration and the monotonic clock provide.
- LimiterRuns.NewStampsAreNew: the text of a time is a parameter; Lua prints numbers with fourteen digits, so times within the same hundred microseconds may be printed alike.
- RateLimiting.EffectiveLimit: rates are exact reals.
- The local token-bucket limiter and its per-caller registration: a foreign library does its counting, and it picks effective limits differently, so no equivalence holds.
- Resolving and sanitizing configured prefixes: an easy loop over characters; the theorems hold for any prefix.
- Upstream objects in the route table are ids into a map rather than references; the unlocked read of the upstream list counts as one snapshot.
- Tool discovery itself, the refresh report and background timers.
- The response half of a tool call: streaming, headers, audit records, tracing and metrics.
- ServerSentEvents.SSEReader.Next: calls after it has returned an error repeat the error; the scanner would deliver the start of an overlong line.
- Processes, pipes, signals, the startup ping's goroutine and the skipping of non-JSON output: their outcomes are parameters; a killed or reaped child counts as ended.
- Health checks, the HTTP transport, admin interface, command line, TLS and configuration validation.
