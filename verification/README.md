# dilu-go-kit: the stateful cores, modelled and proved in Dafny

dilu-go-kit is a Go service kit. Most of it connects frameworks; this project models the
small concurrent and stateful algorithms inside it and proves what they guarantee over
every run, every interleaving and every input.

Run `dafny verify dfyconfig.toml` in this directory to check everything.

| file | what it models |
|---|---|
| `EtcdLeases.dfy` | Register, the re-registering keepalive loop, Deregister and Close racing over two maps and etcd |
| `EtcdEntries.dfy` | when an entry of the lease table has its key in etcd |
| `EtcdLoops.dfy` | every table entry keeps exactly one keepalive loop; what undisturbed calls achieve |
| `EtcdWatch.dfy` | the etcd watch: snapshots and incremental events turned into one event log |
| `Components.dfy` | dependency ordering: a three-colour depth-first search with two errors |
| `Lifecycle.dfy` | registering, starting with reverse rollback, and stopping components |
| `Breaker.dfy` | the circuit breaker with permits that come back late, in any order, or never |
| `RateLimit.dfy` | the sharded in-memory rate limiter and both of its evictions |
| `Upstreams.dfy` | the upstream watcher with its bounded last-known-good fallback |
| `Resolver.dfy` | round robin over a uint64 ticket counter |
| `Consumer.dfy` | the stream consumer's polling loop: backoff, report suppression, recovery counts |
| `Readiness.dfy` | concurrent readiness probes with a cache and checks that may outlive their probe |
| `ConsulWatch.dfy` | the Consul watch: difference of successive responses |
| `Versions.dfy` | the lock-free generator of migration versions |
| `LimitedBody.dfy` | the byte-limited response body |
| `IdentityCsv.dfy` | the identity lists printed by the gateway and parsed by the service |
| `Services.dfy`, `GoStrings.dfy`, `Slices.dfy`, `Options.dfy` | service instances, keys and canonical lists; the string functions used; filtering loops; shared datatypes |

**Shape.** Where the Go code is an object changed in place, the model is a class whose
methods have the branches of the Go methods; each method's `ensures` ties the new state to
a function on values. Where several goroutines share that object, a state machine
interleaves the locked blocks, atomic operations and remote calls (one step each) and the
guarantees are lemmas about every run of that machine. `Next` and `Exec` always mean one
step and a whole run.

**Assumed.** The clock does not run backwards (`RateLimit`, `Upstreams`; `Versions` does
not need it). Etcd lease IDs are non-zero and never reused, and every store write is
atomic. A call whose function panics never returns its breaker permit. A timer does not
fire before the instant it is armed for.

**What the code does that its comments or a first reading do not say.** The model follows
the code; each of these is a lemma.

- A table entry of the etcd registry may have no key: a Deregister between a Register's Put
  and its locked block deletes the key and finds no entry (`TableEntryWithoutKey`);
  `EntryHasKey` says exactly when an entry has its key. A Put
  that took effect but failed, followed by a failed Revoke, leaves a key that only its TTL
  removes (`FailedCallsLeaveGhost`). A re-registering loop never revokes the lease it
  replaces; that lease never holds a key again (`NoGhostRegistration`).
- The etcd watch drops the event for an unusable value put over a known instance; the
  receiver keeps the old instance until a delete or the next snapshot (`WatchReplay`,
  `UnusableOverwriteIsMissed`). The variable `restart` in `Watch` is never false, so the
  loop ends with its context only.
- AddComponent's comment says components start in registration order; they start in
  dependency order, which is registration order if and only if that respects the
  dependencies (`RegistrationOrderKept`, `NotInRegistrationOrder`).
- Components are left running by a second complete start, which overwrites the list of the
  first, and by a stop before the start, which uses up the only stop (`EveryStartStopped`).
- A probe permit of the breaker that is never returned shuts it for good
  (`LostProbeShutsBreaker`), and a permit exactly 2^64 epochs old looks current
  (`LooksCurrent`).
- Round robin panics for most tickets from 2^63 on (`IndexInRange`).
- The Consul watch lets a receiver diverge for good when one response lists an ID twice
  (`DiffExact`, `UnchangedResponseIsSilent`).
- The comment on SetReadinessCacheTTL promises that a negative value runs checks on every
  probe; a probe right after a successful one may answer `false` without running any
  (`FalseWithoutFailure`). It runs them exactly when no check goroutine is outstanding
  (`DisabledCacheDecides`).
- The version generator wraps once the shared value is the largest int64 (`WrapsAtMax`).

## Model

| member | source | states |
|---|---|---|
| EtcdLeases.LeaseTable.Publish | contrib/registry/etcd/registry.go:161-166 | Register's locked block: both maps get the new lease and cancel function, the old ones are handed out |
| EtcdLeases.LeaseTable.Swap | contrib/registry/etcd/registry.go:226-231 | the keepalive loop's locked block: the lease is replaced exactly when the entry still holds the lease the loop owns |
| EtcdLeases.LeaseTable.Take | contrib/registry/etcd/registry.go:260-271 | Deregister's locked block: the entry leaves both maps, its context is cancelled, its lease is handed out |
| EtcdLeases.LeaseTable.TakeAll | contrib/registry/etcd/registry.go:437-447 | Close's locked block: every context is cancelled, every lease handed out, both maps empty |
| EtcdLeases.NoGhostRegistration | contrib/registry/etcd/registry.go:143-287 | in every interleaving, with failing calls and expiring leases, a present key belongs to its table entry's lease, to a lease some operation still publishes or revokes, or to one lost to a failed call; never to a lease a loop has replaced |
| EtcdLeases.LeasesConserved | contrib/registry/etcd/registry.go:143-456 | every live lease is in exactly one place: the table, exactly one operation, the replaced ones, or the abandoned ones |
| EtcdLeases.QuietKeys | contrib/registry/etcd/registry.go:143-287 | with nothing in flight, a present key belongs to its table entry if and only if its lease was not abandoned |
| EtcdLeases.QuietAbsent | contrib/registry/etcd/registry.go:249-287 | with nothing in flight and no abandoned lease alive, an instance without an entry has no key |
| EtcdLeases.CleanRunLeavesNoGhost | contrib/registry/etcd/registry.go:143-287 | when every granted lease reaches its caller and every Revoke takes effect (Puts and Deletes may fail), once nothing is in flight no instance outside the table has a key |
| EtcdLeases.SingleKeepaliveOwner | contrib/registry/etcd/registry.go:159-271 | both maps have the same keys, and an uncancelled loop that nobody is about to cancel is the only one of its instance, is the one the table names, and owns the recorded lease |
| EtcdLoops.EntryKeepsLoop | contrib/registry/etcd/registry.go:207-247 | in every reachable state an entry's cancel function has not been called, and exactly one loop tends the entry, holding that function and the recorded lease; failed re-registrations never end it |
| EtcdLoops.LoopRenews | contrib/registry/etcd/registry.go:217-239 | from any reachable state, an interrupted loop whose next grant and Put succeed gives its entry a new lease and its key, and goes on |
| EtcdLoops.RegisterEnters | contrib/registry/etcd/registry.go:154-166 | from any reachable state, an undisturbed Register puts the key, enters its lease and keeps the displaced one to revoke |
| EtcdLoops.DeregisterRemoves | contrib/registry/etcd/registry.go:260-280 | from any reachable state, an undisturbed Deregister leaves no entry, no key and no lease, and has cancelled the loop |
| EtcdLoops.CloseEmpties | contrib/registry/etcd/registry.go:437-447 | in every reachable state Close's locked block leaves both maps empty, every entry's loop cancelled, and all recorded leases for Close to revoke |
| EtcdLeases.RenewalReplacesOwnLease | contrib/registry/etcd/registry.go:226-240 | a loop's locked block creates and removes no entry and changes only the entry that holds the lease the loop owns |
| EtcdLeases.RunKeeps | contrib/registry/etcd/registry.go:143-456 | the invariant behind these, over every run |
| EtcdEntries.EntryHasKey | contrib/registry/etcd/registry.go:143-287 | for every run, a table entry has its key if and only if its lease is alive and no Delete of the key and no Put of another lease under it took effect after its own Put |
| EtcdEntries.PutKeyStays | contrib/registry/etcd/registry.go:199-204 | a key put under a lease stays attached to it as long as the lease lives and nobody deletes the key or puts it again |
| EtcdEntries.RunSeats | contrib/registry/etcd/registry.go:143-287 | over every run, what has happened to a lease's key tells whether the lease may be published and whether it holds the key |
| EtcdLeases.TableEntryWithoutKey | contrib/registry/etcd/registry.go:154-175 | a reachable quiet state, without any failure, where the condition of EntryHasKey fails: a table entry and no key |
| EtcdLeases.FailedCallsLeaveGhost | contrib/registry/etcd/registry.go:200-203 | a reachable state with a key and neither an entry nor an operation |
| EtcdWatch.EtcdWatcher.SendEvent | registry/registry.go:765-772 | an event is appended to the log exactly while the receiver accepts |
| EtcdWatch.EtcdWatcher.SendCurrent | contrib/registry/etcd/registry.go:346-360 | the snapshot's puts merge the usable instances into the receiver's view, a prefix of them when cut off |
| EtcdWatch.EtcdWatcher.SendGone | contrib/registry/etcd/registry.go:361-367 | the log grows by exactly one delete for each known instance missing from the snapshot, and by no other event; cut off, by those of a proper subset |
| Services.DeletesRemove | contrib/registry/etcd/registry.go:361-367 | such deletes remove exactly those instances from a receiver's view, in any order |
| EtcdWatch.EtcdWatcher.Reconcile | contrib/registry/etcd/registry.go:346-368 | after the snapshot half the folded log equals `known` equals the snapshot's usable instances |
| EtcdWatch.EtcdWatcher.Forward | contrib/registry/etcd/registry.go:379-389 | one event changes `known` and the log alike, or neither when it is dropped |
| EtcdWatch.EtcdWatcher.Deliver | contrib/registry/etcd/registry.go:378-390 | the log grows by the translated events and folds to `known`; cut off, by those of a proper prefix |
| EtcdWatch.EtcdWatcher.Run | contrib/registry/etcd/registry.go:342-409 | over any number of interruptions the folded log equals `known`, which is what the last connection determines |
| EtcdWatch.AnnouncedExactly | contrib/registry/etcd/registry.go:348-355 | a stored value is announced, unchanged, if and only if it stands under the key of its own ID, which is valid, and has the watched name |
| EtcdWatch.MirrorsRegistered | contrib/registry/etcd/registry.go:342-409 | to mirror the store is to hold a service under an ID if and only if it is registered there under its own key and name |
| EtcdWatch.DeleteFromEither | contrib/registry/etcd/registry.go:420-431 | which instance a delete event names, and when it is dropped |
| EtcdWatch.SnapshotMirrors | contrib/registry/etcd/registry.go:346-368 | a prefix read makes the watcher know exactly what the store announces |
| EtcdWatch.EventLags | contrib/registry/etcd/registry.go:414-434 | one write and its event, with or without the previous value, keep the watcher equal to the store except for instances overwritten with unusable values |
| EtcdWatch.StreamLags | contrib/registry/etcd/registry.go:378-390 | the same over any gapless stream |
| EtcdWatch.StreamFollows | contrib/registry/etcd/registry.go:378-390 | for one instance, over any gapless stream, the watcher agrees with the store unless a usable value was overwritten by one unusable now, with no delete in between |
| EtcdWatch.WatchReplay | contrib/registry/etcd/registry.go:342-409 | after a connection the watcher knows exactly what the store announces if and only if no such overwrite stands in the store and the writes received |
| EtcdWatch.ReceiverHolds | contrib/registry/etcd/registry.go:342-409 | after a connection, for each instance not hidden by an unusable overwrite, the receiver holds a service if and only if the store has it registered |
| EtcdWatch.UsableValuesMirror | contrib/registry/etcd/registry.go:342-409 | when every value stored or written is usable, the watcher knows exactly what the store announces |
| EtcdWatch.UnusableOverwriteIsMissed | contrib/registry/etcd/registry.go:415-419 | any unusable value put over a known instance sends nothing and breaks the mirror |
| Services.KeyRoundTrip | registry/registry.go:658-665 | under a service's prefix, the keys that parse to an ID are exactly those written for it |
| Services.KeysDistinct | registry/registry.go:658-660 | valid services share a key only when name and instance agree |
| Services.IdLengths | registry/registry.go:757-762 | IDs of one to 256 bytes and names of one to 128 without slash, line break or NUL are the valid ones |
| Services.NormalizeServices | registry/registry.go:616-643 | map, sort and copy compute the canonical list |
| Services.SortedKeys | registry/registry.go:633-637 | the IDs come out strictly sorted and complete, whatever order the map is visited in |
| Services.NormalizeCanonical | registry/registry.go:616-643 | the canonical list is strictly sorted and holds, of each ID, exactly the last instance |
| Services.LastOfEachId | registry/registry.go:616-622 | an instance is in the canonical list if and only if it stands in the given one and nothing after it has its ID |
| GoStrings.LessIsLexicographic | registry/registry.go:637 | the sort order: the first difference decides, and a proper prefix comes first |
| Services.NormalizeIdempotent | registry/registry.go:616-622 | normalizing twice changes nothing |
| Services.NormalizeIgnoresOrder | registry/registry.go:616-622 | lists with distinct IDs that are permutations of each other normalize alike |
| Components.OrderComponents | boot/components.go:11-53 | succeeds if and only if every trimmed non-blank dependency exists and the graph is acyclic; the result is a permutation with dependencies first, and stable; an error names a real cycle or a really unknown dependency |
| Components.NeedsPadded | boot/components.go:29-33 | a component needs exactly the non-empty names its entries say once the space around them is taken away |
| Components.PaddedBefore | boot/components.go:29-44 | in an order with dependencies first, the component named by an entry, however padded with space, stands before |
| GoStrings.TrimSpaceIsCore | boot/components.go:30 | the trimmed string is the one string without space at its ends of which the input is a padding |
| GoStrings.AsciiSpaces | boot/components.go:30 | the six ASCII characters that count as space |
| Components.Orderer.Visit | boot/components.go:19-46 | one visit keeps the search sound, finishes the component, and appends only what it reaches |
| Components.Orderer.VisitDependencies | boot/components.go:28-42 | after the loop every dependency of the component is finished, and an error is justified |
| Components.Orderer.VisitAll | boot/components.go:47-51 | every component ends up in the order, and what stands before one is needed by it or by one registered earlier |
| Components.OrderedIsSound | boot/components.go:43-45 | a finished search refutes unknown dependencies and cycles and orders a permutation |
| Components.JustifiedRefutes | boot/components.go:22-37 | either error refutes that the input can be ordered |
| Components.PathRunsBackwards | boot/components.go:43-45 | in an order with dependencies first, every dependency path runs strictly towards the front |
| Components.RegistrationOrderKept | boot/components.go:8-10 | a stable order with dependencies first is the registration itself if and only if the registration respects the dependencies |
| Components.NotInRegistrationOrder | boot/app.go:119-120 | a registration that can be ordered and whose every such order differs from it |
| Lifecycle.App.AddComponent | boot/app.go:121-149 | the three errors, each exactly when, and uniqueness of names kept |
| Lifecycle.App.StartComponents | boot/app.go:667-698 | starts in an order with dependencies first; on a failure what started is stopped in reverse; succeeds exactly when every Start does |
| Lifecycle.App.StartInOrder | boot/app.go:680-697 | the start loop with its rollback, as one entry of the lifecycle log |
| Lifecycle.App.StopAll | boot/app.go:715-719 | one Stop per started component, in reverse start order |
| Lifecycle.App.StopComponents | boot/app.go:700-722 | the first call stops the remembered list, later calls do nothing |
| Lifecycle.StartingIsSafe | boot/app.go:681-692 | at every moment of a start the running components are closed under dependencies |
| Lifecycle.StoppingIsSafe | boot/app.go:715-719 | the same at every moment of a reverse stop, whose Stops all hit the last started component |
| Lifecycle.LifecycleIsSafe | boot/app.go:667-722 | for any sequence of complete starts, failed starts and stops: Stops in reverse start order, and running components always closed under dependencies |
| Lifecycle.CallKeeps | boot/app.go:683-689 | a failed start leaves running exactly what ran before it |
| Lifecycle.EveryStartStopped | boot/app.go:693-722 | nothing is left running if and only if no start completed, or exactly one did and the first stop came after it |
| Breaker.Breaker.constructor | clientx/breaker.go:48-73 | defaults of threshold and cooldown |
| Breaker.Breaker.CurrentState | clientx/breaker.go:165-170 | an open breaker turns half-open when the reading has reached `openUntil` |
| Breaker.Breaker.TakePermit | clientx/breaker.go:107-122 | who gets a permit, and of which kind |
| Breaker.Breaker.ReturnPermit | clientx/breaker.go:124-163 | the whole effect of a completion |
| Breaker.LooksCurrent | clientx/breaker.go:127-129 | an older permit is taken for a current one if and only if a multiple of 2^64 epochs has passed |
| Breaker.StalePermitIgnored | clientx/breaker.go:127-129 | a permit of an older generation changes no field |
| Breaker.BreakerEpochs | clientx/breaker.go:107-170 | over every interleaving: current permits are ordinary when closed, none when open, at most one when half-open, a probe, present exactly when `halfOpenProbe` is set; `failures` counts the errors since the last success |
| Breaker.AdmitsExactly | clientx/breaker.go:107-122 | in every reachable state an attempt gets a permit if and only if the breaker is closed, or open with its time up, or half-open without a probe; the permit is current, and ordinary exactly when closed |
| Breaker.FewErrorsAdmitAll | clientx/breaker.go:107-163 | with fewer counted errors than the threshold every call of a run is admitted |
| Breaker.FailuresOpen | clientx/breaker.go:156-161 | as many counted errors in a row as are missing to the threshold open a closed breaker for the cooldown |
| Breaker.OpensAtThreshold | clientx/breaker.go:130-162 | opens at exactly the counted error that makes the count the threshold; a current permit never meets the exit at line 145 |
| Breaker.OpenAdmitsFrom | clientx/breaker.go:107-122 | an open breaker admits a call if and only if its reading has reached `openUntil`, and then as a probe |
| Breaker.OpenStaysShut | clientx/breaker.go:110-112 | whatever completes late, no attempt of an open epoch gets a permit before that, and no field changes |
| Breaker.LostProbeShutsBreaker | clientx/breaker.go:90-91 | when the probe's permit is never returned, no attempt of any run gets a permit again, whatever the clock says |
| RateLimit.ShardIndex | mid/ratelimit.go:159-168 | the loop computes 32-bit FNV-1a modulo the number of shards |
| RateLimit.FnvVectors | mid/ratelimit.go:159-168 | the hash has FNV-1a's published values for the empty string and "a" |
| RateLimit.RateLimiter.Decide | mid/ratelimit.go:78-108 | the verdict and the one shard it changes |
| RateLimit.RateLimiter.EvictExpired | mid/ratelimit.go:85-89 | an entry stays, unchanged, if and only if its window is not over, whatever order the map is visited in |
| RateLimit.RateLimiter.CleanupExpired | mid/ratelimit.go:145-157 | the same for every shard |
| RateLimit.AlwaysAgrees | mid/ratelimit.go:76-157 | at every moment a client's entry is that of a counter fed with its own requests, and a missing one stands for a window that is over |
| RateLimit.EvictionInvisible | mid/ratelimit.go:76-157 | a request not rejected for capacity gets the verdict of a plain fixed-window counter of that client alone |
| RateLimit.AtMostTwiceMax | mid/ratelimit.go:83-101 | any closed interval of one window's length admits fewer than 2*max requests of a client |
| RateLimit.AdmittedInCounts | mid/ratelimit.go:100-109 | what that bounds is the number of requests of the run in the interval whose verdict is admission |
| RateLimit.TurnedAwayWhenFull | mid/ratelimit.go:84-95 | a client is turned away if and only if it has no entry and its shard is full even after the eviction |
| RateLimit.RejectedExactly | mid/ratelimit.go:84-98 | a client is turned away if and only if it has no entry and the entries whose window is not over number at least maxClients/64+1; otherwise it gets an entry |
| RateLimit.ShardsBounded | mid/ratelimit.go:84-98 | no shard ever holds more than maxClients/64+1 entries |
| Upstreams.UpstreamWatcher.constructor | registry/registry.go:276-329 | the first snapshot is sent without comparison and its expiry armed; cut off by the context, nothing is sent and no timer made |
| Upstreams.UpstreamWatcher.FilterServices | registry/registry.go:386-397 | keeps exactly the accepted services, in order |
| Upstreams.FilteredChosen | registry/registry.go:390-396 | what is kept is exactly what the filter accepts, in order |
| Upstreams.FoundAccepted | registry/registry.go:331-338 | a failed discovery finds nothing; a successful one the last accepted instance of each ID |
| Upstreams.UpstreamWatcher.TakeSnapshot | registry/registry.go:575-592 | what is shown, what is remembered, and for how long |
| Upstreams.UpstreamWatcher.ResetStaleTimer | registry/registry.go:305-323 | stop, drain and reset leave no tick of an earlier arming, and the timer runs and is listened to exactly for a positive duration |
| Upstreams.UpstreamWatcher.ReceiveTick | registry/registry.go:374-375 | the timer case is taken exactly when the select listens and a tick is there, and then no longer listens |
| Upstreams.UpstreamWatcher.Publish | registry/registry.go:331-351 | a failed discovery counts as empty; the expiry is armed anew; a duplicate is not sent |
| Upstreams.RunState | registry/registry.go:575-592 | after any run `lastGood` is the last non-empty discovery and `staleSince` the first reading of the current outage |
| Upstreams.BoundedStaleness | registry/registry.go:286-381 | a fallback shows exactly the last non-empty discovery, is produced only before the outage is `grace` old, and has the expiry timer armed for that very instant |
| Upstreams.ExpiryWithdraws | registry/registry.go:374-379 | when that timer fires and nothing is found, the fallback is withdrawn and the timer stays off |
| Upstreams.AtMostTwoPerOutage | registry/registry.go:340-349 | one outage sends at most two snapshots |
| Upstreams.OutageSendsExactly | registry/registry.go:340-349 | exactly one while the fallback lasts or when there is none, and two afterwards |
| Resolver.Resolver.Resolve | registry/resolver.go:85-102 | an empty list takes no ticket; otherwise the ticket decides the instance, with truncated remainder of a signed value |
| Resolver.IndexInRange | registry/resolver.go:99-101 | no panic if and only if the ticket is below 2^63 or the list length divides its negative value |
| Resolver.CallPicks | registry/resolver.go:89-100 | a call that is not overtaken picks with the next ticket from the list it found, and takes none without instances |
| Resolver.CopyIsPicked | registry/resolver.go:90-101 | a call picks from the list it copied, however the list has changed since |
| Resolver.PicksCounted | registry/resolver.go:85-102 | in any interleaving every index is picked as often as the tickets handed out select it |
| Resolver.RoundRobinIsFair | registry/resolver.go:85-102 | of m picks from an unchanged list of n, every instance gets m/n rounded down or up |
| Resolver.NoPanicBelow | registry/resolver.go:99-101 | every pick of such a run is a valid index |
| Consumer.RunConsumerLoop | contrib/stream/redis/consumer.go:278-351 | the log of reports, waits and recoveries is that of the turn-by-turn specification, each delay being the clamped jitter of the current backoff |
| Consumer.LoopAccounted | contrib/stream/redis/consumer.go:288-349 | attempts = reports + suppressed; what reports told + what is pending = suppressed; after k failures the backoff is min(initial*2^k, max); delays lie in [0, max] |
| Consumer.EndsWithContext | contrib/stream/redis/consumer.go:312-347 | the loop is over if and only if the context ended during a failed poll or during the sleep after one |
| Consumer.CancelledLogsNothing | contrib/stream/redis/consumer.go:312-314 | a failure whose context has ended is neither counted nor reported |
| Consumer.ClampedIsNearest | contrib/stream/redis/consumer.go:321-327 | a jittered delay becomes the nearest one from 0 to the maximum |
| Consumer.RecoveryTellsOutage | contrib/stream/redis/consumer.go:299-310 | an outage ends with exactly one recovery, whose counts and duration are those of its failures and reports |
| Consumer.ReportTellsPending | contrib/stream/redis/consumer.go:316-345 | a failure after k earlier ones of its outage logs the clamped jitter of min(initial*2^k, max) as its wait, and before it at most a report with its number and exactly the failures suppressed since the previous report |
| Consumer.UnjitteredWait | contrib/stream/redis/consumer.go:321-348 | without jitter that wait is min(initial*2^k, max) |
| Consumer.SuppressedOnlyRepeats | contrib/stream/redis/consumer.go:333-343 | a failure is suppressed if and only if the outage's latest report has its key and is less than a report interval old |
| Consumer.KeysTellFailuresApart | contrib/stream/redis/consumer.go:333 | keys are equal if and only if operation and message are |
| Consumer.NextBackoffDoubles | contrib/stream/redis/consumer.go:353-358 | the next backoff is the smaller of the double and the maximum; the doubling carried out never exceeds the maximum |
| Consumer.NormalizeGroupConsumer | contrib/stream/redis/consumer.go:167-219 | the result is within every limit, and a configuration within the limits is left alone |
| Readiness.Prober.Peek | boot/app.go:725-735 | the cache is used exactly when set, enabled, and younger than its time to live |
| Readiness.Prober.Collect | boot/app.go:773-789 | `true` if and only if every check's result arrived before the context's end and was nil; only complete evaluations are cached |
| Readiness.ReceivedVerdict | boot/app.go:775-787 | in the interleaved machine, too, a probe that has received every result is ok if and only if all are nil |
| Readiness.ProbesAreSound | boot/app.go:724-790 | in every interleaving the outstanding checks never outnumber those of one evaluation, and each answer is that of one evaluation (now, or cached for less than the time to live), or `false` because checks are outstanding or the probe gave up |
| Readiness.PassedMeansAllNil | boot/app.go:766-772 | the evaluation an answer refers to passed exactly when all its checks returned nil, and failed only when one returned an error |
| Readiness.LookupAnswers | boot/app.go:725-735 | the first lookup answers if and only if there is a verdict younger than the time to live, two seconds unless set, and with that verdict |
| Readiness.ChecksDrain | boot/app.go:766-789 | a check that returns sends its result and leaves the count, and a probe with all results answers, caches its verdict and frees the mutex |
| Readiness.GivingUp | boot/app.go:783-786 | a probe that gives up answers `false` and caches nothing |
| Readiness.DecisionLaunches | boot/app.go:752-772 | for every reachable state, a probe at the decision launches all checks if and only if no check goroutine is outstanding; otherwise it answers `false` at once |
| Readiness.DisabledCacheDecides | boot/app.go:170-178 | with a negative time to live neither lookup answers, so the probe comes to that decision, where it runs the checks exactly when none is outstanding |
| Readiness.RunUncached | boot/app.go:725-745 | in a run that switches the cache off and leaves it off, no probe is answered from it |
| Readiness.FalseWithoutFailure | boot/app.go:760-762 | a reachable run in which no check ever failed and a probe answers `false` without running one |
| ConsulWatch.ConsulWatcher.Start | contrib/registry/consul/registry.go:430-436 | the log is one put for everything discovered, in order, and `known` is the last of each ID |
| ConsulWatch.ConsulWatcher.SendChanged | contrib/registry/consul/registry.go:465-503 | exactly the usable entries that differ from what was known are put |
| ConsulWatch.ConsulWatcher.SendRemoved | contrib/registry/consul/registry.go:506-514 | the log grows by exactly one delete for each known instance not seen, in any order, and by nothing else |
| ConsulWatch.ConsulWatcher.Poll | contrib/registry/consul/registry.go:442-517 | one turn appends the puts of the response and then one delete per instance gone, and `known` becomes the response |
| ConsulWatch.ConsulWatcher.Run | contrib/registry/consul/registry.go:425-519 | over any number of responses the log is everything discovered followed by one such turn per response |
| ConsulWatch.DiffExact | contrib/registry/consul/registry.go:465-516 | the receiver holds the response afterwards if and only if no ID is listed both as known, last, and differently |
| ConsulWatch.DistinctIdsReplay | contrib/registry/consul/registry.go:465-516 | with distinct IDs one turn takes a receiver from what was known to exactly the response |
| ConsulWatch.LogFolds | contrib/registry/consul/registry.go:425-519 | with distinct IDs in every response, folding the whole event log gives exactly the usable entries of the latest one |
| ConsulWatch.OneEventPerChange | contrib/registry/consul/registry.go:491-514 | with distinct IDs a turn sends exactly one event about each instance that changed and none about any other |
| ConsulWatch.PutsOnlyChanges | contrib/registry/consul/registry.go:495-502 | a put is sent if and only if a usable entry differs from what was known |
| ConsulWatch.UnchangedResponseIsSilent | contrib/registry/consul/registry.go:495-502 | responses that repeat what is known send nothing, so a wrong view stays wrong |
| Versions.Generator.NextVersion | contrib/migrate/postgres/migrate.go:170-181 | against any values other goroutines store, the loop returns what retrying until the loaded value is still there comes to, and leaves it as the shared value |
| Versions.MintedAboveAll | contrib/migrate/postgres/migrate.go:170-181 | when those values increase below the largest int64, the version is not below the clock reading, above every value seen, and either the clock reading or one more than such a value |
| Versions.VersionsDistinct | contrib/migrate/postgres/migrate.go:170-181 | versions of any number of concurrent calls are pairwise distinct and increase in swap order, even with a clock that runs backwards |
| Versions.SwapFailsOnlyBehind | contrib/migrate/postgres/migrate.go:173-179 | in every run a swap fails only when another call has swapped in a larger value since the load; otherwise the call returns its candidate |
| Versions.LoneCallReturns | contrib/migrate/postgres/migrate.go:170-181 | a call that is not overtaken returns the larger of its clock reading and the shared value plus one |
| Versions.RealTimeOrder | contrib/migrate/postgres/migrate.go:170-181 | a call that begins after another has returned gets the larger version |
| Versions.WrapsAtMax | contrib/migrate/postgres/migrate.go:174-176 | the candidate exceeds the shared value if and only if that is below the largest int64 |
| LimitedBody.LimitedResponseBody.Read | clientx/http.go:228-249 | the caller's buffer gets exactly the bytes delivered and keeps the rest; the limit goes down by as many |
| LimitedBody.ReadsPrefix | clientx/http.go:228-249 | for any reader and buffer sizes, at most `limit` bytes of a prefix; end-of-file means the whole body, too-large exactly `limit` bytes of a longer one |
| LimitedBody.FitsExactlyAtEndOfFile | clientx/http.go:235-242 | with a reader that does not fail, a full read ends with end-of-file if and only if the body fits, and with the too-large error if and only if it does not |
| LimitedBody.ReadingEnds | clientx/http.go:228-249 | with a reader that makes progress, reading ends after at most one call more than there are bytes, with the whole body or with the too-large error |
| LimitedBody.FailurePassesThrough | clientx/http.go:232-248 | a reader's failure is passed on unless the byte that proves the body too large came with it; an empty buffer reads nothing |
| IdentityCsv.JoinInt64 | metadata/metadata.go:176-184 | prints the positive numbers in order |
| IdentityCsv.PositivesChosen | metadata/metadata.go:178-182 | the round trip's reference keeps exactly the positive numbers, in order |
| IdentityCsv.ParseInt64CSV | contrib/mid/jwt/jwt.go:353-363 | keeps the parts that parse to a positive int64, clamped as the library clamps |
| IdentityCsv.ParseInt64CSVLaw | contrib/mid/jwt/jwt.go:353-363 | parsing comma-separated parts, each with any space around it, gives the positive numbers among them |
| IdentityCsv.ParseIntClamps | contrib/mid/jwt/jwt.go:357 | a string of digits, with or without sign, parses to its number clamped to the int64 range |
| IdentityCsv.ParseIntRejects | contrib/mid/jwt/jwt.go:357 | a character that is no digit, met before the number overflows, makes the part 0 |
| IdentityCsv.FormatRoundTrip | metadata/metadata.go:174 | a printed positive int64 parses back to itself |
| IdentityCsv.Int64RoundTrip | contrib/mid/jwt/jwt.go:353-363 | for every int64 list, parsing what was printed gives its positive elements in order |
| IdentityCsv.JoinScopes | metadata/metadata.go:186-196 | prints the trimmed scopes it accepts, in order |
| IdentityCsv.KeptChosen | metadata/metadata.go:188-194 | what is printed of a list is what is printed of each value, in order |
| IdentityCsv.ScopeLengths | metadata/metadata.go:190 | plain scopes are kept from one to 128 characters; a longer one, or one with a line break or comma, never |
| IdentityCsv.ParseStringCSV | contrib/mid/jwt/jwt.go:365-374 | keeps the trimmed non-blank parts, in order |
| IdentityCsv.ParseStringCSVLaw | contrib/mid/jwt/jwt.go:365-374 | parsing comma-separated parts, each with any space around it, gives the parts that are not blank; all of them when none is |
| GoStrings.JoinSplit | contrib/mid/jwt/jwt.go:366 | splitting at commas loses nothing and leaves no comma in a part |
| Slices.ChosenConcat | contrib/mid/jwt/jwt.go:368-372 | a filtering loop over two slices in a row gives their results in a row |
| IdentityCsv.ScopesRoundTrip | contrib/mid/jwt/jwt.go:365-374 | for every scope list, parsing what was printed gives the trimmed scopes the printer accepts |

## Left out

- EtcdLeases.NoGhostRegistration: a request takes effect, if at all, before its caller sees the answer; one that the server applies later than that is not modelled.
- EtcdLeases.LeaseTable.TakeAll: waiting for the loops and closing the client at the end of Close are not modelled; both come after the steps that are.
- EtcdWatch.WatchReplay: stored values are already decoded (usable service or not); JSON and address parsing are not modelled.
- Lifecycle.LifecycleIsSafe: a start and a stop run one after the other; a Close during a start is not modelled.
- Lifecycle.App.StartComponents: a Start that times out counts as failed, though its goroutine may go on; error texts are not modelled.
- Readiness.ProbesAreSound: a probe may give up at any moment while results are missing; the two-second timer and the cancellation after the first error are not told apart.
- Upstreams.BoundedStaleness: a Discover call that never returns would block the loop and its timer; discoveries are assumed to return.
- Upstreams.UpstreamWatcher.ResetStaleTimer: a timer that fires while it is being stopped is one that fired just before.
- Upstreams.UpstreamWatcher.Publish: a nil and an empty metadata map are the same value here, so a snapshot differing only in that counts as a duplicate.
- Resolver.RoundRobinIsFair: says nothing from ticket 2^63 on, where IndexInRange applies.
- RateLimit.RateLimiter.Decide: the request count is unbounded; overflow of a 64-bit counter within one window is not modelled.
- Consumer.RunConsumerLoop: the jitter is any function of the backoff, one per turn; the floating-point jitter itself is not modelled.
- LimitedBody.ReadsPrefix: readers honour the io.Reader contract (no more bytes than asked for); the nil body is not modelled.
- Versions.VersionsDistinct: holds while the shared value is below the largest int64 whenever it is loaded; WrapsAtMax says what happens there.
- Breaker.BreakerEpochs: no permit comes back whole multiples of 2^64 epochs late; Do's checks for a nil function and an ended context come before any permit.
- IdentityCsv.Int64RoundTrip: strings are sequences of Unicode scalar values; invalid UTF-8 is not modelled.
- Defensive copies (cloneService and the copied slices): values cannot be aliased here.
- The Random policy of the resolver, and resolution errors other than the empty list.
- The HTTP, gRPC and Gin plumbing, TLS, pprof, metrics, tracing and log output.
- Configuration validation and remote configuration layers: flat branch lists and library behaviour.
- JWT signature verification, Redis commands and the Lua limiter: decided by libraries and servers not shown.
- The retrying HTTP client, paging and the gRPC concurrency policy: true but easy properties.
- SQL migrations, proto files, the example service and the command-line scaffolding.
