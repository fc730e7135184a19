# AIProductivityAgent core — a Dafny model

This project models the infrastructure and monitoring core of the AI
productivity agent:

- **Rate limiter** (`RateLimiting`): the sliding-window admission gate.
- **API access** (`ApiAccess`): per-service configuration and the token life
  cycle of `ApiManager` (no token, valid, expired, re-authenticated). Also
  the fail-fast checks and URL join of `request`.
- **Cache** (`Caching`): the two-tier TTL cache of `CacheManager`.
  - A memory tier and a disk tier.
  - Lazy expiry on read and promotion from disk.
  - Delete, sweep and clear.
  - The hit/miss rule of the `cached` decorator.
- **Event bus** (`Events`): per-type subscriber lists, the bounded FIFO
  history, history filtering, and which callbacks a publication reaches.
- **Usage ledger** (`Usage`): per-API, per-day counters of `ResourceMonitor`
  with running totals, the daily-cost alert rule, threshold updates and the
  summaries.
- **Cost ledger** (`Costs`): the two accumulating maps of `CostAllocation`.
- **Calendar builders** (`Calendar`): the reminder list and the event body
  that `GoogleCalendarClient` builds before it calls the Calendar API.

Two shared modules support them:
- `Common`: `Option`, `Result`, Python truthiness, and the order-preserving
  filter that list comprehensions compute.
- `OrderedMaps`: a dictionary that remembers insertion order, with sums over
  its values.

Modelling conventions:
- The clock is an explicit integer parameter `now`, in whole seconds.
- The day key of the usage ledger is an opaque `Day` string.
- Every external effect is an input. This covers the token endpoint's
  replies (`TokenServer`), how a cache file write ends (`Write`: written,
  open failed, or dump failed after the open truncated the file), a cache
  file that cannot be unpickled (`Corrupt`), the files already in the cache
  directory (`OpenCache`), and the `htmlLink` of the Calendar API reply.
- Money is integer cents. The default thresholds $10, $50 and $150 are
  1000, 5000 and 15000.
- Python raises after it has already changed state; a refused request, for
  example, has still pruned the limiter's window. So operations on the API
  manager return an `Outcome` that pairs the new state with a `Result`.

Where the code and its documented behaviour disagree, the model follows
the code:
- A token exchange answered with a status other than 200 raises nothing and
  stores nothing. `get_token` then returns the expired token it already
  had, or `None` if it had none (`RefusedRefreshReturnsExpiredToken`).
- OAuth client credentials take precedence over a static key. If the
  exchange is refused, the service stays anonymous even when a key is
  configured (`OAuthTakesPrecedenceOverKey`).
- Re-registering a service keeps its stored token (`RegisterApi`).
- An entry promoted from disk into memory does not have its access count
  incremented (`Get`).
- How a failed disk write in `set` ends depends on where it fails
  (`Set`, `FailedWriteAfterRestart`). If `open(path, 'wb')` fails, any older
  file stays, and it can answer again once the new memory entry has expired.
  If the open succeeds, the file is already truncated. A failing
  `pickle.dump` then leaves a file that no longer unpickles, so the key
  reads as absent from disk even if an earlier `set` had written it.
- When the token is non-empty, `request` writes the bearer header into the
  caller's own `headers` dictionary if that dictionary is non-empty, because
  `headers or {}` does not copy it. A caller who reuses the dictionary for a service without
  a token sends the earlier service's token (`Request`,
  `ReusedHeadersCarryEarlierToken`). An empty or missing dictionary is
  replaced by a fresh one, so the caller's object is then left alone.

## Model

| member | source | states |
|---|---|---|
| RateLimiting.NewLimiter | core/infrastructure/api_manager.py:41-51 | A new limiter has the given allowance and period, and an empty window. |
| RateLimiting.Acquire | core/infrastructure/api_manager.py:60-69 | Admits iff fewer than `calls` stamps are strictly newer than `now - period`. An admission stores the surviving stamps plus `now`; a refusal stores only the survivors. The allowance and period never change, and the stored window never exceeds the allowance. |
| RateLimiting.AcquireLeavesFreshStamps | core/infrastructure/api_manager.py:63 | After any `acquire`, every stored stamp is strictly newer than `now - period`. |
| RateLimiting.ExactPeriodBoundary | core/infrastructure/api_manager.py:63 | A stamp exactly one period old no longer counts, and one second earlier it still does. |
| RateLimiting.Replay | core/infrastructure/api_manager.py:60-69 | A run of `acquire` calls yields one verdict per call and keeps the window within the allowance. |
| RateLimiting.PruneTwice | core/infrastructure/api_manager.py:63 | Pruning by an older cutoff and then a newer one equals pruning by the newer one. |
| RateLimiting.AcquireTracksAdmissions | core/infrastructure/api_manager.py:60-69 | With a clock that does not go back, one `acquire` keeps the window equal to the admission times younger than one period. |
| RateLimiting.ReplayTracksAdmissions | core/infrastructure/api_manager.py:60-69 | From an empty window with a non-decreasing clock, the window always holds exactly the admission times younger than one period. |
| RateLimiting.WindowBound | core/infrastructure/api_manager.py:60-69 | With a non-decreasing clock, no more than `calls` admissions fall within the trailing period of the latest call. |
| RateLimiting.ThreeQuickCalls | tests/unit/test_api_manager.py:37-41 | With two calls per minute, three calls in the same second are admitted, admitted, refused. |
| ApiAccess.NewManager | core/infrastructure/api_manager.py:74-78 | A new manager has no services and no tokens, and satisfies the manager invariant. |
| ApiAccess.RegisterApi | core/infrastructure/api_manager.py:100-101 | Stores the configuration and a fresh limiter of `rate_limit` calls per 60 seconds; last registration wins. Other services are unchanged, tokens are kept, and the invariant is preserved. |
| ApiAccess.Authenticate | core/infrastructure/api_manager.py:135-163 | Branches: unknown service is an error; OAuth when both client credentials are set (a 200 reply stores `access_token` until `now + expires_in`, a missing field is a `KeyError`, any other status stores nothing); otherwise a static key is stored for 365 days; otherwise nothing. Only the service's own token can change. |
| ApiAccess.GetToken | core/infrastructure/api_manager.py:114-126 | A stored, unexpired token is returned with no change. With no record, the answer is what `_authenticate` leaves with the first reply. If the record it stores is already expired, the answer is what a second `_authenticate` leaves with the second reply. An expired record is refreshed by `_authenticate` with the first reply. An Ok answer is the token stored afterwards; errors are only unknown-service or missing-field errors; the invariant is preserved. |
| ApiAccess.StaticKeyAuthenticatesOnce | tests/unit/test_api_manager.py:52-57 | A key-only service's first `get_token` returns the key and stores it for a year; any later call within that year returns the key and changes nothing. |
| ApiAccess.ExpiredTokenRefreshedOnce | core/infrastructure/api_manager.py:121-126 | An expired OAuth token is replaced by one exchange. The new token is stored and returned, and no second exchange is made. |
| ApiAccess.RefusedRefreshReturnsExpiredToken | core/infrastructure/api_manager.py:152-157 | A refresh answered with a status other than 200 leaves the tokens unchanged and returns the expired token. |
| ApiAccess.FirstOAuthExchangeStored | core/infrastructure/api_manager.py:114-116 | An OAuth service's first `get_token` with a granted exchange stores `access_token` until `now + expires_in` and returns it, with or without a key configured. |
| ApiAccess.ExpiredStaticKeyRenewed | core/infrastructure/api_manager.py:121-126 | A static key whose year has run out is stored again until `now` plus 365 days, and the key is returned. |
| ApiAccess.OAuthTakesPrecedenceOverKey | core/infrastructure/api_manager.py:139-158 | With OAuth credentials and a key both set, a refused exchange leaves the service anonymous; a successful one returns the OAuth token. |
| ApiAccess.NoCredentialsMeansAnonymous | core/infrastructure/api_manager.py:114-119 | A service with neither OAuth credentials nor a key gets `None` and no record. |
| ApiAccess.WithBearer | core/infrastructure/api_manager.py:203-205 | Sets `Authorization: Bearer <token>` iff the token is non-empty. Every other header is unchanged. |
| ApiAccess.RStripSlash | core/infrastructure/api_manager.py:209 | The result is the longest prefix that does not end in `/`; everything removed is `/`. |
| ApiAccess.LStripSlash | core/infrastructure/api_manager.py:209 | The result is the longest suffix that does not start with `/`; everything removed is `/`. |
| ApiAccess.JoinUrl | core/infrastructure/api_manager.py:209 | The URL is the base without trailing slashes, exactly one `/`, then a suffix of the endpoint that does not start with `/`. |
| ApiAccess.JoinUrlIgnoresExtraSlashes | core/infrastructure/api_manager.py:209 | Any number of slashes at the end of the base or the start of the endpoint give the same URL as none. |
| ApiAccess.Admit | core/infrastructure/api_manager.py:191-197 | An unknown service fails before any limiter is touched. Otherwise the limiter becomes its `acquire` result, and the call passes iff admitted, failing with the rate-limit error otherwise. Configurations and tokens are not touched. |
| ApiAccess.Request | core/infrastructure/api_manager.py:191-209 | A failed gate is the request's failure, with no token fetched. A call that passes carries the verb, the joined URL, the configured timeout and the bearer header of the token stored afterwards. Past the gate, the state, the token sent and any error are exactly what `get_token` gives. It leaves the limiters as the gate left them, with the admission recorded, and changes no other service's token. A non-empty dictionary of the caller's is the one sent, bearer header included; an empty one is left as it was. The rate-limit error occurs iff the gate refused. |
| ApiAccess.ReusedHeadersCarryEarlierToken | core/infrastructure/api_manager.py:203-205 | A non-empty `headers` dictionary reused after a request to a service with a token carries that token to a later request for a service without one. |
| ApiAccess.RequestKeepsValid | core/infrastructure/api_manager.py:191-205 | `request` preserves the manager invariant: one limiter per service, built from its configuration, and tokens only for services. |
| ApiAccess.FirstRequestCarriesKey | core/infrastructure/api_manager.py:195-205 | The first request to a newly registered key-only service is admitted and carries the key as a bearer token, addressed to the joined URL. |
| ApiAccess.HandleResponse | core/infrastructure/api_manager.py:218-219 | A reply fails iff its status is 400 or more; otherwise its body is the result. |
| Caching.ExpiryIsPermanent | core/infrastructure/cache_manager.py:40-42 | `is_expired` never turns false again: an entry expired at some time is expired at every later time. |
| Caching.NewEntry | core/infrastructure/cache_manager.py:24-38 | A new entry has zero accesses, is created and last accessed at `now`, and is expired exactly at times after `now + ttl`. |
| Caching.Access | core/infrastructure/cache_manager.py:44-47 | Access adds exactly one to the count and records `now`; nothing else changes, so expiry is unchanged. |
| Caching.OpenCache | core/infrastructure/cache_manager.py:59-61 | A new manager starts with empty memory, and its disk tier is whatever files the directory already holds. Every entry sits under its own key iff every readable file holds an entry for its own key. |
| Caching.Get | core/infrastructure/cache_manager.py:78-114 | Cases: a live memory hit returns the value and counts one access; otherwise an expired memory entry is dropped, a live disk entry is promoted and returned, an expired one is deleted, and a missing or unreadable one leaves the disk as it was and yields the default. |
| Caching.Cleanup | core/infrastructure/cache_manager.py:161-184 | Memory keeps exactly its live entries; the disk keeps exactly its readable live entries; kept entries are unchanged. |
| Caching.InsertSwept | core/infrastructure/cache_manager.py:128-133 | The entry is stored in memory. Exactly when memory then holds more than 1000 entries, the result is `cleanup` of that state. The new entry stays unless it is already expired; other entries are only ever dropped, never changed, and the disk is only ever thinned. |
| Caching.WriteFile | core/infrastructure/cache_manager.py:136-141 | A written file holds the entry. A dump that fails after the open leaves an unreadable file. A failed open leaves the disk as it was. Memory is not touched. |
| Caching.Set | core/infrastructure/cache_manager.py:116-141 | The new entry is in memory (ttl ≥ 0). On disk it is the entry when written, an unreadable file when the dump failed, and the old file (if any) when the open failed. Other keys are only dropped by the sweep, and without a sweep nothing else changes. This is the corrected `set` (see Findings). |
| Caching.SetSweepIsCleanup | core/infrastructure/cache_manager.py:128-141 | When the insert takes memory past 1000 entries, `set` leaves exactly what `cleanup` leaves, plus the entry's file. |
| Caching.SetAsWritten | core/infrastructure/cache_manager.py:128-133 | As written, `set` returns iff memory after the insert holds at most 1000 entries, and then behaves as the corrected one. |
| Caching.SetAsWrittenDeadlocks | core/infrastructure/cache_manager.py:128-133 | Adding a new key to a memory tier already holding 1000 entries never returns. |
| Caching.SetSweepsWhenFull | core/infrastructure/cache_manager.py:131-133 | In the corrected `set`, a full memory tier is swept. Afterwards memory holds exactly the live entries, unchanged, the new one among them. Every other key keeps its file exactly when the file is readable and live. |
| Caching.SetThenGet | core/infrastructure/cache_manager.py:125-139 | After `set`, `get` returns the value at any time up to `created_at + ttl`. |
| Caching.SetThenRestartThenGet | core/infrastructure/cache_manager.py:100-108 | A value whose file was written is still served from disk by a new manager on the same directory, until it expires. |
| Caching.FailedWriteAfterRestart | core/infrastructure/cache_manager.py:136-141 | After a restart, a second `set` whose dump failed makes the key read as absent, losing the first value. A second `set` whose open failed leaves the first value to be served. |
| Caching.SetThenGetAfterExpiry | core/infrastructure/cache_manager.py:96-110 | Once expired, `get` returns the default and the key is gone from both tiers. |
| Caching.CleanupInvisibleToGet | core/infrastructure/cache_manager.py:161-184 | `get` answers the same with or without a `cleanup` at the same time. |
| Caching.CleanupIdempotent | core/infrastructure/cache_manager.py:161-184 | Sweeping twice at the same time is sweeping once. |
| Caching.Delete | core/infrastructure/cache_manager.py:150-159 | The key leaves both tiers and nothing else changes. |
| Caching.DeleteThenGet | core/infrastructure/cache_manager.py:150-159 | Deleting an absent key changes nothing, and after a delete the key reads as the default. |
| Caching.Clear | core/infrastructure/cache_manager.py:186-195 | Both tiers are empty. |
| Caching.ClearThenGet | core/infrastructure/cache_manager.py:186-195 | After `clear`, every key reads as the default and the cache stays empty. |
| Caching.Cached | core/infrastructure/cache_manager.py:209-219 | A hit is a non-`None` cached value; it does not call the function and changes the cache only as the read does. Otherwise the function's result is returned and stored with the corrected `set`; the `cached` decorator as written inherits the deadlock of `set`. |
| Caching.CachedServesUntilExpiry | core/infrastructure/cache_manager.py:212-218 | A computed non-`None` result is served from the cache, without recomputing, until its TTL runs out. |
| Caching.CachedNoneAlwaysRecomputed | core/infrastructure/cache_manager.py:212-214 | A `None` result whose file could be opened is never a hit: the next call computes again. |
| Events.Level | core/infrastructure/event_system.py:16-21 | Each priority has its numeric value, at most 3. |
| Events.PriorityOrder | core/infrastructure/event_system.py:16-21 | LOW < MEDIUM < HIGH < CRITICAL, and distinct priorities have distinct values. |
| Events.NewEvent | core/infrastructure/event_system.py:23-30 | An event defaults to MEDIUM priority and source "system". |
| Events.NewBus | core/infrastructure/event_system.py:35-39 | A new bus has no subscribers and an empty history. |
| Events.Subscribe | core/infrastructure/event_system.py:50-52 | The callback is appended to the type's list, which is created if needed; duplicates are kept. Other types and the history are unchanged. |
| Events.IndexOf | core/infrastructure/event_system.py:64 | The position of the first occurrence. |
| Events.RemoveFirst | core/infrastructure/event_system.py:64 | Removes exactly one occurrence, the first: the rest is kept in order. |
| Events.Unsubscribe | core/infrastructure/event_system.py:63-64 | A type without a list is a no-op. An absent callback is an error. Otherwise the first occurrence is removed from that type's list, the rest kept in order, and nothing else changes. |
| Events.SubscribeThenUnsubscribe | core/infrastructure/event_system.py:50-64 | Unsubscribing a callback just subscribed once restores the type's list. |
| Events.Record | core/infrastructure/event_system.py:74-76 | The event is appended at the end. The oldest event is dropped exactly when the history would exceed 1000, so the bound is kept. |
| Events.Publish | core/infrastructure/event_system.py:74-81 | Always records the event, even without subscribers. Dispatches to exactly the type's subscribers, in subscription order. Subscriptions are unchanged. |
| Events.HistoryStaysBounded | core/infrastructure/event_system.py:74-76 | However many events are published, the history never exceeds 1000. |
| Events.SubscribeThenPublish | core/infrastructure/event_system.py:78-81 | A new subscriber of the event's type is reached last; a subscriber of another type is not reached. |
| Events.History | core/infrastructure/event_system.py:112-114 | A falsy type gives the whole history. Otherwise exactly the events of that type, all from the history. |
| Events.HistoryAppend | core/infrastructure/event_system.py:112-114 | The history of two stretches is the first stretch's history followed by the second's, so order and every occurrence are kept. |
| Events.HistoryOfOne | core/infrastructure/event_system.py:112-114 | A single event is kept iff the type is falsy or matches. With `HistoryAppend` this fixes the result for every history. |
| Events.PublishThenHistory | core/infrastructure/event_system.py:74-76 | Below the bound, publishing appends the event to its own type's history and leaves other types' histories unchanged. |
| Usage.NewMonitor | core/monitoring/resource_monitor.py:13-19 | A new monitor tracks nothing (no keys, no records, a well-formed ledger), with thresholds of 1000, 5000 and 15000 cents. |
| Usage.Track | core/monitoring/resource_monitor.py:34-73 | Today's calls rise by one and tokens and cost by the given amounts, as do the API's totals. Other days, other APIs and the thresholds are unchanged, and a new API goes last. The call raises a "high" alert iff today's cost is strictly over the daily threshold. |
| Usage.FirstCallCreatesRecord | core/monitoring/resource_monitor.py:38-51 | An API's first call creates a record with a single bucket for today: one call, the tokens and the cost. |
| Usage.TrackRecordConsistent | core/monitoring/resource_monitor.py:53-59 | One call keeps a record's totals equal to the sums of its daily buckets, and adds one to its daily calls. |
| Usage.TrackKeepsSound | core/monitoring/resource_monitor.py:53-59 | Every record keeps totals equal to the sums of its daily buckets. |
| Usage.TrackCountsOnce | core/monitoring/resource_monitor.py:91-104 | Each call adds exactly one to the total API calls, and its tokens and cost to the grand totals. |
| Usage.TrackAllCounts | core/monitoring/resource_monitor.py:91-96 | A run of calls keeps the ledger consistent and adds its length to the total API calls. |
| Usage.FreshLedgerCounts | core/monitoring/resource_monitor.py:91-96 | From a new monitor, the total API calls equal the number of calls tracked. |
| Usage.ApiUsage | core/monitoring/resource_monitor.py:79-89 | One row per tracked API, in first-tracked order, carrying the API's running token and cost totals and the calls of all its daily buckets. |
| Usage.TotalApiCalls | core/monitoring/resource_monitor.py:91-96 | The total is the `daily_calls` column of `get_api_usage` added up. |
| Usage.TotalTokens | core/monitoring/resource_monitor.py:98-100 | On a sound ledger, the sum of the running totals is the tokens of every daily bucket. |
| Usage.TotalCost | core/monitoring/resource_monitor.py:102-104 | On a sound ledger, the sum of the running totals is the cost of every daily bucket. |
| Usage.Alerts | core/monitoring/resource_monitor.py:106-120 | Each alert is "high" for an API whose bucket for today exists and whose cost is strictly over the daily threshold. Every such API is alerted, and the alerts follow ledger order. |
| Usage.AlertsOncePerApi | core/monitoring/resource_monitor.py:111-118 | No API is alerted twice. |
| Usage.TrackAlertListed | core/monitoring/resource_monitor.py:64-73 | The alert a call raises is listed by `get_alerts` for the same day. |
| Usage.UpdateThresholds | core/monitoring/resource_monitor.py:122-129 | Only the thresholds passed as non-`None` change (0 counts as passed); the ledger is unchanged. |
| Usage.RaisedThresholdSilences | core/monitoring/resource_monitor.py:106-129 | Raising the daily threshold to the day's highest cost silences every alert for that day. |
| Costs.NewAllocation | core/monitoring/cost_allocator.py:11-13 | Both maps start empty and well formed, with no keys. |
| Costs.FeatureCost | core/monitoring/cost_allocator.py:55-57 | The stored amount, or 0 for an unknown feature. |
| Costs.CustomerCost | core/monitoring/cost_allocator.py:59-61 | The stored amount, or 0 for an unknown customer. |
| Costs.TrackUsage | core/monitoring/cost_allocator.py:36-43 | Adds the cost to the feature and to the customer, starting from zero. No other key changes. |
| Costs.OtherFeatureUnchanged | core/monitoring/cost_allocator.py:36-38 | A usage charged to another feature leaves a feature's cost unchanged. |
| Costs.TrackUsageAddsToFeatures | core/monitoring/cost_allocator.py:36-38 | One usage adds its cost to the features' grand total. |
| Costs.TrackUsageAddsToCustomers | core/monitoring/cost_allocator.py:41-43 | One usage adds its cost to the customers' grand total. |
| Costs.TrackUsageKeepsBalance | core/monitoring/cost_allocator.py:36-43 | Equal totals on both sides stay equal. |
| Costs.Reset | core/monitoring/cost_allocator.py:63-67 | Both maps are empty and well formed, with no keys, so every cost reads 0. |
| Costs.ResetBalanced | core/monitoring/cost_allocator.py:63-67 | After a reset the ledgers are balanced at zero. |
| Costs.TrackAllSinceReset | core/monitoring/cost_allocator.py:33-67 | After a reset, both grand totals equal the sum of the costs tracked since, so they always agree. |
| Calendar.ReminderSettings | utils/google_calendar_client.py:173-181 | An email reminder iff email minutes are given, and a popup reminder iff popup minutes are given. Email comes first, each carries its minutes, and there are at most two. |
| Calendar.DefaultReminderSettings | utils/google_calendar_client.py:160-162 | With default arguments the result is exactly one email reminder, 10 minutes ahead. |
| Calendar.EventBodyFor | utils/google_calendar_client.py:109-131 | Start and end are in UTC with the given times. Attendees are present iff a non-empty list was given, one per address in order. Non-empty reminders become the overrides; otherwise the calendar defaults apply. |
| Calendar.InvitedRoundTrip | utils/google_calendar_client.py:122-123 | The body invites exactly the given addresses, in order. |
| Calendar.SettingsInBody | utils/google_calendar_client.py:125-131 | Reminders from `create_reminder_settings` become the overrides, unless both lead times are `None`, which leaves the defaults in force. |
| Calendar.CreatedMessage | utils/google_calendar_client.py:134 | The message is "Event created: " followed by the link, or by "None" when there is no link. |

## Left out

- HTTP: the aiohttp session, the token endpoint URL and the request itself. Replies are inputs. `Request` returns the call it would make, and `HandleResponse` models `raise_for_status`. A reply that fails comes after the caller's headers were already changed. The `AttributeError` that `_authenticate` raises when no session was opened is not modelled.
- The `api_request` decorator: it only forwards its arguments to `request`.
- The request body, query parameters and the `scope` field of the token exchange: none of them affect state.
- asyncio, threads and locks: operations are atomic state transitions. The five-minute background sweep is `Cleanup`, called whenever the caller chooses. Callbacks are not run; `Publish` returns the callbacks it dispatches to. How `gather` and the executor interleave callbacks, and how their errors are logged, is not modelled.
- pickle files and the cache directory: the disk tier is a map from key to what reading its file yields. A partially written file is taken never to unpickle. Failed unlinks and glob errors are not modelled.
- Caching.Cached: a wrapped function that raises stores nothing and propagates its exception. `outcome` is always a returned value, so that path is not modelled.
- Caching.Set and Caching.Get: cached values are immutable in the model. In the source the memory tier holds the caller's own object, while the file holds a pickled snapshot. A mutable value changed after `set` or after a hit is therefore served changed from memory, but as it was set from disk after a restart.
- `Caching.Cached`: the cache key is an opaque string. The key text built from `str(args)`, and collisions between different arguments, are not modelled.
- Loading and saving `usage_data.json` and `cost_data.json`: the ledgers start empty.
- Wall-clock reads: `now` and `today` are parameters, in whole seconds. Every clock read within one operation happens at the same instant. The source reads `datetime.now()` anew at microsecond resolution, so it can see time pass between two reads where the model cannot.
- ApiAccess.GetToken: a token granted with `expires_in` 0 is already expired at the source's next clock read (api_manager.py:156, then :122), so the source makes a second exchange. The model makes no second exchange.
- Caching.SetThenGet: after `set(k, v, ttl=0)`, an immediate `get(k)` in the source finds the entry expired (cache_manager.py:35, then :42). The model serves `v` throughout the boundary second.
- Usage.Track: `_check_thresholds` reads the clock again. The model assumes both reads fall on the same day, so the `KeyError` at midnight is not modelled.
- Floating-point costs and the `:.2f` rendering of alert messages: costs are integer cents, and an alert carries the API name, the cost and the severity instead of its text. Alerts are returned, not printed.
- `datetime.isoformat()`: event times are already-rendered strings.
- The Calendar API call, `get_upcoming_events` and the client's own OAuth flow. Reminder dictionaries passed to `create_event` are the `Reminder` records built by `create_reminder_settings`.
- Weekly and monthly thresholds: only stored and updated, because nothing reads them.
- `get_feature_costs` and `get_customer_costs`: they return the maps themselves.

## Findings

| source | as written | input that shows it | evidently intended | confidence | as-written member | corrected member |
|---|---|---|---|---|---|---|
| core/infrastructure/cache_manager.py:128-133 | `set` holds the non-reentrant `threading.Lock` while it calls `cleanup`, which acquires the same lock again at line 164 | a `set` of a new key when memory already holds 1000 entries: the call blocks forever | sweep expired entries and continue, leaving only live entries and the new one in memory | high, not executed | Caching.SetAsWritten, Caching.SetAsWrittenDeadlocks | Caching.Set, Caching.SetSweepsWhenFull |
