# Verified model of the MCP gateway, its WebSocket fan-out and the builder's text transformations

The repository runs MCP servers for its users. Three of its parts carry the promises that are hard to
see from the code alone, and this project models those parts in Dafny and proves the promises:

* **The proxy gateway.** List requests of many callers share one upstream call and a sharded LRU cache
  (`Lru`, `Singleflight`, `Coalescing`, `Retention`, `RequestCache`); the request is canonicalised, the
  JSON-RPC id is stripped and injected again, scopes decide what goes upstream, and each caller gets its
  own filtered view (`Identity`, `Scopes`, `ToolList`, `Admission`, `Utf8`, `Sse`, `Gateway`, `Views`).
  Around it stand the limiters (`Calendar`, `Counting`, `RedisLimits`, `CounterKeys`, `FallbackLimiter`) and
  session affinity (`Affinity`, `RoundRobin`).
* **The API's WebSocket manager** (`WsManager`, `Subscriptions`).
* **The builder's Dockerfile and command texts** (`Text`, `Lines`, `Keywords`, `JsonText`, `Command`,
  `Words`, `Provision`, `Detection`, `Injection`, `Instructions`, `Stages`, `NamedStage`, `Renaming`,
  `LineKinds`, `Restage`).

Concurrent code is a state machine: one action per section executed under a lock, an explicit clock, and
theorems over every run, that is every interleaving. `Singleflight.Core` is the state the sections work
on; the methods of the class `RequestCache` are proved to have exactly the effect of those sections, and
`Coalescing` and `Retention` prove what all runs satisfy. `complete` is two actions (wake the waiters, then store), and a
handle can be dropped at any moment between actions.

Where the source loops over mutable buffers, a method with a loop is proved equal to a specification
function, and the theorems are about that function. Text is a sequence of Unicode characters; `Utf8`
works on bytes. JSON bodies are parsed values, raw text or raw bytes.

Facts about the code that differ from what one might expect, each with its exact condition:

* Converting a Dockerfile into a named stage twice is not always the same as once: an empty last line, a
  carriage return before a line feed, or an image part ending in ` AS` make the second conversion change
  the text. `Restage.ConvertTwice` gives the condition as an if-and-only-if; `Restage.LosesLastLine`,
  `Restage.LosesCarriageReturn` and `Restage.TakesAsForSeparator` are inputs on which it fails.
* An exec-form command survives the trip through a command line exactly when no argument has a double
  quote, and single quotes appear only in arguments that also contain white space
  (`Command.TokenizeIff`); escaping a double quote with a backslash does not help, because the tokenizer
  has no escapes.
* A credential id coincides with the cache identity of some header values exactly when its 16 bytes spell
  out a header field (`Identity.CollidesIff`); the database creates version-4 ids, whose version bits
  rule that out (`Identity.EncodeInjective`).
* The global WebSocket limit is checked outside the lock, so it is soft: it can be exceeded by the number
  of concurrent calls less one (`WsManager.LimitsHold`), and for every such number some run does
  (`WsManager.OvershootAttained`).
* The shared per-minute limiter lets at most twice the limit through in 60 seconds of clock readings. By
  the time of admission it is three times: a script may run up to 5 seconds after the reading that named
  its bucket. Twice the limit holds exactly in the windows of `RedisLimits.TwiceIffAligned`.
* The process-local limiter reads the clock before it takes its lock, and forgets a window when the lock
  is taken for another one. Its limit therefore holds exactly when no such call comes between two calls
  of a key and window (`FallbackLimiter.FirstLimitIff`). A clock that never goes back does not ensure that
  (`FallbackLimiter.BoundaryRace`); it bounds the excess by the number of late calls
  (`FallbackLimiter.SteadyBound`).
* Joining Dockerfile lines by line feeds turns a carriage return that ended a line into part of a line
  ending, so the injected text reads back as the injected lines exactly when no original line ends in
  one (`Injection.AppliedReadsBack`, `Injection.CarriageReturnLost`).

`dafny verify dfyconfig.toml` checks the whole project.

## Model

| member | source | states |
|---|---|---|
| `Lru.PutFacts` | crates/proxy/src/cache.rs:251-262 | storing answers the key with the new value, forgets at most the least recently used other key and only when a new key meets a full shard |
| `Lru.GetFacts` | crates/proxy/src/cache.rs:156-171 | a lookup hits exactly on an entry younger than the TTL, returns it unchanged, and removes a stale entry; nothing else is lost |
| `Lru.SweepFacts` | crates/proxy/src/cache.rs:281-306 | clean-up removes exactly the stale entries |
| `Lru.RecentlyUsedSurvives` | crates/proxy/src/cache.rs:46-53 | LRU retention: a used entry survives any number of accesses that touch fewer distinct other keys than the shard holds |
| `Singleflight.StepInv` | crates/proxy/src/cache.rs:150-278 | every action (check, join, register, receive, notify, store, cancel, drop, sweep, tick) keeps the invariants on flights, caches, handles and waiters |
| `Coalescing.RunInv` | crates/proxy/src/cache.rs:150-278 | the invariants hold at every moment of every interleaving |
| `Coalescing.SingleExecutor` | crates/proxy/src/cache.rs:175-199 | at any moment a key has at most one unfinished handle, and the in-flight map has the key exactly when there is one, registered to that handle |
| `Coalescing.RemovesOnlyOwn` | crates/proxy/src/cache.rs:341-348 | a registration disappears only when its own executor completes, cancels or is dropped; no handle removes another's |
| `Coalescing.NoLostWakeup` | crates/proxy/src/cache.rs:175-208 | a blocked waiter's channel has its sender registered under a live executor of its key, or holds the message, or is closed; what it then does next |
| `Coalescing.FinishWakes` | crates/proxy/src/cache.rs:240-248 | whichever way an executor finishes, every waiter on it can proceed at once |
| `Coalescing.CompletionOrigin` | crates/proxy/src/cache.rs:214-248 | a completed handle was completed by a `complete` call of the run with that very reply |
| `Coalescing.CoalescedReply` | crates/proxy/src/cache.rs:200-208 | a coalesced answer is the body, status and headers passed to `complete` by the executor the waiter subscribed to, of the same key |
| `Coalescing.ChecksAreIterations` | crates/proxy/src/cache.rs:155-171 | from the start of a call its cache checks so far number the executors it has lost, plus one for a turn past its check: they are its loop iterations |
| `Coalescing.RetryBound` | crates/proxy/src/cache.rs:155-209 | the retry loop terminates: iterations are at most the distinct executors of the key abandoned since the call began, plus one |
| `Coalescing.LastPutTracksRun` | crates/proxy/src/cache.rs:251-262 | the bookkeeping of the last stored value is what the run's history says |
| `Coalescing.StoreRefinesMap` | crates/proxy/src/cache.rs:111-142 | the 32 shards refine one map: an entry sits in shard key mod 32, is the value stored last for its key, fits the size cap, and no shard exceeds its capacity |
| `Coalescing.HitIsLastStored` | crates/proxy/src/cache.rs:156-171 | a check misses exactly when nothing younger than the TTL is stored; a hit is the last stored reply, given to `complete` earlier in the run |
| `Coalescing.StepsOnlyForget` | crates/proxy/src/cache.rs:281-306 | eviction, expiry and clean-up only turn hits into misses |
| `Retention.CompletedIsStored` | crates/proxy/src/cache.rs:226-262 | right after the second half of `complete` the store answers the key with exactly the completed entry |
| `Retention.PutPendingIffSmall` | crates/proxy/src/cache.rs:214-262 | the first half leaves a store pending exactly when the reply fits the size cap, and the completed entry is the reply with its time stamp |
| `Retention.CheckIffFresh` | crates/proxy/src/cache.rs:155-171 | a check returns the stored entry of its key when that is younger than the TTL; otherwise, and only then, it goes on to the in-flight map |
| `Retention.CompletedIsServed` | crates/proxy/src/cache.rs:122-262 | retention over runs: a stored completion is what every later check of its key within the TTL returns, with its source, when nothing was stored under the key since and fewer distinct other keys of its shard than the capacity were used |
| `Retention.CleanupForgetsStale` | crates/proxy/src/cache.rs:281-306 | clean-up turns exactly the stale entries of its shard into misses |
| `RequestCache.RequestHandle.constructor` | crates/proxy/src/cache.rs:331-340 | a new handle is unfinished |
| `RequestCache.RequestCache.constructor` | crates/proxy/src/cache.rs:79-91 | empty shards with room for max(1, max_entries / 32) entries each |
| `RequestCache.RequestCache.Get` | crates/proxy/src/cache.rs:122-148 | the locked cache lookup has exactly the effect and answer of the cache-check action: the stored reply of the key if now is before its time stamp plus the TTL, else nothing |
| `RequestCache.RequestCache.TryJoin` | crates/proxy/src/cache.rs:173-199 | the in-flight section subscribes to the registered channel or registers a fresh one with an unfinished handle |
| `RequestCache.RequestCache.NotifyWaiters` | crates/proxy/src/cache.rs:214-248 | first half of `complete`: marks the handle finished, takes its registration and sends the reply |
| `RequestCache.RequestCache.StoreCompleted` | crates/proxy/src/cache.rs:226-262 | second half of `complete`: a reply within the size cap is what the shard then answers for the key; one over it changes nothing |
| `RequestCache.StoreThenGet` | crates/proxy/src/cache.rs:226-262 | storing a completed reply and then getting its key returns that reply exactly until its lifetime is over |
| `RequestCache.RequestCache.Withdraw` | crates/proxy/src/cache.rs:341-348 | removes the handle's registration and closes its channel |
| `RequestCache.RequestCache.Cancel` | crates/proxy/src/cache.rs:274-278 | finishes the handle and withdraws its registration |
| `RequestCache.RequestCache.Drop` | crates/proxy/src/cache.rs:341-348 | a dropped handle withdraws its registration unless it was finished |
| `RequestCache.RequestCache.CleanupShard` | crates/proxy/src/cache.rs:281-306 | one shard is swept, the others are untouched, and the number of stale entries it held is returned |
| `RequestCache.RequestCache.CleanupExpired` | crates/proxy/src/cache.rs:281-306 | all shards are swept, nothing in flight changes, and the stale entries of all shards are counted |
| `RequestCache.CollectStale` | crates/proxy/src/cache.rs:286-297 | the collecting loop finds exactly the keys of stale entries, in order |
| `RequestCache.PopStaleIsSweep` | crates/proxy/src/cache.rs:286-303 | collecting stale keys and popping them one by one is the filter by age |
| `Identity.CacheIdentity` | crates/proxy/src/main.rs:783-799 | the buffer built over the two header names is the encoding of the caller |
| `Identity.HeaderNames` | crates/proxy/src/main.rs:783-799 | the two fields and the separators of the encoding, letter by letter |
| `Identity.EncodeInjective` | crates/proxy/src/main.rs:783-799 | equal identities mean the same credential or the same authorization and cookie values, for LF-free values and version-4 ids |
| `Identity.HeadersNeverSpellId` | crates/proxy/src/main.rs:783-799 | no pair of header values encodes to 16 bytes with the version bits of a version-4 id |
| `Identity.CollidesIff` | crates/proxy/src/main.rs:783-799 | a 16-byte id coincides with the identity of some LF-free header pair if and only if it spells `cookie=` and 8 bytes, or `authorization=` and one byte, before a line feed |
| `Gateway.InjectStrip` | crates/proxy/src/main.rs:816-843 | stripping one id and injecting another is setting the id, for every body |
| `Gateway.InjectTwice` | crates/proxy/src/main.rs:830-843 | only the last injected id counts |
| `Gateway.StripFacts` | crates/proxy/src/main.rs:816-827 | stripping takes the id of an object away and nothing else |
| `Gateway.InjectFacts` | crates/proxy/src/main.rs:830-843 | injecting sets the id of an object, to null for a request without one, and nothing else |
| `Gateway.KeyBodyIff` | crates/proxy/src/main.rs:802-812 | two JSON objects have the same key body exactly when they agree on every field but `id` and `jsonrpc` |
| `Gateway.CacheableIff` | crates/proxy/src/main.rs:972-984 | of the requests that do not ask for an event stream exactly those with method `tools/list`, `resources/list` or `prompts/list` go through the cache |
| `Gateway.RunKnown` | crates/proxy/src/main.rs:981-1026 | in every run of gateway and cache, each handle's reply is the stripped upstream reply to the request that owns it, under that request's key |
| `Gateway.Transparent` | crates/proxy/src/main.rs:981-1026 | a cached or coalesced answer is the caller's egress transform of a real successful upstream reply with the caller's id; both requests are list requests with the same hash of endpoint, identity and body, and the same question unless the hash collides |
| `Gateway.SharedOnlyWithSelf` | crates/proxy/src/main.rs:981-1026 | requests with the same question come from the same caller and ask the same JSON apart from `id` and `jsonrpc` |
| `Gateway.AsIfExecuted` | crates/proxy/src/main.rs:981-1026 | in every run with an upstream that echoes ids and answers the same question the same way, a shared answer is exactly what executing the request would have returned, unless the hash collides |
| `Views.JsonReplySeen` | crates/proxy/src/main.rs:1052-1077 | the caller's view of a JSON reply to `tools/list`: in code mode the code tools, in search mode the search tools, otherwise in order exactly the tools whose call its scopes permit (all of them without filtering), slimmed if asked; every other field of message and result is the same |
| `Views.StreamReplySeen` | crates/proxy/src/mcp_transform.rs:187-219 | the same for each data line of an event stream whose payload is JSON; every other line and every terminator stays |
| `Views.OtherRepliesUntouched` | crates/proxy/src/main.rs:1052-1061 | a reply to any other method is returned as it is |
| `Views.ContentTypeIsFirst` | crates/proxy/src/main.rs:1043-1050 | the content type is the value of the first header of that name in any letter case |
| `Views.IsContentTypeIff` | crates/proxy/src/main.rs:1043-1050 | that name, letter by letter |
| `Views.FirstNonSpaceIs` | crates/proxy/src/mcp_transform.rs:150-161 | the first character that is not white space decides about a body without a content type |
| `Views.SharedReplySeen` | crates/proxy/src/main.rs:981-1077 | in every run a JSON reply from the cache or from a coalesced call is an upstream's reply with the caller's id instead of its own, seen with the caller's own eyes |
| `Utf8.FloorCharBoundary` | crates/proxy/src/mcp_transform.rs:243-252 | the count-down loop finds the largest character boundary not above the limit |
| `Utf8.FloorIsWholeChars` | crates/proxy/src/mcp_transform.rs:243-252 | on UTF-8 text that boundary ends exactly after the characters that fit |
| `Utf8.EncodeByTable` | crates/proxy/src/mcp_transform.rs:243-252 | the encoding behind it is the table of RFC 3629: the bytes stand for the character, in the shortest form |
| `Utf8.SlimBytes` | crates/proxy/src/mcp_transform.rs:132-145 | the byte-level cut yields the encoding of the slimmed text |
| `Utf8.SlimShape` | crates/proxy/src/mcp_transform.rs:132-145 | a long description becomes a prefix cut at a boundary in 497..500 plus a 3-byte ellipsis, 500 to 503 bytes; a short one is unchanged |
| `Utf8.SlimIdempotent` | crates/proxy/src/mcp_transform.rs:132-145 | slimming twice is slimming once |
| `Sse.RewriteText` | crates/proxy/src/mcp_transform.rs:187-219 | the buffer loop computes the line-wise rewriting and gives back the input when nothing was replaced |
| `Sse.FramingPreserved` | crates/proxy/src/mcp_transform.rs:187-219 | same number of lines, same terminator on each, declined lines verbatim, accepted lines carry exactly the new payload |
| `Sse.NothingAccepted` | crates/proxy/src/mcp_transform.rs:187-219 | identical text when no line is accepted |
| `Sse.PayloadIff` | crates/proxy/src/mcp_transform.rs:187-205 | a line has a payload exactly when it is `data:`, at most one space, the payload and a line ending |
| `ToolList.TransformTools` | crates/proxy/src/mcp_transform.rs:113-147 | the in-place edit keeps the allowed tools in order, slims them, and never leaves a change unreported |
| `ToolList.UnchangedShown` | crates/proxy/src/mcp_transform.rs:113-147 | no reported change means the same tools |
| `ToolList.ShownTwice` | crates/proxy/src/mcp_transform.rs:113-147 | filtering and slimming is idempotent |
| `ToolList.ListedIffCallable` | crates/proxy/src/main.rs:571-627 | a named tool survives filtering exactly when calling it passes the scope check |
| `ToolList.RewriteKeepsRest` | crates/proxy/src/meta_tools.rs:161-191 | unwrapping a `call_tool` request changes only `params` |
| `ToolList.UnwrapWrap` | crates/proxy/src/meta_tools.rs:161-191 | unwrapping a wrapped plain call gives back that call, id and method included |
| `ToolList.WrappedSameVerdict` | crates/proxy/src/main.rs:895-929 | a wrapped call gets the verdict of the direct call and the same request goes upstream |
| `Admission.GateIff` | crates/proxy/src/main.rs:892-929 | the gate: answered locally exactly for `search_tools` in search or code mode and `run_code` in code mode; refused exactly when what would be sent fails the scope check; what is forwarded passed it |
| `Admission.SentKeepsRest` | crates/proxy/src/main.rs:913-920 | what is sent is the request, or for a `call_tool` wrapper the same message with the wrapped call as `params` |
| `Admission.DirectCallIff` | crates/proxy/src/main.rs:892-929 | a direct tool call reaches the upstream, unchanged, exactly when one of the scope strings is `*`, `tools:*`, `tools:call` or `tools:call:` and its name; otherwise it is refused |
| `Admission.WrappedCallIff` | crates/proxy/src/main.rs:892-929 | so does a wrapped call in search mode, for the tool it wraps |
| `Admission.WrapperForms` | crates/proxy/src/meta_tools.rs:161-191 | where the wrapped name and arguments may stand |
| `Admission.OnlyWrapperForms` | crates/proxy/src/meta_tools.rs:161-191 | nothing else is unwrapped |
| `Admission.ToolCallIff` | crates/proxy/src/main.rs:571-627 | which scope strings permit a tool call |
| `Admission.ResourceReadIff` | crates/proxy/src/main.rs:571-627 | which scope strings permit reading a resource, by its `uri` |
| `Admission.PromptGetIff` | crates/proxy/src/main.rs:571-627 | which scope strings permit getting a prompt, by its `name` |
| `Admission.UnnamedCallIff` | crates/proxy/src/main.rs:571-627 | without a target the scope of one tool does not help |
| `Admission.ListIff` | crates/proxy/src/main.rs:571-627 | which scope strings permit the three list methods |
| `Admission.OtherMethodsPermitted` | crates/proxy/src/main.rs:620-627 | any other method, and a message without one, needs no scope |
| `Scopes.ParseOfText` | crates/common/src/types.rs:244-273 | the text of every scope parses back to it |
| `Scopes.TextOfParse` | crates/common/src/types.rs:273-306 | a string that parses is the text of its scope |
| `Scopes.CheckerMembers` | crates/common/src/types.rs:349-356 | a checker has a scope exactly when its text is among the strings |
| `Scopes.IsAllowed` | crates/common/src/types.rs:358-450 | the loop with its early returns decides whether some scope grants the method |
| `Scopes.GrantsIffAccepting` | crates/common/src/types.rs:358-450 | a scope grants a method exactly when its text is in the permission table |
| `Scopes.AllowedIffListed` | crates/common/src/types.rs:349-450 | a credential may use a method exactly when one of its strings is in the permission table |
| `Calendar.MonthLengths` | crates/proxy/src/rate_limit.rs:404-409 | the table of month lengths is the distance between month starts in every year, leap years included |
| `Calendar.KnownDates` | crates/proxy/src/rate_limit.rs:404-409 | the calendar agrees with known dates |
| `Calendar.CounterOutlivesMonth` | crates/proxy/src/rate_limit.rs:403-410 | the 32-bit subtraction never wraps, and the counter expires 4 to 5 days after its month |
| `RedisLimits.Store.RateLimitScript` | crates/proxy/src/rate_limit.rs:246-260 | the INCR/EXPIRE script is the counter step of a minute bucket and returns the new count or -1 |
| `RedisLimits.Store.MonthlyQuotaScript` | crates/proxy/src/rate_limit.rs:313-326 | the GET/INCR/EXPIRE script is the counter step of a month and returns the new count or -1 |
| `RedisLimits.CounterOutlivesUse` | crates/proxy/src/rate_limit.rs:267-300 | a counter created by a prompt script cannot expire while its key can still be used |
| `RedisLimits.CounterDoesNotLinger` | crates/proxy/src/rate_limit.rs:267-326 | nor does it live on: 65 seconds after the deadline of a minute, 5 days after that of a month, it is gone |
| `RedisLimits.CounterExpires` | crates/proxy/src/rate_limit.rs:246-260 | a counter counts until its lifetime is over and then starts afresh |
| `RedisLimits.SharesCounterIff` | crates/proxy/src/rate_limit.rs:275-281 | two minute checks share a counter exactly when credential, server and minute agree, two month checks exactly when workspace, year and month do, and no minute check shares one with a month check |
| `CounterKeys.KeyTextInjective` | crates/proxy/src/rate_limit.rs:274-401 | different counters have different string keys: the printed numbers and the colon-free ids read back |
| `CounterKeys.SharesKeyIff` | crates/proxy/src/rate_limit.rs:274-401 | two checks use the same string key exactly when they share a counter |
| `RedisLimits.QuotaPerWorkspace` | crates/proxy/src/rate_limit.rs:388-426 | of a workspace's attempts in a calendar month exactly the first limit are admitted and counted, whatever other workspaces and the minute limiter do |
| `RedisLimits.LimitPerMinute` | crates/proxy/src/rate_limit.rs:267-308 | exactly the first limit checks of a credential and server read in a minute are admitted |
| `RedisLimits.CounterTracks` | crates/proxy/src/rate_limit.rs:246-326 | after any run the counter shows how often its key was tried (minute) or admitted (month) |
| `RedisLimits.FirstLimitAdmitted` | crates/proxy/src/rate_limit.rs:246-326 | exactly the first limit attempts under a key are admitted, whatever other keys do |
| `RedisLimits.AdmittedPerKey` | crates/proxy/src/rate_limit.rs:313-326 | a key admits the smaller of its attempts and the limit, and a month's counter equals that number |
| `RedisLimits.AtMostTwiceByReading` | crates/proxy/src/rate_limit.rs:267-308 | of the checks whose clock readings fall within any 60 seconds at most twice the limit are admitted |
| `RedisLimits.AtMostThrice` | crates/proxy/src/rate_limit.rs:246-308 | in any 60 seconds of admissions at most three times the limit are admitted, when each script runs less than 5 seconds after its reading |
| `RedisLimits.AlignedTwice` | crates/proxy/src/rate_limit.rs:246-308 | at most twice the limit in windows that start on a minute, at least 4.999 seconds into one, or in the first minute of all |
| `RedisLimits.BurstThrice` | crates/proxy/src/rate_limit.rs:246-308 | in every other window, for every limit, a run in order gets exactly three times the limit admitted |
| `RedisLimits.TwiceIffAligned` | crates/proxy/src/rate_limit.rs:246-308 | twice the limit bounds the admissions of a window in all such runs if and only if the window is one of the aligned ones |
| `RedisLimits.ThreeInAMinute` | crates/proxy/src/rate_limit.rs:246-308 | three admissions within 60 seconds at the limit 1 |
| `FallbackLimiter.Limiter.CountLocked` | crates/proxy/src/rate_limit.rs:35-50 | the section under the lock, with its sweep, is the counter step for the window read before |
| `FallbackLimiter.OtherSlots` | crates/proxy/src/rate_limit.rs:35-50 | other slots are left alone up to ten thousand; above that exactly those of the same window are kept |
| `FallbackLimiter.SlotCounts` | crates/proxy/src/rate_limit.rs:35-50 | before a call of a key and window the slot shows how often they were used, unless a breaking call came between two of them |
| `FallbackLimiter.FirstLimitAllowed` | crates/proxy/src/rate_limit.rs:28-51 | in lock order exactly the first limit calls of a key and window pass, unless broken |
| `FallbackLimiter.FirstLimitIff` | crates/proxy/src/rate_limit.rs:28-51 | that rule holds for every limit (already for 1) if and only if between no two calls of the key and window the lock is taken by a call of another window that uses the same key or sweeps |
| `FallbackLimiter.WindowBound` | crates/proxy/src/rate_limit.rs:28-51 | an unbroken window admits the smaller of its calls and the limit |
| `FallbackLimiter.PunctualUnbroken` | crates/proxy/src/rate_limit.rs:28-51 | with a clock that never goes back, no window is broken if every call takes the lock in the window it read |
| `FallbackLimiter.SteadyBound` | crates/proxy/src/rate_limit.rs:28-51 | with such a clock alone, a window admits at most the limit times one more than the number of late calls |
| `FallbackLimiter.BoundaryRace` | crates/proxy/src/rate_limit.rs:28-51 | a run with such a clock in which a call that read the old window locks after one of the new window: two pass at the limit 1 |
| `FallbackLimiter.ClockBackReopens` | crates/proxy/src/rate_limit.rs:28-51 | a run with a clock that goes back does the same |
| `Affinity.AppNameHasNoColon` | crates/proxy/src/affinity.rs:155-160 | an extracted app name contains no colon, whatever the URL |
| `Affinity.AppNameOfUrl` | crates/proxy/src/affinity.rs:155-160 | the app of a URL is its host without `.fly.dev`, whatever path or port follows; another host has none |
| `Affinity.NoSchemeNoApp` | crates/proxy/src/affinity.rs:155-160 | a target without a scheme has no app |
| `Affinity.SessionKeyInjective` | crates/proxy/src/affinity.rs:219-221 | different (app, session) pairs never share a key, whatever the session id contains |
| `Affinity.ListKeyApart` | crates/proxy/src/affinity.rs:219-226 | a session key is never a machine-list key |
| `Affinity.SessionStore.LookupSession` | crates/proxy/src/affinity.rs:180-197 | an unexpired binding is returned and its lifetime renewed, nothing else changes |
| `Affinity.SessionStore.StoreSession` | crates/proxy/src/affinity.rs:199-211 | binds the session for a fresh lifetime |
| `Affinity.SessionStore.DeleteSession` | crates/proxy/src/affinity.rs:213-217 | unbinds the session |
| `Affinity.SessionStore.CaptureSession` | crates/proxy/src/affinity.rs:143-153 | after an `initialize` reply the session the upstream named is bound, if one was to be bound |
| `Affinity.StoreHoldsBindings` | crates/proxy/src/affinity.rs:180-221 | the shared string-keyed store holds for each session exactly what the run bound it to |
| `Affinity.BindingOrigin` | crates/proxy/src/affinity.rs:143-153 | a binding comes from the latest bind of that session, its expiry from its latest use |
| `Affinity.ForcedOnlyToOwner` | crates/proxy/src/affinity.rs:82-142 | a follow-up is forced exactly when its binding is alive and its machine listed, and then to the machine most recently bound to that app and session |
| `Affinity.BoundIsForced` | crates/proxy/src/affinity.rs:82-153 | a bound session is followed: within the lifetime a follow-up is forced to its machine if that is listed, whatever other sessions do |
| `Affinity.UnboundIsFree` | crates/proxy/src/affinity.rs:82-142 | after unbinding nothing is forced |
| `Affinity.ListServed` | crates/proxy/src/affinity.rs:224-250 | the machine list read is the one cached last for the app, for 30 seconds |
| `Affinity.NoListYet` | crates/proxy/src/affinity.rs:224-250 | without one there is none |
| `RoundRobin.Picker.NextRr` | crates/proxy/src/affinity.rs:45-54 | returns the app's cursor modulo the pool and advances only that cursor |
| `RoundRobin.Picker.PickMachine` | crates/proxy/src/affinity.rs:162-176 | picks from the started machines if there are any, else from all |
| `RoundRobin.Picker.Decide` | crates/proxy/src/affinity.rs:82-142 | a new session is bound to a picked machine, a follow-up is forced to its own or left alone |
| `RoundRobin.PoolPrefersStarted` | crates/proxy/src/affinity.rs:162-176 | the candidates are exactly the started machines when any is started |
| `RoundRobin.ChosenCycles` | crates/proxy/src/affinity.rs:45-54 | the k-th pick for an app is its start cursor plus k modulo the pool, whatever other apps do |
| `RoundRobin.VisitsEachOnce` | crates/proxy/src/affinity.rs:45-54 | any n consecutive picks for an app with a pool of n visit every machine exactly once |
| `WsManager.Manager.SubscribeLocked` | crates/api/src/ws_manager.rs:159-182 | the locked section has exactly the effect of the subscribe action, errors included |
| `WsManager.Manager.TrySubscribe` | crates/api/src/ws_manager.rs:153-182 | the whole call: refused without effect when the counter loaded before the lock is at the limit, otherwise the locked section on the state as it is by then |
| `WsManager.Manager.OnDisconnect` | crates/api/src/ws_manager.rs:184-187 | decrements the counter and nothing else |
| `WsManager.Manager.CleanupEmptyChannels` | crates/api/src/ws_manager.rs:252-270 | drops exactly the channels without receivers that were idle for the TTL |
| `WsManager.CleanupExact` | crates/api/src/ws_manager.rs:252-270 | a channel stays, unchanged, exactly when it has a live receiver or was active within the lifetime |
| `WsManager.SendKeepsAlive` | crates/api/src/ws_manager.rs:196-202 | a broadcast keeps its channel alive for a lifetime |
| `WsManager.SubscribeKeepsAlive` | crates/api/src/ws_manager.rs:159-182 | so does a subscription |
| `WsManager.SubscribeIff` | crates/api/src/ws_manager.rs:159-182 | a subscription succeeds exactly when its channel has room or there is room for a new channel; its receiver hangs on the channel of that name, and a refused one changes nothing |
| `WsManager.StepInv` | crates/api/src/ws_manager.rs:153-270 | every step keeps receivers attached to the sender under their name, the limits and the count |
| `WsManager.LimitsHold` | crates/api/src/ws_manager.rs:153-186 | in every run channels and receivers per channel stay within their limits, and the total within max_total plus the concurrent calls less one |
| `WsManager.BroadcastReachesAll` | crates/api/src/ws_manager.rs:196-210 | a broadcast under a name reaches exactly the live receivers subscribed under it: clean-up strands nobody |
| `Subscriptions.ReceiversAreHistory` | crates/api/src/ws_manager.rs:153-182 | at every moment of every run the live receivers are those a subscription made and nobody dropped since, each under the name it subscribed to |
| `Subscriptions.OpenIsHistory` | crates/api/src/ws_manager.rs:153-186 | the counted subscriptions are those made and not yet disconnected |
| `Subscriptions.ActivityIsLastUse` | crates/api/src/ws_manager.rs:159-202 | a channel's activity time is that of the last subscription or broadcast under its name |
| `Subscriptions.SweepKeepsIff` | crates/api/src/ws_manager.rs:252-270 | clean-up in any run keeps a channel exactly when a live receiver subscribed under its name or its last use is younger than the lifetime |
| `Subscriptions.OnlySweepRemoves` | crates/api/src/ws_manager.rs:153-270 | nothing but clean-up removes a channel |
| `WsManager.OneCallerNeverOvershoots` | crates/api/src/ws_manager.rs:153-186 | with one call at a time the global limit is hard |
| `WsManager.CallersOvershoot` | crates/api/src/ws_manager.rs:153-186 | any run one below the limit with room in a channel extends to the limit plus the concurrent calls less one |
| `WsManager.OvershootAttained` | crates/api/src/ws_manager.rs:153-186 | the bound is exact: for every number of concurrent calls a run from the empty manager reaches it, every subscription with a live receiver, when one channel can hold them |
| `Command.TokenizeShell` | crates/builder/src/flyctl.rs:333-367 | the character loop with its buffers computes the token list |
| `Words.TokensAreWords` | crates/builder/src/flyctl.rs:333-367 | however a line is written in white space, bare characters and quoted texts (the last perhaps unclosed), its tokens are the words of those pieces with the quotes taken off |
| `Words.TokensIff` | crates/builder/src/flyctl.rs:333-367 | a text has given tokens if and only if it can be written in such pieces with those words |
| `Command.TokenizeIff` | crates/builder/src/flyctl.rs:180-186 | non-empty arguments survive quoting and tokenizing if and only if each is free of double quotes, and of single quotes unless it has white space |
| `Command.ExecFormRoundTrip` | crates/builder/src/flyctl.rs:192-216 | exec form to command line to tokens to exec form decodes to the same non-empty arguments exactly under that condition |
| `Command.ShellFormKept` | crates/builder/src/flyctl.rs:192-218 | a shell form is kept as it stands, without the white space around it |
| `Command.NoCommandIff` | crates/builder/src/flyctl.rs:192-218 | there is no command exactly for a blank text and for a bracketed one that is not a JSON array of strings or has only empty strings |
| `Command.QuoteForms` | crates/builder/src/flyctl.rs:180-186 | what quoting does to an argument with and without white space |
| `Command.UnescapeEscape` | crates/builder/src/flyctl.rs:180-186 | escaping loses nothing: an argument without backslashes is recovered from its escaped form |
| `Command.PrintedArgsDecode` | crates/builder/src/flyctl.rs:1949-1955 | the printed array decodes to the tokens for every command: none can break out of it |
| `JsonText.PrintParses` | crates/builder/src/flyctl.rs:1949-1955 | a printed JSON string literal parses back to its text whatever follows |
| `JsonText.ArrayParses` | crates/builder/src/flyctl.rs:1949-1955 | a printed array of strings parses back to its elements |
| `JsonText.UnicodeEscapeParses` | crates/builder/src/flyctl.rs:197-199 | four hexadecimal digits stand for the character of that number unless it is half of a pair |
| `JsonText.SurrogatePairParses` | crates/builder/src/flyctl.rs:197-199 | a character beyond these is written as a pair |
| `JsonText.RawControlRejected` | crates/builder/src/flyctl.rs:197-199 | a raw control character is not allowed in a literal |
| `JsonText.ElementsThen` | crates/builder/src/flyctl.rs:197-199 | after the closing bracket of an array only white space may follow |
| `JsonText.BlankBefore` | crates/builder/src/flyctl.rs:197-199 | white space before an array or an element does not matter |
| `Provision.PushMissing` | crates/builder/src/flyctl.rs:1150-1155 | the de-duplicating loop appends each element not there yet |
| `Provision.AddNewFacts` | crates/builder/src/flyctl.rs:1150-1167 | merging lists keeps the first in front, has exactly the elements of both, and introduces no duplicate |
| `Provision.MergeInto` | crates/builder/src/flyctl.rs:1150-1167 | all five fields of a merge |
| `Provision.DetectProvision` | crates/builder/src/flyctl.rs:1279-1288 | the loop merges the answers of the seven detectors in order |
| `Provision.MergeAllItems` | crates/builder/src/flyctl.rs:1150-1167 | the merged provision asks for exactly the packages, commands, warnings and markers that some detector asks for |
| `Provision.MergeAllMemory` | crates/builder/src/flyctl.rs:1157-1161 | its memory floor is the largest any detector sets (none if none does), and no package is listed twice |
| `Provision.DetectedWellFormed` | crates/builder/src/flyctl.rs:1191-1288 | whatever the project, packages, commands and markers are single-line and the commands carry one of their own markers |
| `Provision.DetectedInstalls` | crates/builder/src/flyctl.rs:1279-1288 | no detector matches: the empty provision; some detector matches: something to install |
| `Detection.PackagesExact` | crates/builder/src/flyctl.rs:1191-1288 | exactly which packages a project gets, by what its Node, Python and Go dependencies mention |
| `Detection.CommandsExact` | crates/builder/src/flyctl.rs:1191-1229 | exactly which commands it runs after installing |
| `Detection.MarkersExact` | crates/builder/src/flyctl.rs:1191-1229 | exactly which texts in a Dockerfile keep those commands out |
| `Detection.MemoryExact` | crates/builder/src/flyctl.rs:1157-1288 | 2048 MB exactly for a project that drives a browser, else no memory floor |
| `Detection.NothingFoundIff` | crates/builder/src/flyctl.rs:1279-1288 | nothing is provisioned exactly when no dependency mentions any of these libraries |
| `Injection.Inject` | crates/builder/src/flyctl.rs:1341-1363 | the line loop puts the package lines right after the last FROM and the command lines right before the last CMD/ENTRYPOINT or at the end |
| `Injection.ApplyProvision` | crates/builder/src/flyctl.rs:1296-1366 | the whole operation with its four reasons to return nothing |
| `Injection.IsFromIff` | crates/builder/src/flyctl.rs:1302-1304 | a `FROM` line, character by character: the letters in either case and a space after leading white space |
| `Injection.IsCommandIff` | crates/builder/src/flyctl.rs:1305-1308 | a command line begins with CMD or ENTRYPOINT in any letter case |
| `Injection.AppliedIff` | crates/builder/src/flyctl.rs:1296-1340 | something is injected exactly when there is a `FROM` line and the text lacks a package, or has commands to run and lacks every marker |
| `Injection.OutputHas` | crates/builder/src/flyctl.rs:1341-1366 | the output holds the original lines, the install lines and a RUN line for each command unless a marker is there, and nothing else |
| `Injection.AptLineLists` | crates/builder/src/flyctl.rs:1317-1327 | the install line lists exactly the missing packages, one argument each |
| `Injection.InjectedTexts` | crates/builder/src/flyctl.rs:1317-1366 | the texts of the injected lines |
| `Injection.MentionSurvives` | crates/builder/src/flyctl.rs:1309-1330 | whatever single-line text the Dockerfile contains, the output contains |
| `Injection.ApplyIdempotent` | crates/builder/src/flyctl.rs:1296-1366 | applying a self-marking provision to its own output returns nothing to do, for every Dockerfile |
| `Injection.DetectedIdempotent` | crates/builder/src/flyctl.rs:1279-1366 | so does every provision the detectors produce |
| `Injection.AppliedReadsBack` | crates/builder/src/flyctl.rs:1296-1366 | in the output the last FROM is followed by the package lines, the last CMD/ENTRYPOINT preceded by the command lines (which come last without one), and without both the original lines are left; read from the text exactly when no original line ends in a carriage return |
| `Injection.CarriageReturnLost` | crates/builder/src/flyctl.rs:1365-1366 | a Dockerfile ending in a carriage return on which it does not |
| `Instructions.RunForm` | crates/builder/src/flyctl.rs:1875-1929 | the continuation machine yields whole instructions: those whose first line is not left out, with only the chosen first line replaced |
| `Instructions.KeptTidy` | crates/builder/src/flyctl.rs:1875-1910 | no instruction of the output is one to leave out |
| `Instructions.ReplacedLines` | crates/builder/src/flyctl.rs:1875-1929 | line by line: the output has, in order, the lines of the kept instructions, each as it was but the chosen one |
| `Keywords.UpperSpells` | crates/builder/src/flyctl.rs:1904-1909 | the upper case of a text starts with a keyword exactly when its characters spell the keyword, in any letter case and in characters whose upper case has several letters |
| `LineKinds.DroppedIff` | crates/builder/src/flyctl.rs:1904-1909 | an instruction is left out exactly when the trimmed text of its first line spells CMD, ENTRYPOINT or EXPOSE |
| `LineKinds.IsFromIff` | crates/builder/src/flyctl.rs:1861-1864 | a `FROM` line, character by character |
| `LineKinds.ContinuesIff` | crates/builder/src/flyctl.rs:1884 | a line continues exactly when its last character that is not white space is a backslash |
| `NamedStage.FindLastFrom` | crates/builder/src/flyctl.rs:1853-1865 | the first loop finds the last FROM line, or 0 |
| `NamedStage.StepLine` | crates/builder/src/flyctl.rs:1882-1930 | one turn of the line loop: what is kept, skipped or renamed and the next state |
| `NamedStage.ConvertLines` | crates/builder/src/flyctl.rs:1875-1930 | the loop is the continuation machine, and reports whether the last FROM line was renamed |
| `NamedStage.ConvertToNamedStage` | crates/builder/src/flyctl.rs:1853-1942 | the whole conversion: the stage of whole instructions, or the text as it is when there is no FROM line to rename |
| `LineKinds.StageLineByLine` | crates/builder/src/flyctl.rs:1853-1942 | the conversion character by character: the output is, in order, exactly the lines of the instructions that do not begin with CMD, ENTRYPOINT or EXPOSE in any letter case, with only the last `FROM` line renamed |
| `LineKinds.NoStageLine` | crates/builder/src/flyctl.rs:1936-1939 | without a `FROM` line that starts an instruction the text is returned as it is |
| `Renaming.BaseBeforeAs` | crates/builder/src/flyctl.rs:1917-1924 | the image part is what stands before the first upper-case ` AS `, trimmed |
| `Renaming.BaseWithoutAs` | crates/builder/src/flyctl.rs:1926-1929 | without one it is the whole trimmed line |
| `Renaming.NamedForm` | crates/builder/src/flyctl.rs:1910-1924 | in every branch the new line is the trimmed text before the first upper-case ` AS `, ` AS ` and the name |
| `Renaming.NamedShape` | crates/builder/src/flyctl.rs:1910-1924 | the renamed line is again a trimmed, uncontinued FROM line |
| `Renaming.RenameTwice` | crates/builder/src/flyctl.rs:1910-1924 | renaming it again changes nothing if and only if the image part does not end in ` AS` |
| `Stages.TwiceIff` | crates/builder/src/flyctl.rs:1853-1942 | for any line tests and any renaming: converting twice is converting once if and only if renaming twice is renaming once and the kept lines survive being joined and split |
| `Restage.StageIsInstructions` | crates/builder/src/flyctl.rs:1853-1942 | when the last FROM line is an uncontinued instruction of its own, the output is the kept instructions in order with only that line changed |
| `Restage.ConvertTwice` | crates/builder/src/flyctl.rs:1853-1942 | converting again with the same name changes nothing if and only if the image part does not end in ` AS`, no kept line but the last ends in a carriage return and the last kept line is not empty |
| `Restage.NothingToRename` | crates/builder/src/flyctl.rs:1936-1939 | without a FROM line the text is returned as it is |
| `Restage.LosesLastLine` | crates/builder/src/flyctl.rs:1941-1942 | an input with an empty last line on which the second conversion changes the text |
| `Restage.TakesAsForSeparator` | crates/builder/src/flyctl.rs:1910-1924 | an input ending in ` AS` on which it does |
| `Restage.LosesCarriageReturn` | crates/builder/src/flyctl.rs:1853-1942 | an input with a carriage return before a line ending on which it does |

## Left out

- HTTP forwarding, streaming bodies, retries and the Fly.io, Stripe, GitHub, Gemini and flyctl calls: effects that cannot be seen; upstream replies are arbitrary step inputs.
- The 64-bit hash behind cache keys: an uninterpreted function; the same-question half of `Gateway.Transparent` is stated for pairs of requests on which it does not collide.
- Serialised JSON: bodies are parsed values, so white space, field order and number formatting are not modelled; the serialised length that the size cap looks at is a field of the reply.
- Non-object and SSE-framed bodies in the id theorems: the code passes them through, and so does the model.
- Several header fields of the same name: the first value stands for the field, as in the code.
- `extract_tools`, `parse_first_jsonrpc`, tool search and ranking, code mode and the usage records: they feed other features.
- API-key lockout, client-IP extraction, plan and subscription look-ups, and what happens when Redis is down apart from the process-local limiter.
- Upper case of characters without ASCII letters in their upper case: they stand for themselves, which decides no test the code makes.
- Restage.ConvertTwice: stated for a last FROM line that is an uncontinued instruction of its own; a continued one is covered by `Instructions.RunForm` for one conversion only, because its continuation lines are cut off from it by the new name and start instructions of their own in the second conversion.
- Workspace-member detection, context-fit file checks, log redaction, ENV extraction and the generated Dockerfiles themselves: they depend on the file system or are constant text.
- Teardown and deployment status, database repositories, billing, webhooks, authentication and encryption code, the front end, e-mail templates and configuration.
