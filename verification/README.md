# Pullcord: a verified model of its stateful cores

Pullcord is a reverse proxy that authenticates users, starts the servers behind it on demand
and shuts them down when unused. This project models four of its components in Dafny and
proves how they behave over whole runs, not just in single calls. `dafny verify
dfyconfig.toml` checks everything.

| component | files | how it is modelled |
|---|---|---|
| sessions and login | `CookieNames`, `Sessions`, `SessionStore`, `SessionInvariants`, `SessionMerge`, `SessionHistory`, `SessionLifetime`, `SessionRefinement`, `Logins`, `Provenance`, `Visits`, `CookieGeneration`, `CookieChain` | `SessionStore` holds the objects: a handler's table, sessions, and cores shared between sessions, all updated in place. `Sessions` is the same as a state machine on numbered cores and sessions, together with a history of writes, merges and questions to password checkers; each object method is proved to take the corresponding step. The theorems are about all runs of that state machine, with any number of requests in flight. |
| configuration | `ConfigModel`, `ConfigLoader`, `ConfigTheorems`, `ConfigCycles`, `ConfigErrors` | `ConfigLoader` fills resource cells in a registry recursively and loops over the names in an arbitrary order; `ConfigModel` specifies it, next to an independent full expansion; `ConfigTheorems` relates the two and gives a typing of configs that decides success; `ConfigCycles` says, by the order in which references are met, when the loader reports a cycle and when it gives no answer; `ConfigErrors` does the same for every other error, and for the pipeline. |
| triggers | `RateLimit`, `TriggerTree`, `DelayTrigger` | The limiter and the compound node are objects with loops. Trees of them are values that carry the call history. The delay trigger is a state machine of callers, worker, timer, channel and clock. |
| service monitor | `Monitor` | The service is an object whose fields the methods update; a history of probes and marks is kept beside it and tied to the fields by its validity; its triggers are trees. |

## What the model takes as given

- Session number and core number coincide at creation because `GetSession` makes both. The
  protocol rule is the one the cookie mask filter follows: a session is masked at most once.
  Components other than login handlers write only keys that do not start with
  `authenticated-` or `xsrf-`; nothing in the repository but the login handler writes session
  values at all.
- The handler's name contains no regular expression metacharacters, so the mask is: the
  name, a dash, 64 hexadecimal digits of either case.
- Random bytes are inputs: a list of drawn names (the search is still running if all of them
  collide) and a secret. Reading them does not fail.
- The password checker is an arbitrary answer to each question: correct, bad password, no
  such identifier, or an error of its own.
- Times are nanoseconds since Go's zero time. Durations fit 63 bits, so a clock reading of
  our era lies further from the zero time than any period; clocks do not run backwards.
  Periods may be negative.
- In trigger trees and in the monitor every clock reading, every leaf's success or failure
  and every dial result is an input, consumed in the order the code asks for it. A dial has
  three results: reached, refused (reported as down without error), or any other error.
- References in configs are followed with fuel, one unit for each reference that is resolved
  in place. All results hold for every fuel; the ones about success say that some fuel suffices,
  and recursing without end means running out of fuel however much there is.
- The timer follows the rules of Go before version 1.23: a channel with one slot, and `Stop`
  reports false for a timer that has expired or been stopped.

## Where code and documentation disagree

The model follows the code.

- The rate limiter's first call is not checked, so a limiter with `MaxAllowed` zero lets one
  call through, ever (`RateLimit.ZeroAllowsOneEver`); the documented bound holds unless
  `MaxAllowed` is zero and the period is not negative (`RateLimit.DocumentedBoundIff`).
- The delay trigger describes itself as being reset by every request. After it has fired once
  the next request leaves its worker waiting for a tick that never comes, and every request
  after that blocks (`DelayTrigger.SecondRequestHangs`, `DelayTrigger.HungForever`,
  `DelayTrigger.ServedIffFirst`).
- The loader's check for cyclic dependencies does not catch every cycle. What it does on a bad
  config is decided by the first name, in the order of the map, that stands for nothing: it
  reports a cycle when building that name comes back to it, and recurses without end when
  building it gets into a cycle without coming back to it; otherwise it ends with another
  error, even if some cycle lies behind that error (`ConfigCycles.CycleReportedIff`,
  `ConfigCycles.LoadNeverAnswersIff`; `ConfigCycles.FailureDependsOnOrder` is an instance).
- A request that presents a valid cookie and then the same name with another value ends on a
  core that has left the table and gets no new cookie (`SessionLifetime.EndsReachableIff`,
  `SessionLifetime.SpoiledProofHappens`).

## Model

| member | source | states |
|---|---|---|
| CookieNames.EncodeInjective | authentication/minsession.go:120 | Different random bytes never encode to the same hexadecimal text. |
| CookieNames.EncodeRoundTrip | authentication/minsession.go:120 | Names and secrets are lowercase hexadecimal, high digit first: a decoder reading "0123456789abcdef" gives the bytes back. |
| CookieNames.GeneratedNameIsOwned | authentication/minsession.go:120-215 | A name the handler generates is always accepted by the name mask the same handler applies later. |
| CookieNames.OwnersAreUnique | authentication/minsession.go:209-215 | No cookie name is accepted by the masks of two handlers with different literal names. |
| CookieNames.OwnsIff | authentication/minsession.go:209-215 | The mask accepts exactly the handler's name, a dash and 64 hexadecimal digits of either case. |
| CookieNames.GeneratedSizes | authentication/minsession.go:17-18 | A generated name has 64 digits after the handler's name and dash, a secret 256. |
| SessionInvariants.FreshNameIsFirstFree | authentication/minsession.go:108-141 | The search takes the first drawn name that is not a table key, and fails only if every draw collides; the result is owned by the handler and not in the table. |
| CookieGeneration.EnoughDrawsSuffice | authentication/minsession.go:108-141 | Pigeonhole: with more distinct draws than taken names the search succeeds. |
| CookieGeneration.MaskCompletes | authentication/minsession.go:302-348 | A mask request completes whenever the draws contain more distinct ones than the table has entries. |
| SessionStore.Core.AbsorbFrom | authentication/minsession.go:242-244 | Copying key by key, in any key order and even from itself, leaves the old data overridden by the source's. |
| SessionStore.Session.GetValue | authentication/minsession.go:175-184 | Reads the value in the core the session points at, or reports that there is none. |
| SessionStore.Session.SetValue | authentication/minsession.go:192-197 | Writes one key of the shared core: every session on that core, and no other core, sees it. |
| SessionStore.Session.Adopt | authentication/minsession.go:235-252 | Merges into the accepted session's core and re-points this session to it. |
| SessionStore.Session.Consider | authentication/minsession.go:218-293 | One turn of the mask loop on the shared objects does exactly the specified turn on values. |
| SessionStore.Session.Sift | authentication/minsession.go:218-293 | The whole mask loop, with its lists and its need for a new cookie, as specified. |
| SessionStore.Session.Enrol | authentication/minsession.go:338-339 | Stores the new secret in the core and enters this session in the table. |
| SessionStore.Session.CookieMask | authentication/minsession.go:201-351 | The in-place mask over aliased sessions and cores changes table, cores, sessions and both result lists exactly as the state machine does. |
| SessionStore.Handler.constructor | authentication/minsession.go:63-70 | A new handler has an empty table. |
| SessionStore.Handler.GetSession | authentication/minsession.go:78-95 | Adds one session with a core of its own, empty and unregistered, and changes nothing else. |
| SessionStore.Handler.Forget | authentication/minsession.go:267 | Removes one table entry and nothing else. |
| SessionStore.Handler.GenCookie | authentication/minsession.go:97-163 | The drawing loop returns the first free name with the encoded secret. |
| SessionStore.CookieMaskFilter.Admit | authentication/cookiemask.go:93-135 | One new session per request, masked exactly once; the store invariant survives. |
| SessionStore.LoginHandler.Examine | authentication/login_handler.go:104-201 | The branch chain reaches the specified verdict without writing anything. |
| SessionStore.LoginHandler.FilterRequest | authentication/login_handler.go:90-261 | Page and every write (flag, token) of a login request are as specified. |
| SessionInvariants.MaskLoopInv | authentication/minsession.go:218-293 | Every turn of the mask loop keeps the store invariant, and a request that proved nothing still has its private core. |
| SessionInvariants.RunInv | authentication/minsession.go:78-351 | The store invariant, true of the empty store (`EmptyInv`), holds after every run of interleaved requests in which each session is masked at most once. |
| SessionInvariants.NamesNeverShareCores | authentication/minsession.go:338-339 | Two table names never lead to the same core. |
| SessionInvariants.EntryLeadsToOwnCore | authentication/minsession.go:338-339 | A table entry leads to a session still on the core it was registered with, under the name issued for it. |
| SessionInvariants.AttachedOnlyByCookie | authentication/minsession.go:222-252 | A session on another session's core presented exactly the cookie issued for that core. |
| SessionInvariants.RegisteredCoreIsStable | authentication/minsession.go:192-348 | A registered core is never re-pointed and keeps its secret; its data change only through its creator or a request that presented its exact cookie. |
| SessionMerge.MaskLoopMeaning | authentication/minsession.go:218-293 | For every cookie list: table entries lost, session re-pointed, data merged, cookies forwarded, and cookies rejected with a set-cookie of negative lifetime and no scope, all in terms of the store before the request. |
| SessionMerge.ExpiredDropsTheBad | authentication/minsession.go:284-288 | One set-cookie with the name and value of the cookie, lifetime -1, no path, no domain and not HTTP-only for each owned cookie that proves nothing, in order. |
| SessionMerge.ForeignInOrder | authentication/minsession.go:290-292 | The forwarded cookies are those at the positions of cookies the mask does not match, in order. |
| SessionMerge.MergedFirstHolderWins | authentication/minsession.go:237-252 | In merged data a key is present iff some merged core held it, with the value of the earliest core holding it. |
| SessionMerge.MergeAgain | authentication/minsession.go:246-252 | Merging a core that already took part (the same cookie twice included) changes nothing. |
| SessionMerge.LoopEndsOnLastProved | authentication/minsession.go:252 | The session ends on the core of the last cookie that proved one; a new cookie is needed iff none did. |
| CookieChain.EveryCookieHasOneFate | authentication/minsession.go:218-293 | Each incoming cookie is forwarded, accepted or expired: the three counts add up. |
| CookieChain.ForeignAreForeign | authentication/minsession.go:290-292 | Forwarded cookies are exactly those the handler's mask does not match. |
| CookieChain.MaskIgnoresOthers | authentication/minsession.go:221-292 | Taking out another handler's cookies first changes nothing in what this handler does. |
| CookieChain.EffectsAt | authentication/cookiemask.go:101-135 | The list of effects in `ChainDecomposes` holds, for each handler, what its mask does with the raw request. |
| CookieChain.ChainDecomposes | authentication/cookiemask.go:101-180 | In a chain of any number of filters with distinct names each handler acts as if it had seen the raw request alone, the application gets the unowned cookies, and set-cookies come innermost first. |
| CookieChain.OrderDoesNotMatter | authentication/cookiemask.go:137-162 | What the application receives is independent of the order of the filters. |
| CookieChain.StripKeepsUnowned | authentication/cookiemask.go:137-162 | The application receives exactly the cookies no handler of the chain owns. |
| SessionRefinement.MaskRefinesPlainMap | authentication/minsession.go:201-351 | A mask request on the pointer-based store gives the same reply as on a machine without pointers: a map from cookie name to secret and data, and for each session the name it works on or a group of data apart from the map; the two still agree afterwards. |
| SessionRefinement.StepRefinesPlainMap | authentication/minsession.go:78-351 | New sessions, masks, writes and logins are allowed alike, computed on the plain machine alone, with the same reply, and keep the agreement. |
| SessionRefinement.StoreRefinesPlainMap | authentication/minsession.go:78-351 | From an empty store every sequence of events, with any number of requests in flight, is possible on both or neither, gets the same replies from both, and leaves the same records. |
| SessionHistory.RunRecorded | authentication/minsession.go:192-252 | In every reachable store each core's data are the replay of the write history, and the history keeps the login discipline. |
| SessionHistory.ReplayIsLastWrite | authentication/minsession.go:175-197 | Replaying means: the last write of each key, absent if there was none. |
| SessionHistory.LoginNeverCrashes | authentication/login_handler.go:109-152 | Stored tokens are always strings and flags always true, so the type assertion never panics; the error page appears only for a failing checker. |
| Logins.VerdictMeaning | authentication/login_handler.go:104-201 | Which branch is reached on any data, form and checker answer, with the three messages and the literal key names, in terms of what is stored and submitted. |
| Logins.LoginOutcome | authentication/login_handler.go:90-261 | The whole outcome of a login request in a reachable store: page, message, token, what is written and what is recorded, by data, form and answer; a checker's own error shows the error page and writes nothing. |
| Logins.ErrorPageIff | authentication/login_handler.go:177-184 | The error page is shown exactly when the token, one user and one password were submitted on a core not logged in and the checker failed with its own error; the data stay and the question is recorded. |
| SessionHistory.QuestionsCarryTheToken | authentication/login_handler.go:144-172 | The checker is asked only with the stored token submitted exactly once, with one user and one password, and never when already logged in. |
| Provenance.EveryValueFlowed | authentication/minsession.go:242-252 | Every value in every core was put into some core and carried there by a chain of merges in time order. |
| Provenance.AuthenticationHasALogin | authentication/login_handler.go:104-201 | In every run a true flag on a core implies a successful login for that identifier on some core and merges leading from it. |
| Provenance.AuthenticationHasALoginRequest | authentication/login_handler.go:104-201 | The same in terms of requests: an event of the run submitted the right token and an accepted password through a session on the core the flag came from. |
| Provenance.QuestionEvent | authentication/login_handler.go:168-172 | Every question in the history was put by a login request of the run with that form and answer. |
| Provenance.AuthenticationStays | authentication/minsession.go:242-252 | Once a core is authenticated it stays so in every continuation. |
| Provenance.DownstreamIffAuthenticated | authentication/login_handler.go:109-112 | The downstream filter runs iff the core is authenticated when the request is done; requests already logged in change nothing. |
| Provenance.LoginsDoNotInterfere | authentication/login_handler.go:104-107 | Handlers with different identifiers never set each other's flag, and no login touches another core's flag. |
| Provenance.GrantedIff | authentication/login_handler.go:124-201 | Exactly which forms and answers log a session in. |
| Provenance.LoginRoundTrip | authentication/login_handler.go:203-260 | The login page carries the token the core now holds: sending it back with an accepted user and password, through any session on that core, logs in. |
| Provenance.ChecksNeverExceedTokens | authentication/login_handler.go:124-228 | Over any run, answered password checks on a core never exceed the tokens written to it by issue or by merge from another core. |
| SessionLifetime.LiveForever | authentication/minsession.go:218-267 | An issued cookie stays valid for the same core across any run in which nobody presents its name with another value. |
| SessionLifetime.SessionIsDurable | authentication/minsession.go:218-252 | Presented as the last valid cookie of any later request, it yields the same core with the last value written for every key. |
| SessionLifetime.ReturningVisitor | authentication/minsession.go:218-252 | A new session with just this cookie sees exactly what the core held, and neither sets nor forwards a cookie. |
| SessionLifetime.WrongValueDestroys | authentication/minsession.go:253-267 | Presenting a live name with a wrong value makes its core unreachable from the table. |
| SessionLifetime.DestructionIsPermanent | authentication/minsession.go:253-267 | An unreachable registered core stays unreachable in every continuation, even if its name is drawn again. |
| SessionLifetime.EndsReachableIff | authentication/minsession.go:235-267 | The core a request ends on is in the table iff no cookie of the request gives its name another value (an accepted and then rejected cookie leaves the request on a core outside the table). |
| SessionLifetime.SpoiledProofLosesSession | authentication/minsession.go:235-288 | For every live cookie: presenting it and then its name with another value leaves the request on the core, the core out of the table, and one set-cookie, which removes the bad cookie (lifetime -1). |
| SessionLifetime.SpoiledProofHappens | authentication/minsession.go:235-267 | Such a request is possible on any handler right after its first visit. |
| SessionLifetime.IssuedCookieIsLive | authentication/minsession.go:302-348 | A request that proves nothing is issued exactly one cookie, after the expired ones, with the handler's scope and lifetime; that cookie proves the new session from then on. A request that proves a session is issued none. |
| SessionLifetime.MaskReplies | authentication/minsession.go:201-351 | Every mask request, completed or not: forwarded cookies by position, one removal (lifetime -1) for each owned cookie that proves nothing in order, then a new cookie exactly if nothing was proved and a free name was drawn. |
| SessionLifetime.IncompleteIff | authentication/minsession.go:302-312 | A request is still looking for a name exactly if nothing was proved and every draw collides; until then it has done what the loop did. |
| Visits.LoggedInVisitorReturns | authentication/cookiemask.go:101-162 | A visitor who logged in reaches the downstream filter in any later request whose last valid cookie is theirs, across any run in which nobody spoiled it. |
| Visits.NobodyAttachesLater | authentication/minsession.go:253-267 | Once a registered core is out of the table no session masked later, in any continuation, is attached to it. |
| Visits.StrangerMustLogIn | authentication/login_handler.go:124-260 | A new session that proves nothing is shown the login page, whatever form it carries. |
| ConfigLoader.Loader.Unmarshal | config/config.go:48-126 | Recursive filling of resource cells against the registry returns what the specified resolution returns, and leaves the cell alone on failure. |
| ConfigLoader.Loader.UnmarshalAll | config/config.go:119-125 | Children are built left to right in cells of their own, stopping at the first error. |
| ConfigLoader.Loader.Register | config/config.go:179-196 | One turn of the resource loop: exactly one entry is under construction, then complete (or left incomplete on failure). |
| ConfigLoader.Loader.LoadResources | config/config.go:177-197 | The loop over the map in any order computes the specified registry for some enumeration of the names. |
| ConfigLoader.Loader.ServerFromConfig | config/config.go:164-238 | Empty pipeline, missing names, non-filters, routers and filters are treated as specified. |
| ConfigTheorems.MeansUnique | config/config.go:48-126 | A definition stands for at most one resource, whatever the depth of expansion. |
| ConfigTheorems.ResolveAgrees | config/config.go:84-105 | Memoised resolution against a consistent registry equals full expansion. |
| ConfigTheorems.LoadAgrees | config/config.go:177-197 | After a successful loop every name is registered, complete and equal to the full expansion of its definition. |
| ConfigTheorems.ResultIsOrderIndependent | config/config.go:178 | Any two successful runs give the same registry, whatever the map order. |
| ConfigTheorems.LoadSucceedsIffTyped | config/config.go:71-197 | The loop succeeds, in whatever order, iff references are acyclic and defined, types registered and children of the required kinds. |
| ConfigTheorems.TypedLoads | config/config.go:71-197 | A well-typed config loads from any consistent partial registry once the fuel reaches its highest rank. |
| ConfigTheorems.SuccessIsOrderIndependent | config/config.go:178 | Whether a config loads does not depend on the map order. |
| ConfigTheorems.MoreFuel | config/config.go:105 | Fuel only decides whether an answer is reached, never which. |
| ConfigTheorems.CycleErrorIsReal | config/config.go:84-102 | The cyclic dependency error is raised only about the name under construction, and that name reaches itself through references and nested children. |
| ConfigCycles.ResolveNeverAnswersIff | config/config.go:84-105 | Building a definition reaches no answer exactly when the references it meets from left to right, each behind siblings that stand for something, get into a cycle clear of names under construction. |
| ConfigCycles.LoadNeverAnswersIff | config/config.go:84-197 | In a given order the loop reaches no answer exactly when the first name that stands for nothing gets into a cycle it does not come back from; a condition on the config alone. |
| ConfigCycles.CycleReportedIff | config/config.go:84-102 | A cycle is reported about a name exactly when it is the first of the order that stands for nothing and building it comes back to it. |
| ConfigCycles.AnswerDependsOnOrderIff | config/config.go:178-186 | One order gets an answer and another none exactly when some name strays into a cycle and some other bad name does not. |
| ConfigCycles.FailureDependsOnOrder | config/config.go:84-105 | A two-name instance: one order never answers, the other reports the cycle. |
| ConfigErrors.ErrorReportedIff | config/config.go:48-139 | Every error but the one about cycles is the result exactly when building the first name of the order that stands for nothing leads, without coming back to it, to that defect: an undecodable definition, an unknown reference, an unknown type, or children that fit no required kind. |
| ConfigCycles.TypedIffAcyclic | config/config.go:84-139 | A typing exists exactly when no name leads to itself through mentioned references and, ranks aside, references are defined, types registered and children of their kinds. |
| ConfigTheorems.ServerBuiltIff | config/config.go:164-238 | A server is built iff the pipeline is not empty, the config is well typed and every pipeline name is a filter or a router. |
| ConfigErrors.ServerRunsThePipeline | config/config.go:201-229 | A built server runs the filters its pipeline names, in order, each the full expansion of its name; routers are left out. |
| ConfigErrors.ServerRefusals | config/config.go:164-229 | An empty pipeline is refused first, then whatever the loop ends with, then the first pipeline name that is not registered or not a filter or router. |
| RateLimit.PrunedAreTheRecent | trigger/ratelimit.go:94-98 | What pruning leaves is exactly the guarded calls no older than the period. |
| RateLimit.QueueRefinesHistory | trigger/ratelimit.go:90-110 | After the first call a request is refused iff at least MaxAllowed guarded calls lie within the period, and the queue keeps tracking the history. |
| RateLimit.DecisionsFollowHistory | trigger/ratelimit.go:90-110 | Over any run every decision is the one the full history calls for. |
| RateLimit.SpacedMeansBounded | trigger/ratelimit.go:100-102 | Calls spaced as the queue enforces never exceed the limit in a closed window. |
| RateLimit.WindowIsBounded | trigger/ratelimit.go:90-110 | In any run every closed window of one period holds at most MaxAllowed guarded calls (one, if MaxAllowed is zero). |
| RateLimit.ZeroAllowsOneEver | trigger/ratelimit.go:93-105 | With MaxAllowed zero exactly the first request of any run is let through. |
| RateLimit.DocumentedBoundIff | trigger/ratelimit.go:86-110 | The bound MaxAllowed itself holds on all runs iff MaxAllowed is not zero or the period is negative. |
| RateLimit.RateLimitTrigger.constructor | trigger/ratelimit.go:73-84 | A new limiter has called nothing. |
| RateLimit.RateLimitTrigger.Trigger | trigger/ratelimit.go:90-110 | The pruning loop decides by the history of guarded calls, records an admitted call, and keeps every window bounded. |
| TriggerTree.CompoundTrigger.Trigger | trigger/compound.go:60-67 | The loop over effectful children with early return does what the recursive specification does. |
| TriggerTree.CompoundCallsPrefix | trigger/compound.go:60-67 | A call of a compound trigger calls its children in order up to and including the first error, each in the world the one before left; later children are untouched. |
| TriggerTree.ResultExplains | trigger/compound.go:60-67 | Success of a call of any tree means every leaf was called once, with the stamps of the limiters that let it pass, and succeeded; an error means it stopped at a leaf that failed or a limiter that refused, with everything before called and everything after untouched; answers are used up one per leaf call. |
| TriggerTree.FireCallsLeavesOnce | trigger/compound.go:60-67 | One call of a tree calls no leaf twice and leaves every rate as it was, whatever its result (`ResultExplains` says which leaves are called). |
| TriggerTree.FireKeepsSound | trigger/ratelimit.go:90-110 | A call of any tree keeps: every leaf call used up one guarded call of each limiter around it, and every limiter tracks its history. |
| TriggerTree.TreesStayWithinRates | trigger/ratelimit.go:90-110 | In any tree over any run each leaf stays within the rate of every limiter around it, in every window. |
| TriggerTree.LeavesKeepOutermostRate | trigger/ratelimit.go:90-110 | Every leaf below a limiter, however deep, keeps to that limiter's rate by its stamps. |
| DelayTrigger.RunInv | trigger/delay.go:75-122 | In every interleaving of callers, clock, timer and worker at most one tick exists, it is never due too early, and a running timer is due within one delay from now. |
| DelayTrigger.ShotsComeAfterTheDelay | trigger/delay.go:75-122 | The delayed trigger is called only when the delay has passed since every request accepted before, at most once, and never more often than requested. |
| DelayTrigger.DrainFindsATick | trigger/delay.go:84-90 | Up to the first shot the drain always finds a tick, and no tick survives a reset. |
| DelayTrigger.InternalStepsApproach | trigger/delay.go:80-104 | Before the first shot every step of worker or timer leads strictly closer to it. |
| DelayTrigger.NeverStuckBeforeShot | trigger/delay.go:80-104 | Before the first shot some such step is possible unless the running timer is not yet due. |
| DelayTrigger.ReachesShot | trigger/delay.go:80-122 | From any state with a request made and no shot yet, worker, timer and clock alone reach a shot, waiting no longer than the timer has to run: at most the delay. |
| DelayTrigger.RequestRestartsTimer | trigger/delay.go:81-91 | Before the first shot a waiting request is heard at once and, without waiting, leads to a timer that runs for exactly the delay. |
| DelayTrigger.PromptShot | trigger/delay.go:75-122 | So a worker that takes no time calls the delayed trigger exactly one delay after the last request. |
| DelayTrigger.HungForever | trigger/delay.go:84-86 | A worker draining after its shot waits forever: nothing is accepted or fired in any continuation. |
| DelayTrigger.RequestAfterShotHangs | trigger/delay.go:84-102 | A request accepted after the shot brings the worker into that state. |
| DelayTrigger.SecondRequestHangs | trigger/delay.go:75-122 | For every delay there is a run from the start in which the first request is served and the second one hangs the worker. |
| DelayTrigger.ServedIffFirst | trigger/delay.go:75-122 | A request can still be followed by a call of the delayed trigger iff it has not been called before. |
| Monitor.MinMonitorredService.constructor | monitor/minmonitor.go:120-143 | A new service is valid, counts as down and has never been checked. |
| Monitor.MinMonitorredService.DoReprobe | monitor/minmonitor.go:232-298 | Status, time and the reported error follow the dial's result. |
| Monitor.MinMonitorredService.DoStatus | monitor/minmonitor.go:328-357 | Answers up without dialling exactly when the latest finding says up and is within the grace period; otherwise records a dial of this call. The cache keeps agreeing with the history. |
| Monitor.MinMonitorredService.DoSetStatusUp | monitor/minmonitor.go:378-391 | Marks the service up as of now. |
| Monitor.MinMonitorredService.DoFilterRequest | monitor/minmonitor.go:417-571 | Fields, triggers and page after a request are as specified; passthru iff up by the history and calling Always and OnUp, where set, succeeds; NotReady iff a dial of this request was refused and calling Always and OnDown, where set, succeeds; OnDown is touched only after such a dial. |
| Monitor.StatusRefinesHistory | monitor/minmonitor.go:300-357 | Up without probing iff the latest event was an up event no older than the grace period; a down answer always comes with a failed probe in the same call. |
| Monitor.TriggersDecide | monitor/minmonitor.go:417-571 | Which triggers a request calls, in which surroundings, that their reported results and new trees are those of the calls, and the page these results lead to. |
| Monitor.RequestMeaning | monitor/minmonitor.go:417-571 | OnDown fires iff this request's own probe was refused and calling Always, if set, succeeds; passthru iff up by the history and the calls of Always and OnUp, where set, succeed; NotReady likewise with OnDown; a faulty probe fires nothing. |
| Monitor.PagesTellTheTruth | monitor/minmonitor.go:480-571 | Who is told to wait has had the whole OnDown tree called, who is passed through the whole OnUp tree, both the whole Always tree. |
| Monitor.UnfiredTriggersStay | monitor/minmonitor.go:448-547 | Triggers a request does not fire are untouched; Always is fired first, in the world the status left. |
| Monitor.EveryLaunchIsJustified | monitor/minmonitor.go:417-547 | In any run, whatever tree OnDown is, a turn that changes it is a request whose own probe was just refused, with Always, if set, having succeeded; each leaf is called at most once. |
| Monitor.RunsStayWithinRates | monitor/minmonitor.go:417-571 | Over any run of requests, queries, forced probes and marks the cache follows the history and every trigger tree stays within its rates. |
| Monitor.LauncherStays | monitor/minmonitor.go:518-547 | A limiter as OnDown, around any tree: a request lets nothing through and calls nothing below, or fires OnDown, records one call and calls each leaf below at most once with that stamp. |
| Monitor.LaunchesAreBounded | monitor/minmonitor.go:417-571 | With a rate limiter as OnDown, around any tree, any run lets at most MaxAllowed calls through per period (one if MaxAllowed is zero), and each leaf below is called at most that often. |

## Left out

- HTTP details: header text and parsing, HTML bodies, the upstream proxy, sockets, shell commands and logging; cookie lists pass between nested filters directly.
- JSON decoding: a definition is null, undecodable, a reference, or a typed node with children of required kinds; the bodies of the individual types, some of which build something other than their constructors, are not modelled.
- Sharing in built resources: results are compared as structures, so that two parents may hold the very same trigger object is not captured, and trigger trees have no shared nodes.
- Children of trees: inside a tree limiters and leaves are values, not objects; RateLimitTrigger and CompoundTrigger are modelled as objects on their own.
- DelayTrigger.RunInv: the worker is a state machine of atomic steps rather than a running loop, because its behaviour lies in the interleaving; the branch for a closed request channel is absent since nothing closes it.
- MinMonitor's own table of named services: adding, duplicate names and unknown names are one-branch facts.
- Data races on Go maps and on the nil check of the delay trigger: each mask, read, write, login request and first call is one step.
- Cookie expiry: the maximum age is sent to the client and never enforced by the table.
- Password hashing: PBKDF2, base64 and constant-time comparison.
- Failing random reads: a failed read makes the mask dereference a nil cookie.
- Provenance.AuthenticationHasALogin: one session handler; login handlers with any number of identifiers share its sessions.
- conditional.go, util, proxy, the shell trigger and the SQS trigger: easy members only.
