# prismproxy, modelled in Dafny

A verification project for the state machines inside prismproxy: the connection pool and the
per-request forwarding protocol, upstream health checking, hot reload and its meeting with certificate
renewal, ACME provisioning as a file protocol, the WebAssembly plugin host, routing, header rewriting
and request accounting. `dafny verify dfyconfig.toml` checks all of it.

The concurrent and crash-prone parts are deterministic step functions over an explicit state, where an
action that is not enabled changes nothing; a run is a sequence of actions, so a lemma about every
sequence is a lemma about every interleaving. The code that changes state step by step is written as
classes and methods with loops, and each such method is proved to do what the step functions, or a
specification that does not mention the code, say it does.

| file | what it holds |
|---|---|
| Prelude.dfy | Option, Result, counting, products |
| Pool.dfy, ForwardProtocol.dfy, Proxy.dfy, Headers.dfy | pool, interleaved calls of `forward`, the body of `forward`, header rewriting |
| ProxyAlone.dfy | what an undisturbed call of `forward` leaves in the pool |
| HealthCheck.dfy | the health loop |
| Config.dfy, Routing.dfy, State.dfy | validation, route selection, `build_state` and the health flags over swaps |
| Swaps.dfy | the health flags over runs of the reload, renewal and health loops |
| Reload.dfy, ReloadRuns.dfy | reload loop, editor and renewal loop; whole runs of them, by the order of events |
| AcmeProtocol.dfy, Acme.dfy | provisioning protocol, the body of `provision_with_store` |
| Renewal.dfy, Stamps.dfy | timing of renewals and polls, the timestamp file |
| AcmeRenewal.dfy, RenewalDays.dfy | what makes a directory due, the renewal loop over many days |
| Wasm.dfy, Plugin.dfy | the instructions the fixture uses, the plugin host and chain |
| Metrics.dfy, RenderedMean.dfy, Handler.dfy | counters, the mean they give, and one request from path to response |

## What the proofs say about the code

Guarantees that hold in every run are in the table below. These are the places where a guarantee one
might expect ends, each with its exact condition:

- A good update of the configuration file is lost exactly in two orders of events: startup built from a
  version the file had left before the first stat and nothing was edited or installed since; or, between the last
  successful renewal's reading of the configuration and its end, came the last edit, a stat and its
  reload, and nothing was installed after (`ReloadRuns.UpdateIsLostIff`). Neither is repaired by later
  ticks (`Reload.RenewalUndoesReload`, `Reload.StartupLosesAnEdit`).
- The installed version moves backwards exactly at the end of a renewal since whose reading there was an
  edit and then a reload (`ReloadRuns.InstalledGoesBackIff`), and one that does not validate is installed
  exactly when the last install is that of a renewal that had read one (`ReloadRuns.InstalledIsGoodIff`,
  with `Reload.RenewalInstallsUnvalidated` as such a run).
- After the first swap no flag of the installed state has a health loop, so every route counts as
  healthy from then on (`State.LoopsWatchUntilSwapped`, and by events `Swaps.WatchedUntilInstall`), as the
  design note for upstream health says.
- A lockfile left by a crash stops all later provisioning, and a crash between the two renames leaves
  the new certificate with the old key for good (`AcmeProtocol.StaleLockStopsEverything`,
  `AcmeProtocol.CrashBetweenRenamesIsPermanent`). So does one whose removal fails
  (`RenewalDays.LeftLockEndsRenewal`).
- A renewal that fails before it writes the timestamp is due again, unless the certificate had been missing
  beside a recent timestamp and has been replaced (`AcmeRenewal.UnfinishedIsStillDueIff`,
  `AcmeRenewal.FailedIsDueAgainIff`), which does happen (`AcmeRenewal.MissingCertificateIsNotDueAgain`). A torn
  timestamp only brings the next renewal forward (`AcmeRenewal.TornStampIsDueSooner`,
  `AcmeRenewal.TornIsDueAtOnce`).
- First-match routing is longest-prefix routing exactly when no earlier prefix is a proper prefix of a
  later one (`Routing.FirstIsLongestIff`).
- The order of plugins is irrelevant to a request exactly when all plugins that do not pass it agree
  (`Plugin.OrderIrrelevantIff`).
- `render` loads the total and then the sum of times. Its mean lies between the least and the greatest time
  when the sum holds as many recordings as the total had counted (`RenderedMean.TornMeanIsBetween`), as it
  does at rest. Otherwise equal times can come out as another value, exactly when recordings are missing
  from the sum, or it holds more and enough of them fit before it wraps
  (`RenderedMean.EqualTimesAverageIff`, with `RenderedMean.TornRenderDoublesTheMean` as an instance).
- A failed send keeps its sender alive until the call returns, because the variable lives that long;
  the model counts it as held.

Where the documentation and the code differ the code is followed: docs/plugin-abi.md says a plugin
need not export a memory, while `run_on_request` refuses a module that does not, on every request
(`Plugin.MemorylessIsRefused`).

## Assumptions

- Atomics and locks are sequentially consistent; a lock section is one step.
- A new connection gets an identity no earlier one had.
- Timestamps are natural numbers. The reload results assume that the file's mtimes increase strictly
  from version to version where they say `Increasing`; the renewal results that clocks stay far below
  2^63 seconds, that ticks are exactly daily, and the polling bounds that a sleep lasts at least its
  nominal time.
- Parsing reads the digits of a 64-bit number as that number and fails on nothing, where the renewal results
  say `ReadsDecimal`.
- A rename is atomic, and a crash is the death of the process, not a loss of power.
- Arithmetic wraps as in a release build: the health counters at 2^32, the metrics and the renewal
  sum at 2^64.
- Socket address parsing, header value parsing, plugin compilation, PEM handling and the ACME server
  are parameters: a proof holds whatever they answer.

## Model

| member | source | states |
|---|---|---|
| ForwardProtocol.EveryRunKeepsInv | src/proxy.rs:29-99 | In every reachable state of any number of interleaved, cancellable calls: each handle is in one place or dropped, is filed under the address it was opened to, stacks are within the bound, failed handles are retired, histories fit |
| ForwardProtocol.HandlesAreConserved | src/pool.rs:25-59 | Handles opened = idle slots + held by calls + dropped, in every reachable state |
| ForwardProtocol.CallsBehave | src/proxy.rs:70-99 | A call sends at most twice, both times the same request; releases at most one handle, the one it last sent on, and exactly one if it returns a response |
| ForwardProtocol.FailedHandleIsNeverReused | src/proxy.rs:87-98 | Once a send on a handle has failed it is never idle, never current in a call, and never sent on again, in any continuation of any run |
| ForwardProtocol.FailuresAreRecorded | src/proxy.rs:82-95 | A handle counts as failed exactly when a send on it fails, in the first try or the second |
| ForwardProtocol.AdvanceIsLocal | src/proxy.rs:80-99 | A step of one call leaves every other call, the bound and the rewriting alone |
| ForwardProtocol.AcquireMoves | src/pool.rs:25-35 | The lock section of acquire moves the top idle handle to the call and nothing else |
| ForwardProtocol.ReleaseWithRoomMoves | src/pool.rs:37-43 | With room, release moves the call's handle to the top of its stack and nothing else |
| ForwardProtocol.ReleaseWhenFullDrops | src/pool.rs:37-43 | Without room, release drops exactly the call's handle |
| ForwardProtocol.ReleaseDropsIff | src/pool.rs:37-43 | Release drops its handle exactly when as many are idle for its address as the bound allows, and puts it on top otherwise |
| ForwardProtocol.FinishDrops | src/proxy.rs:29-39 | A call that returns or is cancelled drops exactly what it holds, the stale sender of a retry included |
| Pool.ReleaseThenAcquire | src/pool.rs:25-43 | A handle released with room is the next acquired, and that restores every stack |
| Pool.ConnectionPool.PopIdle | src/pool.rs:26-33 | Takes the last idle handle of the address if there is one, leaving those below it; every other stack stays |
| Pool.ConnectionPool.Release | src/pool.rs:37-43 | With fewer than the bound idle for the address, the sender goes on top of them, the entry being created if need be; otherwise the stack stays; every other stack stays |
| Proxy.Forward | src/proxy.rs:21-113 | Whatever the network answers, whatever steps other calls take during its awaits and whenever the timer fires: pool and calls end as the step system says after exactly these events: this request arrives, then await by await the others take their steps and the call the one the network gives, until it is through or the timer fires. It is a timeout exactly when the timer leaves fewer awaits than that takes, and a response exactly when body, connection, one of two sends and response body work. Every request sent carries the method, URI and body that came in, none of the eight hop-by-hop names, the client address and the scheme in x-forwarded-for and x-forwarded-proto, the upstream address in host and x-forwarded-host, and every other name unchanged |
| Proxy.WireIs | src/proxy.rs:52-78 | The request put on the wire, in terms of the incoming one: method, URI, body, and name by name the headers |
| Proxy.StepsAre | src/proxy.rs:50-106 | The steps of a call in their order: body, lock section, connection if none is idle, first send, release or reconnection, second send and release, response body |
| Proxy.AwaitsAre | src/proxy.rs:29-39 | How many awaits a call takes: one per step, in each course of events |
| ProxyAlone.AloneAnswered | src/proxy.rs:80-106 | An undisturbed call that is answered leaves the pool as it found it if it found an idle sender, and otherwise its new sender in the pool, within the bound |
| ProxyAlone.AloneRetried | src/proxy.rs:87-98 | An undisturbed call whose idle sender is stale sends the same request over a fresh one, which takes its place in the pool; the stale one is dropped |
| Proxy.Exchange | src/proxy.rs:82-106 | First send, then either release or the retry branch, then the response body; at most one resend, of the same request |
| Proxy.Retry | src/proxy.rs:87-98 | The retry branch: fresh connection, second send, release |
| Headers.HeaderMap.RewriteForUpstream | src/proxy.rs:52-68 | The edits, in order, leave under each name exactly what is prescribed from the incoming map |
| Headers.HeaderMap.BuildRequest | src/proxy.rs:70-78 | Copying pair by pair, names in any order, rebuilds the same multimap |
| Headers.HeaderMap.StripHopByHop | src/proxy.rs:108-110 | Removes exactly the eight hop-by-hop names; every other name keeps its values |
| Headers.RewriteMeetsSpec | src/proxy.rs:52-68 | The eight hop-by-hop names gone; x-forwarded-for the client address, x-forwarded-proto the scheme; host and x-forwarded-host the upstream address, or if that is not a header value Host as it came and x-forwarded-host its first value; every other name keeps its values |
| Headers.HopByHopNames | src/proxy.rs:10-19 | Exactly eight names are hop-by-hop |
| Headers.RewriteIsIdempotent | src/proxy.rs:52-68 | Rewriting twice is rewriting once, also when the address is not a header value |
| HealthCheck.UpstreamHealthLoop | src/health_check.rs:21-50 | After every ping the flag, kept with wrapping counters, is the one the counter-free specification prescribes |
| HealthCheck.WrappingIsHarmless | src/health_check.rs:21-50 | For every history and all 32-bit thresholds, wrapping and unbounded counters give the same flag |
| HealthCheck.FlagIsDecidedByLatestRun | src/health_check.rs:31-49 | The flag is decided by the latest long-enough run of failures or successes, and is the initial value if there is none |
| HealthCheck.CountersAreTrailingRuns | src/health_check.rs:31-40 | At most one counter is non-zero; each is the length of the trailing run of its kind |
| HealthCheck.LongRunForcesFlag | src/health_check.rs:31-49 | Enough consecutive results of one kind force the flag, whatever came before |
| HealthCheck.FlappingIsBounded | src/health_check.rs:31-49 | downs * fail + ups * recover never exceeds the number of pings, and downs and ups alternate |
| HealthCheck.CyclesPerFivePings | src/server.rs:140-152 | With thresholds 3 and 2, a full cycle costs at least five pings |
| State.BuildState | src/state.rs:28-69 | Succeeds only when all plugins load and any cached pair is usable, and then carries TLS exactly when both files exist and one fresh, distinct, raised flag per route; otherwise names the first plugin that does not load, or the unusable pair |
| State.LoadingIs | src/state.rs:31-39 | All plugins load, and which is the first that does not, in reading order |
| State.RuntimeForIs | src/state.rs:31-39 | A route runs its configured plugins in order, each under its own name |
| State.LoopsWatchUntilSwapped | src/server.rs:140-152 | In every run the installed flags are distinct and written by a loop exactly until the first swap; after it they are all up |
| State.SnapshotsSeeTheirLoops | src/server.rs:140-152 | A request holding the startup state sees its loops' stores; one holding a later state sees flags that stay up |
| State.FlagStepIs | src/server.rs:140-152 | A store changes one watched flag, a request sees what is installed, a swap installs raised flags nobody watches |
| State.StartupIs | src/server.rs:140-152 | At startup every route has a raised flag and a loop |
| Swaps.WatchedUntilInstall | src/server.rs:140-172 | Over all runs of editor, reload, renewal and health loops, the installed flags are one per route of the installed version, written by a loop exactly until the first reload or renewal that installs, and up from then on |
| Swaps.FlagsFollowPings | src/server.rs:140-152 | Over all such runs, until the first install every route's flag is what the counter-free specification makes of all its pings, with thresholds 3 and 2 |
| ReloadRuns.UpdateIsLostIff | src/server.rs:261-295 | Over all runs of editor, reload and renewal, a tick leaves a good resting version uninstalled exactly after one of two orders of events: startup's missed edit, or a renewal overtaken by the last edit and its reload |
| ReloadRuns.NoUpdateIsLost | src/server.rs:261-301 | With a matching startup and no renewal, the remembered mtime never exceeds the installed version's and no update is lost |
| Reload.GoodTickInstallsIff | src/server.rs:269-290 | From any state at rest, a tick installs the last version if and only if it was installed or its mtime is newer than the one remembered |
| Reload.ReloadsMoveForward | src/server.rs:285-301 | Without renewals installed versions never go backwards and always validated |
| Reload.FailedReloadsAreRetried | src/server.rs:282-292 | However many attempts at a new good version fail, they install and remember nothing, and the next tick without a failure installs it |
| Reload.LostStaysLost | src/server.rs:282-284 | A version no newer than the remembered mtime is never looked at by any number of ticks |
| Reload.RenewalUndoesReload | src/acme.rs:411-445 | From any state at rest, a renewal that overlaps a reload puts the version from before the edit back, for good |
| Reload.RenewalInstallsUnvalidated | src/acme.rs:411-445 | From any state without a renewal in progress, an edit that parses but does not validate is installed by a renewal and stays over all ticks |
| ReloadRuns.InstalledGoesBackIff | src/acme.rs:411-445 | In any run a step lowers the installed version exactly when it ends a renewal since whose reading there was an edit and then a reload |
| ReloadRuns.InstalledIsGoodIff | src/acme.rs:411-445 | In any run what is installed validates, unless the last install is that of a renewal that had read a version that does not |
| Reload.StartupLosesAnEdit | src/server.rs:112-158 | Whatever the file held: if startup built from a version before the last and the first stat saw the last, no tick ever installs another |
| Reload.ReloadLoop | src/server.rs:261-295 | Over any number of ticks, file, installed version and remembered mtime are those of the step system. Put directly: a last tick in which all works, with a good version newer than any before, leaves the last version of the file installed; ticks none of which works change nothing |
| Reload.OnePass | src/server.rs:267-294 | One pass, from the files alone: if the stat works and the version then last is newer than the one remembered, and the file can be read, the version by then last is good and the state builds, that version is installed and the time stated remembered; otherwise neither changes |
| Stamps.TornReads | src/acme.rs:34-38 | A torn timestamp reads as its time without the digits lost |
| Stamps.DigitsWriteTheNumber | src/acme.rs:384-388 | The timestamp is written in decimal digits that stand for its number |
| AcmeProtocol.PairIsNeverTorn | src/acme.rs:371-382 | After any steps, torn writes and crashes, the pair on disk is old/old, new/old or new/new by the renames done, and new/old exactly between the renames or if stopped there |
| AcmeProtocol.TimestampComesLast | src/acme.rs:379-389 | The timestamp is the one found at the beginning until it is written to, which is after both renames |
| AcmeProtocol.RenamesGoForward | src/acme.rs:379-382 | The number of renames done only grows until the next provisioning begins |
| AcmeProtocol.FinishedIsTidy | src/acme.rs:253-265 | A finished provisioning whose removals worked leaves no lockfile and no temporary file; success leaves the new pair, an error before the first rename the old one |
| AcmeProtocol.StaleLockStopsEverything | src/acme.rs:244-249 | A lockfile nobody holds stops every later provisioning and freezes all files |
| AcmeProtocol.CrashBetweenRenamesIsPermanent | src/acme.rs:379-382 | A crash between the renames leaves the new certificate with the old key in every later state |
| AcmeProtocol.LockIsThereIff | src/acme.rs:244-261 | In every run the lockfile exists exactly while it is held, or after a crash while it was held, a removal that failed, or if it was there at the start |
| AcmeProtocol.AnnouncedChallengesAreServed | src/acme.rs:301-321 | From the first announcement until the certificate is in hand, a request for "/.well-known/acme-challenge/" and any token of the order is answered with the token, a dot and the thumbprint |
| AcmeProtocol.AnswerFindsToken | src/server.rs:342-355 | The redirect server answers "/.well-known/acme-challenge/" and a token with what is stored under that token, if anything, and no other path |
| AcmeProtocol.StoreIsEmptyWhenIdle | src/acme.rs:262-263 | The challenge store is empty whenever no provisioning is in progress |
| Acme.ProvisionWithStore | src/acme.rs:236-266 | Files, store and result are those of a run of the protocol, whatever server and disk do; success exactly when the lock is free and taken, the server cooperates in time and every write and rename works. File by file: the certificate is the new one from the first rename on, the key from the second, the timestamp what its write leaves after both; if the removals work nothing temporary stays |
| Acme.CooperationIs | src/acme.rs:291-369 | What it takes of the server: an order, HTTP-01 offered and accepted for each authorization, a yes within 120 seconds with no refusal before it, the finalization, and the certificate within 60 seconds |
| Acme.LeftByMeans | src/acme.rs:371-389 | What is left of certificate, key and timestamp, file by file, a torn timestamp as its first characters |
| AcmeRenewal.UnfinishedIsStillDueIff | src/acme.rs:29-44 | In every run with crashes: a renewal that was due and did not get to writing the timestamp is due again, except when a missing certificate beside a recent timestamp has been replaced |
| AcmeRenewal.FailedIsDueAgainIff | src/acme.rs:29-44 | The same for every failed provisioning: exactly when what it leaves is due again, for a torn timestamp by the digits it lost |
| AcmeRenewal.TornIsDueAtOnce | src/acme.rs:384-389 | A timestamp that lost a digit makes the certificate due at once |
| AcmeRenewal.TornStampIsDueSooner | src/acme.rs:384-389 | A torn timestamp only brings the next renewal forward |
| AcmeRenewal.MissingCertificateIsNotDueAgain | src/acme.rs:253-389 | The exception is reached from every such directory, with any order, by a provisioning whose second rename fails and which then tidies up and returns its error |
| RenewalDays.RenewalTick | src/acme.rs:407-451 | A tick tries exactly when it reads a TLS configuration and the certificate is missing or past sixty days from its timestamp; it succeeds exactly when nothing is in the way; pair, timestamp and lockfile are left as its renames, write and removals leave them. The installed version is the one it read if provisioning and building succeed, and otherwise what the reloads meanwhile made it |
| AcmeRenewal.RenewedIsDueIff | src/acme.rs:29-44 | What a successful provisioning leaves is due again exactly sixty days after the time it stamped |
| RenewalDays.RenewalLoop | src/acme.rs:399-451 | Over any number of daily ticks, whatever servers and disks do and whatever is edited and reloaded around them: each tick tries, and succeeds, exactly when specified from what the days before left, and files, lockfile and installed version are the specified ones |
| RenewalDays.TriesIff | src/acme.rs:407-431 | When a day tries: a TLS configuration is read, and the certificate is missing or sixty days past its timestamp |
| RenewalDays.DayLeaves | src/acme.rs:371-389 | When a day succeeds, and what it leaves of certificate, key, timestamp and lockfile, file by file |
| RenewalDays.DayInstalls | src/acme.rs:411-445 | What a day leaves installed: the version its tick read if it succeeds and the state builds, and otherwise what edits and reloads made of it |
| RenewalDays.StandingMoves | src/acme.rs:399-451 | The days follow one another, 86400 seconds apart |
| RenewalDays.RenewsIff | src/acme.rs:244-389 | A new pair is put in place exactly when the certificate is due, TLS is read, no lockfile is there and one can be written, the server cooperates and the disk lets both renames through |
| RenewalDays.LoopsRun | src/acme.rs:411-445 | What the days install comes about in a run of the reload and renewal steps, so that the results on those runs apply |
| RenewalDays.IssueFollows | src/acme.rs:399-451 | The certificate and timestamp the days leave are those the timing results follow |
| RenewalDays.ExpiryTakesThirtyBlockedTicks | src/acme.rs:399-451 | A pair older than ninety days means thirty ticks in a row, from its sixtieth day on, that found it due and each had something in the way: no TLS configuration read, a lockfile, the server or the disk |
| RenewalDays.LeftLockEndsRenewal | src/acme.rs:244-249 | A lockfile left behind ends all renewal: pair and timestamp never change again |
| Acme.FillStore | src/acme.rs:301-314 | Stores every challenge, or stops at the first authorization without HTTP-01 |
| Acme.Announce | src/acme.rs:316-321 | Announces every challenge, succeeding exactly when all are accepted |
| Acme.WritePair | src/acme.rs:371-389 | Temporary files, renames and timestamp in the protocol's order, stopping at the first failure |
| Acme.CacheDir.CertNeedsRenewal | src/acme.rs:29-44 | Due when cert.pem is missing or the timestamp, 0 if unreadable, plus sixty days is past |
| Renewal.NeedsRenewalIff | src/acme.rs:34-43 | Below the 64-bit edge: left alone for exactly sixty days |
| Renewal.DueTicksFailed | src/acme.rs:407-451 | A certificate on disk was on disk at every earlier tick more than sixty days after its issue, and each of them found it due, tried and failed, also when the timestamp recorded is an earlier one |
| Renewal.ThirtyTicks | src/acme.rs:407-409 | Exactly thirty daily ticks fall between the sixtieth and the ninetieth day |
| Renewal.ExpiryTakesThirtyFailures | src/acme.rs:407-451 | A certificate older than ninety days at a tick means thirty failed attempts, one on each of those ticks |
| Renewal.ThirtyFailuresExpire | src/acme.rs:407-451 | And thirty failed attempts are enough |
| Renewal.PollUntil | src/acme.rs:323-342 | Stops at the first round that is answered or ends past the deadline, succeeding exactly when a yes comes in time; at most limit / nominal + 1 polls |
| Renewal.PollOrder | src/acme.rs:323-342 | At most 41 order refreshes, and where it stops |
| Renewal.PollCertificate | src/acme.rs:358-369 | At most 31 certificate fetches, and where it stops |
| Renewal.BoundIsReached | src/acme.rs:323-342 | With exact sleeps, instant queries and no answer, polling stops at round limit / nominal and no other |
| Renewal.PollsAreReached | src/acme.rs:323-369 | So 41 refreshes and 31 fetches are made when the server never answers |
| Wasm.BlockPathDecides | tests/fixtures/block_path.wat:3-21 | The fixture's code returns 1 when the range it is handed starts with "/block", else 0 |
| Wasm.ByteCheckRuns | tests/fixtures/block_path.wat:9-19 | One byte check falls through on a match and returns 0 otherwise |
| Plugin.LayoutKeepsBoth | src/plugin.rs:111-117 | Method at 0, path at 256, every other byte unchanged |
| Plugin.Write | src/plugin.rs:112-117 | Copies in place, or refuses and changes nothing when the range does not fit |
| Plugin.FixtureBlocksExactly | src/plugin.rs:94-141 | Host layout and guest code compose: exactly the paths that start with the bytes of "/block" are blocked, the others pass, a method over 256 bytes and a path that does not fit are errors |
| Plugin.PluginRuntime.RunOnRequest | src/plugin.rs:89-144 | Runs a prefix of the plugins; the last one run is the first that does not pass and decides |
| Plugin.RunPlugin | src/plugin.rs:94-141 | One plugin: guards, layout and call in the source's order give its verdict |
| Plugin.VerdictIs | src/plugin.rs:89-144 | The verdict in plain terms: which module is refused for what, and otherwise what the guest answers when it sees the method at 0 and the path at 256 and is told their lengths |
| Plugin.GuestSeesRequest | src/plugin.rs:111-131 | Whatever a guest asks of the two ranges it is handed, it asks of the request's method and path |
| Plugin.ChainIs | src/plugin.rs:89-144 | A chain passes when all plugins pass; it blocks, or fails, when the first that does not pass does |
| Plugin.ChainConcat | src/plugin.rs:89-144 | A chain split anywhere: the first part decides unless it passes |
| Plugin.OrderIrrelevantIff | src/plugin.rs:89-144 | The verdict is the same in every order exactly when all plugins that do not pass agree |
| Plugin.WithoutErrorsOrderIsIrrelevant | src/plugin.rs:89-144 | If no plugin errs, the verdict is the same in every order |
| Config.Validate | src/config.rs:64-107 | Accepts exactly the valid configurations and otherwise names the first problem in reading order |
| Config.ValidIs | src/config.rs:64-107 | What a valid configuration is: addresses parse, TLS has a challenge listener, prefixes are distinct and start with a slash |
| Config.FirstBadRouteIs | src/config.rs:81-106 | The route named is the first with which the list stops being valid |
| Routing.FindRoute | src/handler.rs:98-102 | Finds the first route whose prefix the path starts with, and none exactly when no prefix does |
| Routing.FirstIsLongestIff | src/handler.rs:98-102 | First match is longest match on every path exactly when no earlier prefix is a proper prefix of a later one |
| Routing.ReachableIff | src/handler.rs:98-102 | A route can be selected exactly when no earlier prefix is a prefix of its own |
| Routing.AllReachableIffLongest | src/config.rs:81-94 | In a validated configuration all routes are selectable exactly when first match is longest match |
| Metrics.CountersAreConserved | src/metrics.rs:20-33 | In every reachable state: total = the four buckets + recordings midway + finished with an uncounted status |
| Metrics.AtRestCountersAreExact | src/handler.rs:31-73 | At rest the total is the requests other than /metrics, 2xx the answers with such a status, 4xx those and the requests without a route, 5xx those and all other errors, and blocked exactly the blocked requests |
| RenderedMean.MeanIsBetween | src/metrics.rs:36-39 | At rest the rendered mean lies between the least and the greatest elapsed time |
| RenderedMean.TornMeanIsBetween | src/metrics.rs:36-39 | Wherever the two loads fall in a run, it does so when the sum holds as many recordings as the total had counted |
| RenderedMean.TornMeanOfEqualTimesIff | src/metrics.rs:36-39 | In any run with equal times the mean is their value exactly when the recordings in the sum, against those counted, make up no less and not a whole share more |
| RenderedMean.EqualTimesAverageIff | src/metrics.rs:36-39 | The interleavings in which every equal time that does not wrap the sum is rendered as it is: as many summed as counted, or more but too few to show before wrapping |
| RenderedMean.TornRenderDoublesTheMean | src/metrics.rs:36-39 | An instance: a recording between the two loads makes the mean of equal times twice their value |
| Metrics.ErrorsAreCountedAsErrors | src/handler.rs:157-164 | Errors count as 4xx when no route matched and as 5xx otherwise; blocks in neither |
| Metrics.Metrics.Record | src/metrics.rs:20-33 | Total and time always; of the four others the blocked one for a block, else the one of the status's class, if any; all modulo 2^64 |
| Handler.Route | src/handler.rs:78-127 | /health is answered with 200; without a matching prefix there is no route; otherwise the request is served by the first route whose prefix its path starts with, on the bytes of its method and path, and no other upstream is contacted |
| Handler.Serve | src/handler.rs:104-126 | The code of one route, flag, plugins, upstream, serves the request as said |
| Handler.ServedMeans | src/handler.rs:104-126 | Serving plugin by plugin: an unhealthy upstream is an error; a block, or a failure, exactly when the first plugin that does not pass the method and path says so; the upstream is contacted exactly when all pass, and then decides |
| Handler.ServeWithFixture | src/handler.rs:110-114 | With the fixture alone on a healthy route, a request that fits is blocked exactly when its path starts with the bytes of "/block" |
| Handler.Respond | src/handler.rs:129-170 | 403 for a block, 404 without a route, 503 for an unhealthy upstream, 504 for a timeout, 502 for a refused connection, 500 for any other error; errors carry no x-response-time |
| Handler.ResponseMeans | src/handler.rs:40-170 | The status of a routed request by its cause: 503 if unhealthy, 403 or 500 as the first plugin that does not pass blocks or fails, else the upstream's status, 504, 502 or 500 |
| Handler.Handle | src/handler.rs:17-75 | /metrics touches no counter; any other request is recorded once under the status it is answered with, which raises the total and exactly the counter of that status, or the blocked one; 200 for /health, 404 when no route matches, and otherwise the response the first matching route gives, by the flag and plugins it has on entry |
| Handler.FailureStatus | src/handler.rs:157-164 | A failed call shows as 504 exactly on timeout, 502 exactly on a refused connection, and 500 otherwise |
| Handler.EndingOfCall | src/handler.rs:116-164 | A request that reaches its upstream ends as timed out exactly when the timer leaves its call too few awaits, else as answered, refused or in error exactly as the network decides |

## Left out

- Sockets, hyper connections, TLS handshakes, PEM, CSRs and the ACME client: library behaviour, here nondeterministic outcomes.
- HTTP/1.1 byte-stream exclusivity: a sender is released before the response body is read; only ownership of the handle is claimed.
- `provision`, the startup variant: it differs in binding its own challenge server, in ignoring a failed timestamp write, and in polling for the certificate without a deadline.
- Mutual exclusion between processes by the lockfile: the check and the creation are separate steps.
- Creation of the cache directory: its failure ends provisioning before anything else happens.
- ForwardProtocol.EveryRunKeepsInv: the TCP connect and the handshake of `connect_fresh` are one await, since no handle exists before the second returns.
- Proxy.Forward: response headers and body are not carried; `Headers.HeaderMap.StripHopByHop` states what is stripped from them.
- HealthCheck.UpstreamHealthLoop: overflow in a debug build panics instead of wrapping.
- Reload.ReloadLoop: a read sees one whole version; a torn read is a version of its own.
- ReloadRuns.UpdateIsLostIff: it is stated for strictly increasing mtimes; without them `Reload.GoodTickInstallsIff` gives the condition tick by tick.
- Handler.Handle: response bodies, the /health JSON, access logs and the Prometheus text are not modelled.
- Metrics.Metrics.RenderMean: it reads both counters in one step; the interleaved case is `RenderedMean.TornMean`.
- Renewal.ExpiryTakesThirtyFailures: a tick that reads no TLS configuration counts as an attempt that failed.
- Handler.Route: how a path is encoded as bytes for the plugins is a parameter, and so is the call to `forward`, of which `Handler.EndingOfCall` says what `Proxy.Forward` makes.
- Wasm.BlockPathDecides: WebAssembly beyond the instructions of the fixture; other plugins are arbitrary functions of memory and arguments.
- Headers nominated by Connection: the code strips a fixed list only.
- The port of the redirect location and the text of error bodies: formatting.
