# Mircord bot-stats reporter, modelled in Dafny

`MircordBotStats` is a background reporter for a Discord bot. It periodically POSTs the
bot's server and shard counts to the Mircord statistics endpoint. Around that network call
sits a small state machine, and this project models it:

- construction coerces non-positive `retry_after` and `update_interval` values to 120;
- `activate` starts one background loop, unless one is already running;
- `stop` cancels the loop;
- the loop sends first and then sleeps `update_interval`;
- `send_stats` has a 30-second rate guard measured from the last successful request;
- `handle_error` classifies a non-200 reply through a nine-entry table and, on HTTP 429,
  waits `retry_after` and re-enters `send_stats`;
- `get_time_since_last_update` reports the elapsed time as minutes and seconds.

Time is an integer `now` supplied by the caller. The network is a script of replies, one
per request, each arriving at once. Only the back-off after a 429 and the loop's sleep move
the clock.

The project has five modules:

- `ErrorTable` (`errors.dfy`): the status-code table.
- `Clock` (`clock.dfy`): sleeps and the minutes/seconds split.
- `Delivery` (`delivery.dfy`): one guarded send with its retries. `Deliver` is the
  recursive specification; `Send` is the loop, proved equal to it.
- `Schedule` (`schedule.dfy`): the loop as a function `RunLoop` of the host's ticks, plus the
  bookkeeping of started and cancelled tasks.
- `Reporter` (`reporter.dfy`): the class `MircordBotStats`. Its methods update the fields in
  place and are proved against `Deliver` and `RunLoop`. Its invariant `Valid()` holds three
  facts:
  - at most one loop is live, and it is live exactly while `running`;
  - `lastRequestTime` is the time of the latest successful request ever issued;
  - every request ever issued passed the rate guard.

Three behaviours of the code are kept as written:

- `activate` applies a truthy interval even while the loop already runs
  (mircord_api_py/Bot.py:29-30);
- the retry after 429 has no cap (mircord_api_py/Bot.py:96-98);
- `stop` cancels `update_task` but never resets it to none (mircord_api_py/Bot.py:36-44).

## Model

| member | source | states |
|---|---|---|
| ErrorTable.MessageFor | mircord_api_py/Bot.py:81-93 | the generic message is chosen exactly for codes outside the nine table codes, and it carries the code |
| ErrorTable.MessageDeterminesCode | mircord_api_py/Bot.py:81-93 | every code's message names that code back: no two codes share a message |
| ErrorTable.EveryMessageReached | mircord_api_py/Bot.py:81-93 | each of the nine messages is produced by exactly its own code; a generic message is produced only for a code outside the table |
| ErrorTable.TableSize | mircord_api_py/Bot.py:81-91 | the table has exactly nine entries |
| Clock.MinutesSeconds | mircord_api_py/Bot.py:103-106 | `minutes * 60 + seconds == elapsed` and `0 <= seconds < 60` |
| Clock.MinutesSecondsUnique | mircord_api_py/Bot.py:105 | those two facts determine the pair: any pair that satisfies them is the result |
| Clock.MinutesSecondsMonotone | mircord_api_py/Bot.py:103-106 | more elapsed time never gives a lexicographically smaller pair |
| Delivery.RemainingWait | mircord_api_py/Bot.py:55-77 | when the guard refuses, the reported wait is positive, at most 30 for a clock that has not gone back, and exactly the time until the guard opens |
| Delivery.Classify | mircord_api_py/Bot.py:65-74 | a reply is retried iff it is 429 and succeeds iff it is 200; any other code is rejected with the table's message; a transport error ends as `TransportFailed` and any other exception as `Failed`, neither retried |
| Delivery.Send | mircord_api_py/Bot.py:51-98 | the imperative loop (guard, POST, classify, back off on 429 and go round) produces exactly the requests, new `last_request_time`, end time and outcome of the recursive specification `Deliver` |
| Delivery.GuardDecidesCall | mircord_api_py/Bot.py:55-77 | a call issues a request iff the guard passes; if it refuses, nothing changes and the wait is `30 - (now - last)`; the clock never goes back; a call issues at most one request per reply in the script, plus one whose reply lies beyond it |
| Delivery.DeliverSetsLastOnSuccess | mircord_api_py/Bot.py:65-67 | the first request goes out at `now`, and `last_request_time` afterwards is the time of the call's latest successful request, or unchanged if none succeeded |
| Delivery.OnlyFinalRequestSucceeds | mircord_api_py/Bot.py:65-98 | no request but the last one of a call succeeds; the call is `Delivered` iff its last request succeeded, and then `last_request_time` is the call's end time |
| Delivery.ThrottledThenDelivered | mircord_api_py/Bot.py:96-98 | k replies of 429 followed by a 200 give exactly k + 1 requests, one per back-off period; only the last succeeds, and it alone sets `last_request_time` |
| Delivery.OneRequestUnlessThrottled | mircord_api_py/Bot.py:61-74 | any reply but 429 ends the call after exactly one request; only 200 changes `last_request_time`; each other reply gives its own outcome |
| Delivery.DeliverSpaced | mircord_api_py/Bot.py:55 | every request of a call, retries included, is one the guard lets through |
| Delivery.DeliverExtendsHistory | mircord_api_py/Bot.py:51-98 | a call keeps a history consistent: the extended history is still guard-spaced, and its latest success is the new `last_request_time` |
| Delivery.LastSuccessAppend | mircord_api_py/Bot.py:67 | the latest success of two batches is found by folding over the first and then the second |
| Delivery.SpacedAppend | mircord_api_py/Bot.py:55 | two batches are guard-spaced together iff the first is, and the second is measured from the first batch's latest success |
| Delivery.SuccessesApart | mircord_api_py/Bot.py:55 | in a guard-spaced history, consecutive successful requests are at least 30 s apart, unless the first was at the instant 0 the code takes for "never" |
| Delivery.SpacedBetween | mircord_api_py/Bot.py:55 | after only failed requests, a request is still measured from the same `last_request_time` |
| Schedule.LoopStopsAtFirstStop | mircord_api_py/Bot.py:46-49 | the loop calls `send_stats` at once, then once per tick, up to and including the first tick whose sleep is interrupted by `stop`, and never after it |
| Schedule.LoopSleepsBetweenSends | mircord_api_py/Bot.py:46-49 | calls never happen before the start, and consecutive calls are at least one update interval apart |
| Schedule.LoopTracksLastSuccess | mircord_api_py/Bot.py:46-49 | after the loop, `last_request_time` is the time of the latest successful request the loop issued, or unchanged |
| Schedule.LoopSpaced | mircord_api_py/Bot.py:46-55 | every request the loop issues passes the guard, across iterations as well as within one |
| Schedule.LoopRunsEveryTick | mircord_api_py/Bot.py:46-49 | a loop that is never stopped calls `send_stats` once per tick |
| Schedule.AtMostOneLoop | mircord_api_py/Bot.py:28-44 | if every task but the newest is cancelled, one loop runs when the newest task is live, and none otherwise |
| Schedule.AllCancelled | mircord_api_py/Bot.py:36-44 | no loop runs among cancelled tasks |
| Reporter.Coerce | mircord_api_py/Bot.py:12-17 | the result is positive: a positive value is kept, anything else becomes 120 |
| Reporter.MircordBotStats.constructor | mircord_api_py/Bot.py:7-26 | both intervals are coerced; no success yet, not running, no task, nothing sent |
| Reporter.MircordBotStats.IsRunning | mircord_api_py/Bot.py:108-109 | true iff exactly one loop is live, false iff none is |
| Reporter.MircordBotStats.Activate | mircord_api_py/Bot.py:28-34 | afterwards exactly one loop runs; a truthy interval replaces the configured one, running or not; a new task is created iff none was running; nothing else changes |
| Reporter.MircordBotStats.Stop | mircord_api_py/Bot.py:36-44 | afterwards no loop runs; a no-op when not running; otherwise the newest task is cancelled; nothing else changes |
| Reporter.MircordBotStats.SendStats | mircord_api_py/Bot.py:51-98 | outcome, end time, new `last_request_time` and the requests issued are those of `Deliver`; the invariant, including guard spacing of the whole history, is kept |
| Reporter.MircordBotStats.UpdateNow | mircord_api_py/Bot.py:100-101 | the same as `SendStats` |
| Reporter.MircordBotStats.Iterate | mircord_api_py/Bot.py:47-49 | one pass of the loop: a guarded send, then a sleep of `update_interval`; the loop keeps running iff the host does not stop it during the sleep; a stop cancels the newest task and keeps it, as `Stop` does |
| Reporter.MircordBotStats.RunUpdateLoop | mircord_api_py/Bot.py:46-49 | a loop that is not running does nothing and changes no field; otherwise calls, requests and `last_request_time` are those of `RunLoop`; it is still running iff no tick stopped it, and if one did the newest task is cancelled and kept; the configuration is unchanged |
| Reporter.MircordBotStats.TimeSinceLastUpdate | mircord_api_py/Bot.py:103-106 | minutes and seconds since the latest success: `minutes * 60 + seconds` is the elapsed time and `0 <= seconds < 60` |
| Reporter.MircordBotStats.SetUpdateInterval | mircord_api_py/Bot.py:111-112 | the interval becomes the argument, unchecked |
| Reporter.MircordBotStats.UpdateRetryAfter | mircord_api_py/Bot.py:114-115 | the back-off becomes the argument, unchecked: a non-positive value is accepted |

## Left out

- The HTTP transport (`httpx.AsyncClient`), the payload, the URL and the Authorization header: a reply is an element of the response script.
- asyncio task creation, cancellation, `await` and the absorbed `CancelledError`: a task is `Live` or `Cancelled`, and `stop` is observed only while the loop sleeps. A `stop` that arrives during a send or during a 429 back-off is not modelled.
- Interleaving of host calls with an in-flight send: each method runs atomically, so no `update_now`, `activate(interval)` or `update_retry_after` can happen during a send or during its 429 back-off. In the code, an `update_now` that succeeds during the loop's back-off makes the retry's guard refuse; Delivery.GuardDecidesCall's promise that no retry of a call is refused holds only under this atomicity.
- Floating-point `time.time()`: the clock is an integer, so `int()` truncation in `get_time_since_last_update` is the identity. Replies arrive at once, so the success time is also the send time.
- Logging: `basicConfig`, levels and every message text, including the Russian strings. Only which table entry (or the generic fallback) is chosen is kept, as `Message`.
- The host `bot` object. The server and shard counts are not part of the model, so the model does not capture that a retry reads them again.
- Delivery.Deliver: the response script is finite. A request whose reply lies beyond the script ends the call with the outcome `Unanswered`, which the code does not have.
- Delivery.SuccessesApart: a success at the instant 0 is indistinguishable from "never succeeded", exactly as `last_request_time == 0` is in the code, so the 30-second spacing is not promised after it.
- Reporter.MircordBotStats.SetUpdateInterval: the instance attribute set in the constructor hides this setter, so no instance can reach it; it is modelled as a plain setter.
