# CrptApi admission control, modelled in Dafny

`CrptApi` is a client for the "Честный знак" (CRPT) document API. Before it
sends a document-creation request, it asks its rate limiter for permission.
The limiter has three parts:

- a request log, `requestLog`, mapping a millisecond timestamp to the number
  of requests admitted in that millisecond;
- `allowRequest`, which grants a request only while that millisecond's count
  is below `requestLimit`;
- `clearRequestLog`, a sweep scheduled once per time unit, which forgets every
  entry older than `requestLimit` time units.

A refused `createDocument` prints a message and returns without sending
anything.

The project has three modules:

- `TimeUnits` (`time_units.dfy`): Java's `int` and `long` ranges and
  `TimeUnit.toMillis`, including its truncating division for finer units and
  its clamping to the `long` range for coarser ones.
- `RequestLog` (`request_log.dfy`): the log as a value, the admission step
  `Admit`, the purge `Purge`, the invariant `Bounded` (every stored count is
  between 1 and the limit), and lemmas about them.
- `Crpt` (`crpt_api.dfy`): the operations as atomic steps on a state made of
  the log and the list of admitted requests, `sent` (`Step`), runs of operations
  (`Replay`), and the class `CrptApi`. Its methods update `requestLog` and
  `sent` in place. The class is tied to `Replay` through a ghost history of
  the operations performed so far.

The clock (`System.currentTimeMillis()`) is the parameter `now` of each
operation. The model follows the code, which differs from the usual
description of such a limiter in four ways:

- The limit applies to each millisecond separately, not to a rolling window
  (`LimitIsPerMillisecond`).
- A refused request is dropped, not queued or blocked.
- The constructor accepts any `requestLimit`, including zero or negative
  values (`NonPositiveLimitSendsNothing`).
- The sweep keeps `requestLimit` time units of history, although it runs once
  per unit (`SweepKeepsLimitUnits`).

## Model

| member | source | states |
|---|---|---|
| `TimeUnits.ToMillis` | CrptAPI.java:98 | `toMillis` keeps the sign of its argument and is the identity for milliseconds. For micro- and nanoseconds it is the quotient by 1000 or 1000000, rounded toward zero. |
| `TimeUnits.ToMillisOfIntIsExact` | CrptAPI.java:98 | For an `int` limit and any unit no finer than a millisecond, `toMillis` is the exact product. The `long` clamp never applies. |
| `RequestLog.Admit` | CrptAPI.java:87-95 | A request is granted exactly when the stored count for `now` (0 if the key is absent) is below the limit. A grant makes that entry the old count plus one, adds no key other than `now` and leaves every other entry unchanged. A denial leaves the log as it was. Admission keeps every count between 1 and the limit. |
| `RequestLog.Purge` | CrptAPI.java:99 | Exactly the keys at or after the cutoff remain, each with its count unchanged. |
| `RequestLog.PurgePreservesBounded` | CrptAPI.java:99 | The sweep keeps every stored count between 1 and the limit. |
| `RequestLog.PurgeIdempotent` | CrptAPI.java:97-100 | Sweeping twice with the same cutoff is the same as sweeping once. |
| `RequestLog.PurgeTwice` | CrptAPI.java:97-100 | Two sweeps in a row are one sweep with the later cutoff. |
| `RequestLog.NonPositiveLimitNeverGrants` | CrptAPI.java:89-94 | With a limit of 0 or less the log is empty, and every request is refused without changing it. |
| `Crpt.Cutoff` | CrptAPI.java:98 | For a non-negative limit, the cutoff is never after `now`. For every unit no finer than a millisecond, it is exactly `requestLimit` units (`requestLimit` times the unit's milliseconds) before `now`. |
| `Crpt.Step` | CrptAPI.java:42-46 | `createDocument` hands its request on exactly when the count for `now` is below the limit, and its new log is the one `Admit` gives (the slot is used up). A refused call changes nothing. A sweep hands nothing on, and its new log is `Purge` of the old one at the cutoff. |
| `Crpt.StepKeepsAccounted` | CrptAPI.java:87-100 | An operation at a time no earlier than the last keeps three facts true: the log bound; each stored count from that time on equals the requests admitted in that millisecond; and no millisecond exceeds the limit. |
| `Crpt.ReplayAccounted` | CrptAPI.java:87-100 | After any run with a clock that never goes backwards, those three facts hold at the time of the last operation. |
| `Crpt.AtMostLimitPerMillisecond` | CrptAPI.java:88-91 | With a clock that never goes backwards, no millisecond sees more than `requestLimit` requests admitted, and so no more POSTs (none if the limit is not positive), however sweeps and calls interleave. |
| `Crpt.NonPositiveLimitSendsNothing` | CrptAPI.java:29-31 | Because the constructor does not reject a limit of 0 or less, such an object never admits a request and its log stays empty. |
| `Crpt.LimitIsPerMillisecond` | CrptAPI.java:88-90 | With one request per second allowed, two calls one millisecond apart are both admitted. The limit is per millisecond, not per time unit. |
| `Crpt.SweepKeepsLimitUnits` | CrptAPI.java:98 | With a limit of 5 per second, a sweep keeps an entry that is two seconds old. Retention is `requestLimit` units, not the one-unit sweep period. |
| `Crpt.ClockRegressionExceedsLimit` | CrptAPI.java:97-100 | If the clock steps back to a millisecond the sweep already forgot, that millisecond gets a second grant over a limit of 1. So the bound needs a monotone clock. |
| `Crpt.CrptApi.constructor` | CrptAPI.java:29-34 | Stores the time unit and the limit unchecked, and starts with an empty log and nothing admitted. |
| `Crpt.CrptApi.AllowRequest` | CrptAPI.java:87-95 | Grants exactly when the current count is below the limit. The new log is the `Admit` result, which keeps the count bound. |
| `Crpt.CrptApi.ClearRequestLog` | CrptAPI.java:97-100 | Removes the entries below `now - toMillis(requestLimit)` one key at a time. The new log is `Purge` of the old one, and `sent` does not change. |
| `Crpt.CrptApi.CreateDocument` | CrptAPI.java:42-72 | Uses up one slot and hands the document on once when admitted. When refused, nothing is handed on and the log is unchanged. The object stays equal to `Replay` of its history. |

## Left out

- The HTTP POST and its response handling are not modelled, and neither is the
  printing of `IOException`s (CrptAPI.java:48-71). An admitted request is
  recorded as a `Submission` appended to `sent`.
- JSON serialisation through Jackson (`convertObjectToJson`) is left out; a
  document is represented by its JSON text.
- `sent` records admitted requests, not completed POSTs. In the code the slot
  is taken (CrptAPI.java:91) before serialisation and the POST
  (CrptAPI.java:48-56); if either throws, the exception is caught
  (CrptAPI.java:58-71), nothing reaches the registry, and the slot stays used.
  The real POSTs are a subset of `sent`, so the per-millisecond bound holds for
  them too, but the model does not say which admitted requests failed.
- The `ScheduledExecutorService` is left out. The periodic sweep is the
  operation `ClearRequestLog`, which the environment may invoke at any time.
- `synchronized` and `ConcurrentHashMap` are not modelled. Each operation is
  one atomic step, and interleavings inside an operation are not considered.
- `System.currentTimeMillis()` is replaced by the parameter `now`, an
  unbounded integer. `long` wrap-around of `now - toMillis(requestLimit)` is
  not modelled; it cannot occur for real clock readings.
- The console message printed when a request is refused is left out.
- The per-millisecond bound (`AtMostLimitPerMillisecond`) is proved only for runs whose clock never goes
  backwards. The code does not assume this, and
  `ClockRegressionExceedsLimit` shows what happens otherwise.
