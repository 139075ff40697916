# evohome polling loop, modelled in Dafny

`evohome.py` is a polling script. It reads zone and hot-water temperatures from
a Honeywell evohome controller through `evohomeclient2`. It writes one point per
device to the InfluxDB database `EH-TEMPS`. It then sleeps until the next
multiple of the poll interval, counted from when the script started. This
project models the logic inside the script's `while all_ok:` loop:

- **Devices** (`devices.dfy`): the device dictionaries the API returns. The hot-water
  device (`thermostat == "DOMESTIC_HOT_WATER"`) gets the fixed local setpoint
  `hotwater_setpoint = 0.0` and the name `"Hot Water"`. Every device then gets
  `call_heat`, which is 1 when `setpoint > temp` and 0 otherwise. Each device is
  written as its own single-point batch in the `Temperatures` measurement.
  `ProcessDevices` is that loop, run in place over an array. `Processed` is the
  function it is proved against.
- **Pacing** (`pacing.dfy`): the drift-corrected sleep
  `poll_interval - ((now - starttime) % poll_interval)` and what it guarantees
  over successive ticks.
- **PollLoop** (`poll_loop.dfy`): the loop's state is whether `eclient` is bound,
  the `all_ok` flag and an abstract clock.
  - A tick with no client tries to construct one. The outcome is an input:
    `Connected`, `InvalidGrant`, `AttemptLimitExceeded` or `OtherAuthError`.
  - Success `continue`s at once, with no sleep.
  - Any authentication failure clears `all_ok`. Every cause except
    `invalid_grant` first sleeps the 300 s cool-down.
  - A tick with a client processes and writes the fetched devices.
  - Every tick that does not `continue` ends with the drift-corrected sleep.

  `Step` and `Steps` are the pure specification of one tick and of the loop.
  The `Poller` class holds the script's mutable state. Its `Tick` and `Run`
  methods are proved to follow `Step` and `Steps`.

Times are whole milliseconds: `poll_interval = 300.0` s is `PollInterval = 300_000`,
and `time.sleep(300)` is `AuthCooldown = 300_000`. The wall clock, the client
constructor's outcome, the device list returned by `temperatures()` and the time
each tick spends working are inputs. Sleeps are returned, not performed.

## Behaviour as written

The model follows the code in these places, where its behaviour may be
unexpected:

- After an `AuthenticationError` the `try` statement completes normally. The
  drift-corrected sleep at line 92 therefore still runs before `while all_ok`
  ends the loop. `invalid_grant` takes one sleep, the drift-corrected one. The
  other causes take two: 300 s, then the drift-corrected sleep, which is
  computed from a clock reading taken after the cool-down.
- Every authentication failure ends the loop. Nothing returns to initialisation
  after the cool-down.
- The hot-water setpoint is the constant 0.0. There is no time-of-day schedule,
  and line 66 only notes one as a TODO.
- There is no aggregate "global heat" flag, and each device is its own write.
- `call_heat` is the integer 0 or 1, not a boolean.
- An exception from `temperatures()` after the client exists is not caught.
  There is no recovery from an expired session.

## Model

| member | source | states |
|---|---|---|
| Devices.CallHeatFlag | evohome.py:65 | the flag is 0 or 1, and it is 1 exactly when the setpoint exceeds the temperature |
| Devices.Processed | evohome.py:57-65 | a rewritten device keeps its thermostat, id and temperature. A hot-water device always ends with the given hot-water setpoint and the name "Hot Water", whatever the API sent. Any other device keeps its name and setpoint. Every device ends with `call_heat` 0 or 1, and 1 iff setpoint > temp |
| Devices.ProcessAll | evohome.py:57-65 | the rewritten list has the same length and order as the fetched one. Every element keeps its thermostat, id and temperature and carries `call_heat` consistent with its own setpoint and temperature. Every hot-water element ends with the given hot-water setpoint and the name "Hot Water". Every other element keeps its name and setpoint |
| Devices.Batches | evohome.py:68 | the writes made for a list of rewritten devices are one per device |
| Devices.BatchesOnePerDevice | evohome.py:57-68 | the writes for a list are one per device, in list order, each a single `Temperatures` point carrying that device |
| Devices.HotWaterCallsHeatOnlyBelowZero | evohome.py:60-65 | with the script's hot-water setpoint 0.0 (line 15), the hot-water device calls for heat iff its temperature is below zero |
| Devices.ProcessDevices | evohome.py:57-68 | the in-place loop leaves every array element equal to `Processed` of its old value, so the array ends as `ProcessAll` of its old contents. What it hands to the store is exactly one single-point batch per element, in order, each written after that element's own rewrite |
| Pacing.SleepFor | evohome.py:92 | for a positive interval the sleep lies in (0, interval]. Waking after it lands on a multiple of the interval from the start time, and on the first such point after `now` |
| Pacing.Wakes | evohome.py:92 | successive ticks, each working for its given time and then taking the drift-corrected sleep, wake once per tick |
| Pacing.WakesOnCadence | evohome.py:92 | over any number of ticks with any work durations, every wake-up lies on the cadence. Each wake-up, the first included, is later than the end of its tick's work and at most one interval after it |
| Pacing.WakesPrefix | evohome.py:92 | the wake-ups of the first k ticks do not depend on later ticks: they are the first k wake-ups of the whole run |
| Pacing.FixedCadence | evohome.py:92 | ticks that start on the cadence and work for less than one interval wake exactly one interval apart, so work time never accumulates as drift |
| Pacing.OnCadenceStep | evohome.py:92 | from a point on the cadence, work plus the following sleep is exactly one interval |
| PollLoop.Poll | evohome.py:56-92 | a tick with a client writes one batch per fetched device, each the rewritten device, in API order. It then takes exactly one sleep in (0, interval], which ends on the cadence, and leaves the client and `all_ok` as they were |
| PollLoop.Initialise | evohome.py:35-53 | with no client, success binds the client, keeps `all_ok`, and continues with no sleep and no write. Any authentication failure leaves `all_ok` false and writes nothing. `invalid_grant` sleeps only the final drift-corrected sleep. Every other cause sleeps 300 s first. The clock advances by exactly the sleeps |
| PollLoop.Step | evohome.py:29-92 | one loop iteration. The client, once bound, stays bound. The loop continues iff a client is bound. The clock advances by exactly the work and the sleeps. The construction cases and the poll case are as for `Initialise` and `Poll`, and every sleeping tick ends on the cadence |
| PollLoop.Steps | evohome.py:29-92 | the loop runs at most one tick per input and stops early only with `all_ok` false |
| PollLoop.AuthFailureStops | evohome.py:39-50 | an authentication failure while no client exists ends the loop after that one tick, with nothing written. It takes one sleep for `invalid_grant`, and the 300 s cool-down then a second sleep for any other cause |
| PollLoop.ConnectedThenPolls | evohome.py:35-53 | after a successful construction the run continues straight into the next tick with a bound client, with nothing slept or written in between |
| PollLoop.BoundClientPollsForever | evohome.py:29-92 | once a client exists the loop never stops, given that the store write, the weather lookup and the ping succeed (see "## Left out"). It writes exactly as many batches as devices fetched, takes one sleep per tick, each in (0, interval], and ends on the cadence |
| PollLoop.PollsKeepCadence | evohome.py:92 | with a client and ticks that start on the cadence and work less than one interval, every tick's work plus its sleep is exactly one poll interval |
| PollLoop.BoundClientFollowsWakes | evohome.py:56-92 | with a bound client, the loop's clock after any number of ticks is the last wake-up that `Wakes` gives for the same work durations, so every result about `Wakes` applies to the loop, after any number of ticks (with `Pacing.WakesPrefix`) |
| PollLoop.OnlyRewrittenPointsWritten | evohome.py:57-68 | every batch the modelled store receives (the `ext-Temperatures` write is not modelled) holds a single `Temperatures` point. Its device has a consistent `call_heat`, and a hot-water device has setpoint 0.0 and the name "Hot Water" |
| PollLoop.StopsOnlyOnAuthFailure | evohome.py:29-50 | given that the store write, the weather lookup and the ping succeed (see "## Left out"), if the loop ends, its last tick was a failed construction of the client, and no client is bound |
| PollLoop.Poller.constructor | evohome.py:18-20 | the run starts with its clock at the recorded start time (line 18). The store setup done before the first `while` (lines 22-27) counts as part of the first tick's work. It starts with no client, `all_ok` true and nothing written |
| PollLoop.Poller.Tick | evohome.py:30-92 | the object's new state, the sleeps taken and the batches appended to the store are exactly those of `Step` |
| PollLoop.Poller.Run | evohome.py:29-92 | running `while all_ok` over the inputs gives exactly the tick count, final state, sleeps and writes of `Steps` |

## Left out

- InfluxDB setup (`create_database`, `get_list_database`, lines 23-27) is left out. The store is modelled as the sequence of batches passed to `write_points`.
- The OpenWeatherMap request and its `ext-Temperatures` write (lines 72-81) are HTTP I/O against an external service. They are not modelled, and neither is the healthchecks.io ping (lines 84-86). Their time is part of a tick's `work`.
- `evohomeclient2` itself is a foreign library and is not modelled. Construction becomes an outcome input. `temperatures()` becomes the device list input. The membership tests `"invalid_grant" in e` and `"attempt_limit_exceeded" in e` become the `InitOutcome` cases. The set-wrapped credentials `{username}` are not modelled.
- An exception other than `AuthenticationError` from the `EvohomeClient(...)` constructor (line 38), such as a network error, is not caught. It escapes the loop and ends the script. It is not modelled: construction outcomes are only success or one of the authentication failures.
- Exceptions from the store writes `client.write_points` (lines 68 and 81), from the weather request and its `weather_data['main']['temp']` lookup (lines 78-79) and from the healthchecks.io ping (line 86) are not caught. The `except ConnectionError` at lines 88-89 is commented out. Each such exception ends the script. The model assumes these calls succeed, so `PollLoop.BoundClientPollsForever` ("never stops") and `PollLoop.StopsOnlyOnAuthFailure` ("stops only on an authentication failure") hold only under that assumption.
- An exception from `temperatures()` once a client exists is not modelled. The script does not catch it, so it ends the process.
- Reading environment variables (lines 9-10) and `print` logging are not modelled.
- `time.time()` and `time.sleep` are not modelled. The clock advances only by each tick's `work` input and by the returned sleeps. `Run` covers as many ticks as inputs are supplied, while the script loops forever.
- Pacing.SleepFor: clock readings are whole milliseconds rather than IEEE floats in seconds. Rounding of the float `%` is not modelled. For a positive interval, Python's `%` and Dafny's `%` both give a remainder in [0, interval).
- Devices.Processed: the API's null hot-water `name` and `setpoint` are modelled as arbitrary values, since they are always overwritten. A non-hot-water device with a null setpoint is not modelled. In Python its comparison would raise.
- Devices.ProcessDevices: each dictionary is a value in an array slot rather than a shared mutable object. The script's list holds distinct dictionaries that nothing else references, so no aliasing is lost.
