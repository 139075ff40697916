/** The polling loop: lazy construction of the controller client, the
    `all_ok` flag that ends the loop, the per-device writes of a successful
    poll and the sleeps between ticks. The foreign client constructor, the
    device list the API returns and the time a tick spends working are
    inputs of each tick; the clock advances only by that work and by sleeps. */
module PollLoop {

  import opened Devices
  import opened Pacing

  /** The cool-down after a non-credential authentication failure: 300 s, in milliseconds. */
  const AuthCooldown: nat := 300_000

  /** How constructing the controller client ends. */
  datatype InitOutcome =
    | Connected
    | InvalidGrant            // bad credentials
    | AttemptLimitExceeded    // the API's rate limit
    | OtherAuthError          // any other authentication failure

  /** What the outside world supplies to one tick: the outcome of constructing
      the client (used only while no client exists), the devices the API
      returns (used only once a client exists), and the time the tick spends
      before it reaches its final sleep. */
  datatype TickInput = TickInput(init: InitOutcome, fetched: seq<Device>, work: nat)

  /** Whether the client name is bound, the `all_ok` flag, and the clock. */
  datatype LoopState = LoopState(clientBound: bool, allOk: bool, clock: int)

  /** The state after one tick, the sleeps it took in order, and the batches it wrote. */
  datatype TickResult = TickResult(next: LoopState, sleeps: seq<nat>, batches: seq<Batch>)

  /** The outcome of running ticks until `all_ok` is false or the inputs run out. */
  datatype RunResult = RunResult(ticks: nat, final: LoopState, sleeps: seq<nat>, batches: seq<Batch>)

  /** The state the run begins in: no client, `all_ok` set, the clock at the
      recorded start time. The store setup the script performs before its
      first `while` is counted in the first tick's `work`. */
  function Initial(start: int): LoopState {
    LoopState(false, true, start)
  }

  function TotalSleep(s: seq<nat>): nat {
    if s == [] then 0 else s[0] + TotalSleep(s[1..])
  }

  function TotalFetched(inputs: seq<TickInput>): nat {
    if inputs == [] then 0 else |inputs[0].fetched| + TotalFetched(inputs[1..])
  }

  /** A point as the loop writes it: a temperature point whose device has been rewritten. */
  predicate WrittenPoint(p: Point) {
    && p.measurement == Measurement
    && p.fields.callHeat == Some(CallHeatFlag(p.fields.setpoint, p.fields.temp))
    && (IsHotWater(p.fields) ==> p.fields.setpoint == HotWaterSetpoint && p.fields.name == HotWaterName)
  }

  /** A tick that finds the client bound: fetch, rewrite and write every
      device, then take the drift-corrected sleep. */
  function Poll(s: LoopState, start: int, fetched: seq<Device>, now: int): (r: TickResult)
    requires s.allOk && s.clientBound
    ensures |r.sleeps| == 1 && r.next == s.(clock := now + r.sleeps[0])
    ensures 0 < r.sleeps[0] <= PollInterval && OnCadence(start, PollInterval, r.next.clock)
    ensures |r.batches| == |fetched|
    ensures forall i :: 0 <= i < |fetched| ==>
      r.batches[i] == [Point(Measurement, Processed(fetched[i], HotWaterSetpoint))]
  {
    var devices := ProcessAll(fetched, HotWaterSetpoint);
    BatchesOnePerDevice(devices);
    var z := SleepFor(PollInterval, start, now);
    TickResult(s.(clock := now + z), [z], Batches(devices))
  }

  /** A tick that finds no client: try to construct one. Success continues at
      once; any authentication failure clears `all_ok`, after the cool-down
      unless the credentials were refused, and still takes the final sleep. */
  function Initialise(s: LoopState, start: int, init: InitOutcome, now: int): (r: TickResult)
    requires s.allOk && !s.clientBound
    ensures r.batches == []
    ensures init == Connected ==> r.next == LoopState(true, true, now) && r.sleeps == []
    ensures init != Connected ==>
      && r.next.clientBound == r.next.allOk == false
      && |r.sleeps| == (if init == InvalidGrant then 1 else 2)
      && (init != InvalidGrant ==> r.sleeps[0] == AuthCooldown)
      && 0 < r.sleeps[|r.sleeps| - 1] <= PollInterval
      && OnCadence(start, PollInterval, r.next.clock)
      && r.next.clock == now + TotalSleep(r.sleeps)
  {
    if init == Connected then
      TickResult(s.(clientBound := true, clock := now), [], [])
    else
      var cooldown: seq<nat> := if init == InvalidGrant then [] else [AuthCooldown];
      var cooled := if init == InvalidGrant then now else now + AuthCooldown;
      var z := SleepFor(PollInterval, start, cooled);
      assert TotalSleep(cooldown + [z]) == cooled - now + z by {
        assert [z][1..] == [];
        if cooldown != [] {
          assert (cooldown + [z])[1..] == [z];
        }
      }
      TickResult(LoopState(false, false, cooled + z), cooldown + [z], [])
  }

  /** One pass through the body of the loop. */
  function Step(s: LoopState, start: int, input: TickInput): (r: TickResult)
    requires s.allOk
    // the client, once bound, stays bound; otherwise it is bound iff construction succeeded
    ensures r.next.clientBound == (s.clientBound || input.init == Connected)
    // the loop goes on exactly when a client exists
    ensures r.next.allOk == r.next.clientBound
    // time passes only by the tick's work and its sleeps
    ensures r.next.clock == s.clock + input.work + TotalSleep(r.sleeps)
    // a successful construction continues at once: no sleep, no write
    ensures !s.clientBound && input.init == Connected ==> r.sleeps == [] && r.batches == []
    // an authentication failure writes nothing; only non-credential failures take the cool-down
    ensures !s.clientBound && input.init != Connected ==>
      && r.batches == []
      && |r.sleeps| == (if input.init == InvalidGrant then 1 else 2)
      && (input.init != InvalidGrant ==> r.sleeps[0] == AuthCooldown)
    // a poll writes every fetched device once, in order, rewritten, then sleeps once
    ensures s.clientBound ==>
      && |r.sleeps| == 1
      && |r.batches| == |input.fetched|
      && forall i :: 0 <= i < |input.fetched| ==>
           r.batches[i] == [Point(Measurement, Processed(input.fetched[i], HotWaterSetpoint))]
    // every tick that sleeps ends with a drift-corrected sleep that lands on the cadence
    ensures r.sleeps != [] ==>
      && 0 < r.sleeps[|r.sleeps| - 1] <= PollInterval
      && OnCadence(start, PollInterval, r.next.clock)
  {
    var now := s.clock + input.work;
    if s.clientBound then
      var r := Poll(s, start, input.fetched, now);
      assert TotalSleep(r.sleeps) == r.sleeps[0] by {
        assert r.sleeps[1..] == [];
      }
      r
    else
      Initialise(s, start, input.init, now)
  }

  /** A tick followed by the run of the remaining ticks. */
  function Then(t: TickResult, rest: RunResult): RunResult {
    RunResult(rest.ticks + 1, rest.final, t.sleeps + rest.sleeps, t.batches + rest.batches)
  }

  /** The ticks, sleeps and batches already done, followed by a run. */
  function Joined(ticks: nat, sleeps: seq<nat>, batches: seq<Batch>, rest: RunResult): RunResult {
    RunResult(ticks + rest.ticks, rest.final, sleeps + rest.sleeps, batches + rest.batches)
  }

  lemma JoinedThen(ticks: nat, sleeps: seq<nat>, batches: seq<Batch>, t: TickResult, rest: RunResult)
    ensures Joined(ticks, sleeps, batches, Then(t, rest))
         == Joined(ticks + 1, sleeps + t.sleeps, batches + t.batches, rest)
  {
    assert sleeps + (t.sleeps + rest.sleeps) == (sleeps + t.sleeps) + rest.sleeps;
    assert batches + (t.batches + rest.batches) == (batches + t.batches) + rest.batches;
  }

  /** The run from the `k`-th input on is that tick followed by the run after it. */
  lemma StepsFrom(s: LoopState, start: int, inputs: seq<TickInput>, k: nat)
    requires s.allOk && k < |inputs|
    ensures var t := Step(s, start, inputs[k]);
      Steps(s, start, inputs[k..]) == Then(t, Steps(t.next, start, inputs[k + 1..]))
  {
    assert inputs[k..][1..] == inputs[k + 1..];
  }

  lemma ConcatAssociative<T>(a: seq<T>, b: seq<T>, c: seq<T>)
    ensures (a + b) + c == a + (b + c)
  {
  }

  /** The loop invariant of the run, carried across one more tick. */
  lemma RunAdvances(s0: LoopState, start: int, inputs: seq<TickInput>, ticks: nat,
                    sleeps: seq<nat>, batches: seq<Batch>, s: LoopState)
    requires s.allOk && ticks < |inputs|
    requires Steps(s0, start, inputs) == Joined(ticks, sleeps, batches, Steps(s, start, inputs[ticks..]))
    ensures var t := Step(s, start, inputs[ticks]);
      Steps(s0, start, inputs)
        == Joined(ticks + 1, sleeps + t.sleeps, batches + t.batches, Steps(t.next, start, inputs[ticks + 1..]))
  {
    var t := Step(s, start, inputs[ticks]);
    StepsFrom(s, start, inputs, ticks);
    JoinedThen(ticks, sleeps, batches, t, Steps(t.next, start, inputs[ticks + 1..]));
  }

  /** `while all_ok:` over the supplied tick inputs. */
  function Steps(s: LoopState, start: int, inputs: seq<TickInput>): (r: RunResult)
    ensures r.ticks <= |inputs|
    ensures r.ticks < |inputs| ==> !r.final.allOk
    decreases |inputs|
  {
    if !s.allOk || inputs == [] then RunResult(0, s, [], [])
    else
      var t := Step(s, start, inputs[0]);
      Then(t, Steps(t.next, start, inputs[1..]))
  }

  /** Any authentication failure while no client exists ends the loop after
      that tick: nothing is written, `invalid_grant` takes only the final
      drift-corrected sleep, every other cause first sleeps the cool-down. */
  lemma AuthFailureStops(s: LoopState, start: int, inputs: seq<TickInput>)
    requires s.allOk && !s.clientBound
    requires inputs != [] && inputs[0].init != Connected
    ensures Steps(s, start, inputs).ticks == 1
    ensures !Steps(s, start, inputs).final.allOk
    ensures Steps(s, start, inputs).batches == []
    ensures |Steps(s, start, inputs).sleeps| == (if inputs[0].init == InvalidGrant then 1 else 2)
    ensures inputs[0].init != InvalidGrant ==> Steps(s, start, inputs).sleeps[0] == AuthCooldown
  {
    var t := Step(s, start, inputs[0]);
    assert Steps(t.next, start, inputs[1..]) == RunResult(0, t.next, [], []);
  }

  /** A successful construction is followed straight away by a poll: the
      run is the run of a bound client one tick later, with nothing slept
      or written in between and no time spent beyond the tick's own work. */
  lemma ConnectedThenPolls(s: LoopState, start: int, inputs: seq<TickInput>)
    requires s.allOk && !s.clientBound
    requires inputs != [] && inputs[0].init == Connected
    ensures var bound := LoopState(true, true, s.clock + inputs[0].work);
      Steps(s, start, inputs) == Then(TickResult(bound, [], []), Steps(bound, start, inputs[1..]))
  {
  }

  /** Once a client exists every supplied tick polls: the loop never stops,
      each fetched device is written once, and each tick sleeps once, by at
      most one interval, ending on the cadence. */
  lemma {:induction false} BoundClientPollsForever(s: LoopState, start: int, inputs: seq<TickInput>)
    requires s.allOk && s.clientBound
    decreases |inputs|
    ensures var r := Steps(s, start, inputs);
      && r.ticks == |inputs|
      && r.final.allOk && r.final.clientBound
      && |r.batches| == TotalFetched(inputs)
      && |r.sleeps| == |inputs|
      && (forall i :: 0 <= i < |r.sleeps| ==> 0 < r.sleeps[i] <= PollInterval)
      && (inputs != [] ==> OnCadence(start, PollInterval, r.final.clock))
  {
    if inputs != [] {
      var t := Step(s, start, inputs[0]);
      BoundClientPollsForever(t.next, start, inputs[1..]);
      var rest := Steps(t.next, start, inputs[1..]);
      assert Steps(s, start, inputs).sleeps == t.sleeps + rest.sleeps;
      if inputs[1..] == [] {
        assert rest.final == t.next;
      }
    }
  }

  /** With a bound client, ticks that start on the cadence and finish their
      work within one interval each last exactly one interval, work plus sleep. */
  lemma {:induction false} PollsKeepCadence(s: LoopState, start: int, inputs: seq<TickInput>)
    requires s.allOk && s.clientBound && OnCadence(start, PollInterval, s.clock)
    requires forall i :: 0 <= i < |inputs| ==> inputs[i].work < PollInterval
    decreases |inputs|
    ensures |Steps(s, start, inputs).sleeps| == |inputs|
    ensures forall i :: 0 <= i < |inputs| ==>
      inputs[i].work + Steps(s, start, inputs).sleeps[i] == PollInterval
  {
    if inputs != [] {
      var t := Step(s, start, inputs[0]);
      OnCadenceStep(PollInterval, start, s.clock, inputs[0].work);
      PollsKeepCadence(t.next, start, inputs[1..]);
      var rest := Steps(t.next, start, inputs[1..]);
      assert Steps(s, start, inputs).sleeps == t.sleeps + rest.sleeps;
    }
  }

  /** The work durations of the supplied ticks, in order. */
  function Works(inputs: seq<TickInput>): (w: seq<nat>)
    ensures |w| == |inputs|
  {
    seq(|inputs|, i requires 0 <= i < |inputs| => inputs[i].work)
  }

  /** With a bound client the loop's clock follows the wake-up times of the
      pacing model: after the supplied ticks it reads the last wake-up. */
  lemma {:induction false} BoundClientFollowsWakes(s: LoopState, start: int, inputs: seq<TickInput>)
    requires s.allOk && s.clientBound && inputs != []
    decreases |inputs|
    ensures Steps(s, start, inputs).final.clock
      == Wakes(PollInterval, start, s.clock, Works(inputs))[|inputs| - 1]
  {
    var t := Step(s, start, inputs[0]);
    var now := s.clock + inputs[0].work;
    var wake := now + SleepFor(PollInterval, start, now);
    assert t.next.clock == wake;
    assert t.next.allOk && t.next.clientBound;
    var works := Works(inputs);
    assert works[0] == inputs[0].work;
    assert works[1..] == Works(inputs[1..]);
    var w := Wakes(PollInterval, start, s.clock, works);
    assert w == [wake] + Wakes(PollInterval, start, wake, Works(inputs[1..]));
    if |inputs| == 1 {
      assert Steps(t.next, start, inputs[1..]).final == t.next;
    } else {
      BoundClientFollowsWakes(t.next, start, inputs[1..]);
    }
  }

  /** Every point the loop writes is a single-point batch of a rewritten device. */
  lemma {:induction false} OnlyRewrittenPointsWritten(s: LoopState, start: int, inputs: seq<TickInput>)
    decreases |inputs|
    ensures forall i :: 0 <= i < |Steps(s, start, inputs).batches| ==>
      |Steps(s, start, inputs).batches[i]| == 1 && WrittenPoint(Steps(s, start, inputs).batches[i][0])
  {
    if s.allOk && inputs != [] {
      var t := Step(s, start, inputs[0]);
      OnlyRewrittenPointsWritten(t.next, start, inputs[1..]);
      var rest := Steps(t.next, start, inputs[1..]);
      assert Steps(s, start, inputs).batches == t.batches + rest.batches;
    }
  }

  /** The loop ends only through an authentication failure on the tick that
      tried to construct the client; after it nothing more runs. */
  lemma {:induction false} StopsOnlyOnAuthFailure(s: LoopState, start: int, inputs: seq<TickInput>)
    requires s.allOk
    decreases |inputs|
    ensures var r := Steps(s, start, inputs);
      !r.final.allOk ==>
        && 0 < r.ticks
        && inputs[r.ticks - 1].init != Connected
        && !r.final.clientBound
  {
    if inputs != [] {
      var t := Step(s, start, inputs[0]);
      if t.next.allOk {
        StopsOnlyOnAuthFailure(t.next, start, inputs[1..]);
        var r := Steps(t.next, start, inputs[1..]);
        if !r.final.allOk {
          assert inputs[1..][r.ticks - 1] == inputs[r.ticks];
        }
      }
    }
  }

  /** The running script: the loop state, the process start time from which
      the cadence is counted, and everything written to the store so far. */
  class Poller {
    const start: int
    var clientBound: bool
    var allOk: bool
    var clock: int
    var written: seq<Batch>

    function State(): LoopState
      reads this
    {
      LoopState(clientBound, allOk, clock)
    }

    /** Records the start time; no client exists yet and `all_ok` is set. */
    constructor (startTime: int)
      ensures start == startTime
      ensures State() == Initial(startTime)
      ensures written == []
    {
      start := startTime;
      clientBound, allOk, clock := false, true, startTime;
      written := [];
    }

    /** One pass through the loop body. `sleeps` are the sleeps it took. */
    method Tick(input: TickInput) returns (sleeps: seq<nat>)
      requires allOk
      modifies this
      ensures var r := Step(old(State()), start, input);
        State() == r.next && sleeps == r.sleeps && written == old(written) + r.batches
    {
      sleeps := [];
      clock := clock + input.work;
      ghost var now, bound := clock, clientBound;
      if clientBound {
        var devices := new Device[|input.fetched|](i requires 0 <= i < |input.fetched| => input.fetched[i]);
        var batches := ProcessDevices(devices, HotWaterSetpoint);
        assert devices[..] == ProcessAll(input.fetched, HotWaterSetpoint);
        written := written + batches;
      } else {
        if input.init == Connected {
          clientBound := true;
          return;
        }
        if input.init == InvalidGrant {
          allOk := false;
        } else {
          sleeps := sleeps + [AuthCooldown];
          clock := clock + AuthCooldown;
        }
        allOk := false;
      }
      var z := SleepFor(PollInterval, start, clock);
      sleeps := sleeps + [z];
      clock := clock + z;
      assert !bound ==> Step(old(State()), start, input) == Initialise(old(State()), start, input.init, now);
    }

    /** `while all_ok:` over the supplied inputs, one per tick. */
    method Run(inputs: seq<TickInput>) returns (ticks: nat, sleeps: seq<nat>)
      modifies this
      ensures var r := Steps(old(State()), start, inputs);
        ticks == r.ticks && State() == r.final && sleeps == r.sleeps
        && written == old(written) + r.batches
    {
      ticks, sleeps := 0, [];
      ghost var s0, w0 := State(), written;
      ghost var batches: seq<Batch> := [];
      while allOk && ticks < |inputs|
        invariant ticks <= |inputs|
        invariant written == w0 + batches
        invariant Steps(s0, start, inputs) == Joined(ticks, sleeps, batches, Steps(State(), start, inputs[ticks..]))
        decreases |inputs| - ticks
      {
        ghost var t := Step(State(), start, inputs[ticks]);
        RunAdvances(s0, start, inputs, ticks, sleeps, batches, State());
        ghost var before := written;
        var slept := Tick(inputs[ticks]);
        ConcatAssociative(w0, batches, t.batches);
        batches := batches + t.batches;
        sleeps := sleeps + slept;
        ticks := ticks + 1;
      }
      assert Steps(State(), start, inputs[ticks..]) == RunResult(0, State(), [], []);
    }
  }
}
