/** Device records returned by the heating controller, and the per-device
    rewrite the poller applies to them before writing each one to the
    time-series store. */
module Devices {

  datatype Option<T> = None | Some(value: T)

  /** One device dictionary as the controller API returns it. `callHeat`
      is `None` until the poller adds the derived flag. Temperatures are
      only ever compared, so they are kept as `real`. */
  datatype Device = Device(
    thermostat: string,
    id: string,
    name: string,
    temp: real,
    setpoint: real,
    callHeat: Option<int>)

  /** One point written to the store: a measurement name and its fields. */
  datatype Point = Point(measurement: string, fields: Device)

  /** The points handed to one call of the store's write. */
  type Batch = seq<Point>

  const HotWaterThermostat: string := "DOMESTIC_HOT_WATER"
  const HotWaterName: string := "Hot Water"
  /** The hot-water setpoint cannot be read from the API, so it is fixed locally. */
  const HotWaterSetpoint: real := 0.0
  const Measurement: string := "Temperatures"

  predicate IsHotWater(d: Device) {
    d.thermostat == HotWaterThermostat
  }

  /** The call-heat flag: 1 when the device wants heat, else 0. */
  function CallHeatFlag(setpoint: real, temp: real): (f: int)
    ensures f == 0 || f == 1
    ensures f == 1 <==> setpoint > temp
  {
    if setpoint > temp then 1 else 0
  }

  /** What one device looks like once the poller has rewritten it. */
  function Processed(d: Device, hotWaterSetpoint: real): (r: Device)
    ensures r.thermostat == d.thermostat && r.id == d.id && r.temp == d.temp
    ensures IsHotWater(d) ==> r.setpoint == hotWaterSetpoint && r.name == HotWaterName
    ensures !IsHotWater(d) ==> r.setpoint == d.setpoint && r.name == d.name
    ensures r.callHeat == Some(1) <==> r.setpoint > r.temp
    ensures r.callHeat == Some(0) || r.callHeat == Some(1)
  {
    var filled :=
      if IsHotWater(d)
      then d.(setpoint := hotWaterSetpoint, name := HotWaterName, callHeat := Some(0))
      else d;
    filled.(callHeat := Some(CallHeatFlag(filled.setpoint, filled.temp)))
  }

  /** The whole fetched list after the rewrite: same length and order, every
      element carries a consistent flag, hot-water elements the local setpoint
      and name, every other element its own name and setpoint. */
  function ProcessAll(s: seq<Device>, hotWaterSetpoint: real): (r: seq<Device>)
    ensures |r| == |s|
    ensures forall i :: 0 <= i < |s| ==> r[i] == Processed(s[i], hotWaterSetpoint)
    ensures forall i :: 0 <= i < |s| ==>
      && r[i].thermostat == s[i].thermostat && r[i].id == s[i].id && r[i].temp == s[i].temp
      && r[i].callHeat == Some(CallHeatFlag(r[i].setpoint, r[i].temp))
    ensures forall i :: 0 <= i < |s| && IsHotWater(s[i]) ==>
      r[i].setpoint == hotWaterSetpoint && r[i].name == HotWaterName
    ensures forall i :: 0 <= i < |s| && !IsHotWater(s[i]) ==>
      r[i].setpoint == s[i].setpoint && r[i].name == s[i].name
  {
    seq(|s|, i requires 0 <= i < |s| => Processed(s[i], hotWaterSetpoint))
  }

  /** The writes made for a list of already rewritten devices, in list order. */
  function Batches(s: seq<Device>): (b: seq<Batch>)
    ensures |b| == |s|
  {
    if s == [] then [] else Batches(s[..|s| - 1]) + [[Point(Measurement, s[|s| - 1])]]
  }

  /** Each device is written exactly once, in order, as a batch of one point. */
  lemma {:induction false} BatchesOnePerDevice(s: seq<Device>)
    ensures |Batches(s)| == |s|
    ensures forall i :: 0 <= i < |s| ==> Batches(s)[i] == [Point(Measurement, s[i])]
  {
    if s != [] {
      BatchesOnePerDevice(s[..|s| - 1]);
    }
  }

  /** With the fixed hot-water setpoint of 0.0, the hot-water device calls
      for heat exactly when its temperature is below zero. */
  lemma HotWaterCallsHeatOnlyBelowZero(d: Device)
    requires IsHotWater(d)
    ensures Processed(d, HotWaterSetpoint).callHeat == Some(1) <==> d.temp < 0.0
  {
  }

  /** The rewrite loop: every device of `a` is updated in place and written
      to the store straight after its own update. `written` is what the
      loop handed to the store, one call per element. */
  method ProcessDevices(a: array<Device>, hotWaterSetpoint: real) returns (written: seq<Batch>)
    modifies a
    ensures forall k :: 0 <= k < a.Length ==> a[k] == Processed(old(a[k]), hotWaterSetpoint)
    ensures a[..] == ProcessAll(old(a[..]), hotWaterSetpoint)
    ensures written == Batches(a[..])
  {
    written := [];
    for i := 0 to a.Length
      invariant forall k :: 0 <= k < i ==> a[k] == Processed(old(a[k]), hotWaterSetpoint)
      invariant forall k :: i <= k < a.Length ==> a[k] == old(a[k])
      invariant written == Batches(a[..i])
    {
      if a[i].thermostat == HotWaterThermostat {
        a[i] := a[i].(setpoint := hotWaterSetpoint);
        a[i] := a[i].(name := HotWaterName);
        a[i] := a[i].(callHeat := Some(0));
      }
      a[i] := a[i].(callHeat := Some(if a[i].setpoint > a[i].temp then 1 else 0));
      assert a[..i + 1][..i] == a[..i];
      written := written + [[Point(Measurement, a[i])]];
    }
    assert a[..a.Length] == a[..];
  }
}
