/**
 * How the format driver names the sensors it finds below the
 * TelescopeModel group, and how it simplifies antenna activities to the
 * basic antenna state.
 */
module SensorNames {
  import opened Wrappers
  import Text

  datatype Error =
    | UnpackError // a dataset path without '/' cannot be unpacked into component and sensor

  /** An HDF5 object met while visiting the TelescopeModel group: its path
      relative to that group, whether it is a dataset, whether its shape is
      scalar and the field names of its compound type. */
  datatype H5Object = H5Object(path: string, isDataset: bool, isScalar: bool, fieldNames: seq<string>)

  /** A sensor is a non-scalar dataset of (timestamp, value, status) records. */
  predicate IsSensor(obj: H5Object)
  {
    obj.isDataset && !obj.isScalar && obj.fieldNames == ["timestamp", "value", "status"]
  }

  /** Sensor group of a component, given the `class` attribute of each
      component that has one: antenna positioners go to `Antennas/<component>`,
      other classed components to their class, components without a class
      (or with an empty one) keep their own name. */
  function GroupName(component: string, classOf: map<string, string>): string
  {
    if component in classOf && classOf[component] != "" then
      if classOf[component] == "AntennaPositioner" then "Antennas/" + component
      else classOf[component]
    else component
  }

  /** Cache key of the sensor at `path` (`<component>/<sensor>`): the
      component part is replaced by its sensor group. */
  function SensorKey(path: string, classOf: map<string, string>): (r: Result<string, Error>)
    ensures r.Failure? <==> '/' !in path
  {
    match Text.SplitOnce(path, '/')
    case None => Failure(UnpackError)
    case Some(parts) => Success(GroupName(parts.0, classOf) + "/" + parts.1)
  }

  /** The key keeps the sensor part of the path (everything after the first
      '/') and puts the component's group in front of it: the path itself for
      an unclassed component, `Antennas/` + the path for an antenna positioner. */
  lemma SensorKeyOfPath(component: string, sensor: string, classOf: map<string, string>)
    requires '/' !in component
    ensures SensorKey(component + "/" + sensor, classOf) == Success(GroupName(component, classOf) + "/" + sensor)
    ensures (component !in classOf || classOf[component] == "") ==>
      SensorKey(component + "/" + sensor, classOf) == Success(component + "/" + sensor)
    ensures (component in classOf && classOf[component] == "AntennaPositioner") ==>
      SensorKey(component + "/" + sensor, classOf) == Success("Antennas/" + component + "/" + sensor)
  {
    assert component + "/" + sensor == component + ['/'] + sensor;
    Text.SplitAtFirst(component, '/', sensor);
  }

  /** The cache key an object is registered under: none for an object that
      is not a sensor or whose path cannot be unpacked. */
  function KeyOf(obj: H5Object, classOf: map<string, string>): (k: Option<string>)
    ensures k.Some? <==> IsSensor(obj) && '/' in obj.path
  {
    if IsSensor(obj) then
      match SensorKey(obj.path, classOf)
      case Success(key) => Some(key)
      case Failure(_) => None
    else None
  }

  /** The key of every object, in visiting order. */
  function Keys(objects: seq<H5Object>, classOf: map<string, string>): (ks: seq<Option<string>>)
    ensures |ks| == |objects|
  {
    seq(|objects|, j requires 0 <= j < |objects| => KeyOf(objects[j], classOf))
  }

  /** `cache` holds exactly the keys among the first `n` of `ks`, each mapped
      to the last position that produced that key. */
  ghost predicate CacheOf(ks: seq<Option<string>>, n: nat, cache: map<string, nat>)
    requires n <= |ks|
  {
    CacheKeys(ks, n, cache) && CacheLast(ks, n, cache)
  }

  ghost predicate CacheKeys(ks: seq<Option<string>>, n: nat, cache: map<string, nat>)
    requires n <= |ks|
  {
    forall key :: key in cache <==> exists j :: 0 <= j < n && ks[j] == Some(key)
  }

  ghost predicate CacheLast(ks: seq<Option<string>>, n: nat, cache: map<string, nat>)
    requires n <= |ks|
  {
    forall key :: key in cache ==>
      && cache[key] < n
      && ks[cache[key]] == Some(key)
      && forall j :: cache[key] < j < n ==> ks[j] != Some(key)
  }

  /** A sensor whose path cannot be unpacked into component and sensor. */
  predicate Unregistrable(obj: H5Object)
  {
    IsSensor(obj) && '/' !in obj.path
  }

  /** The cache after registering every key of `ks` in order. */
  function CacheFrom(ks: seq<Option<string>>): map<string, nat>
  {
    if |ks| == 0 then map[]
    else
      match ks[|ks| - 1]
      case Some(key) => CacheFrom(ks[..|ks| - 1])[key := |ks| - 1]
      case None => CacheFrom(ks[..|ks| - 1])
  }

  /** The cache built from `ks` holds exactly its keys, each mapped to the
      last position that produced it. */
  lemma {:induction false} CacheFromExact(ks: seq<Option<string>>)
    ensures CacheOf(ks, |ks|, CacheFrom(ks))
  {
    if |ks| > 0 {
      var prefix := ks[..|ks| - 1];
      CacheFromExact(prefix);
      assert ks == prefix + [ks[|ks| - 1]];
      match ks[|ks| - 1]
      case Some(key) => RegisterStep(prefix, CacheFrom(prefix), key);
      case None => SkipStep(prefix, CacheFrom(prefix));
    }
  }

  /** The sensor cache built by visiting `objects` in order (h5py's
      `visititems` calling `register_sensor`): every sensor's key is assigned
      in turn, so each key maps to (the position of) the last sensor dataset
      that produced it. A sensor whose path has no component part raises, and
      the partly built cache is lost with the exception. */
  function RegisterSensors(objects: seq<H5Object>, classOf: map<string, string>): (r: Result<map<string, nat>, Error>)
    ensures r.Failure? <==> exists i :: 0 <= i < |objects| && Unregistrable(objects[i])
    ensures r.Success? ==> CacheOf(Keys(objects, classOf), |objects|, r.value)
  {
    if exists i :: 0 <= i < |objects| && Unregistrable(objects[i]) then Failure(UnpackError)
    else
      CacheFromExact(Keys(objects, classOf));
      Success(CacheFrom(Keys(objects, classOf)))
  }

  /** Registering the next position under its key keeps the cache exact,
      the key now mapping to that position. */
  lemma RegisterStep(ks: seq<Option<string>>, cache: map<string, nat>, key: string)
    requires CacheOf(ks, |ks|, cache)
    ensures CacheOf(ks + [Some(key)], |ks| + 1, cache[key := |ks|])
  {
    var ks', c := ks + [Some(key)], cache[key := |ks|];
    forall k
      ensures k in c <==> exists j :: 0 <= j < |ks'| && ks'[j] == Some(k)
    {
      if k != key && k !in cache {
        forall j | 0 <= j < |ks'| ensures ks'[j] != Some(k) {
          if j < |ks| {
            assert ks'[j] == ks[j];
          }
        }
      }
      if k in c {
        var j := if k == key then |ks| else cache[k];
        assert ks'[j] == Some(k);
      }
    }
    forall k | k in c
      ensures c[k] < |ks'| && ks'[c[k]] == Some(k)
      ensures forall j :: c[k] < j < |ks'| ==> ks'[j] != Some(k)
    {
      if k != key {
        assert ks'[c[k]] == ks[cache[k]];
        forall j | c[k] < j < |ks'| ensures ks'[j] != Some(k) {
          if j < |ks| {
            assert ks'[j] == ks[j];
          }
        }
      }
    }
  }

  /** A position without a key leaves the cache exact. */
  lemma SkipStep(ks: seq<Option<string>>, cache: map<string, nat>)
    requires CacheOf(ks, |ks|, cache)
    ensures CacheOf(ks + [None], |ks| + 1, cache)
  {
    var ks' := ks + [None];
    forall k
      ensures k in cache <==> exists j :: 0 <= j < |ks'| && ks'[j] == Some(k)
    {
      if k in cache {
        assert ks'[cache[k]] == ks[cache[k]];
      }
      if exists j :: 0 <= j < |ks'| && ks'[j] == Some(k) {
        var j :| 0 <= j < |ks'| && ks'[j] == Some(k);
        assert ks[j] == Some(k);
      }
    }
    forall k | k in cache
      ensures ks'[cache[k]] == Some(k)
    {
      assert ks'[cache[k]] == ks[cache[k]];
    }
  }

  // ---------------------------------------------------------------------
  // Antenna activity
  // ---------------------------------------------------------------------

  /** Scan activities and the basic antenna state each one stands for. */
  const SimplifyStateTable: map<string, string> :=
    map["scan_ready" := "slew", "scan" := "scan", "scan_complete" := "scan", "track" := "track", "slew" := "slew"]

  /** The basic antenna states: slewing, scanning, tracking, stopped. */
  const BasicStates: set<string> := {"slew", "scan", "track", "stop"}

  /** Basic state of an activity; every activity outside the table is 'stop'. */
  function SimplifyState(activity: string): (state: string)
    ensures state in BasicStates
    ensures activity in BasicStates ==> state == activity
    ensures state == "stop" <==> activity !in SimplifyStateTable
    ensures state == "scan" <==> activity == "scan" || activity == "scan_complete"
    ensures state == "slew" <==> activity == "slew" || activity == "scan_ready"
  {
    if activity in SimplifyStateTable then SimplifyStateTable[activity] else "stop"
  }

  /** Sensor policy entries the driver sets for the activity sensors. */
  datatype ActivityPolicy = ActivityPolicy(greedyValues: seq<string>, initialValue: string)

  const ActivityProps: ActivityPolicy := ActivityPolicy(["slew", "stop"], "slew")

  /** The greedy values and the initial value of the activity policy are
      basic states, so the state transform leaves them as they are. */
  lemma ActivityPropsAreStates()
    ensures forall v :: v in ActivityProps.greedyValues ==> v in BasicStates && SimplifyState(v) == v
    ensures SimplifyState(ActivityProps.initialValue) == ActivityProps.initialValue
  {
  }
}
