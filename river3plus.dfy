/**
 * The River 3 Plus profile (`devices/internal/river_3_plus.py`): a
 * normalized state is a flat dict of dotted keys, and the profile reads
 * fourteen entities out of it.
 */
module River3Plus {
  import opened Wrappers
  import opened Dicts
  import opened Values

  /** A normalized device state. */
  datatype NormalizedState = NormalizedState(data: Dict<string, Json>)
  {
    /** `state.get(key, default)` */
    function Get(key: string, default: Json): (r: Json)
      ensures HasKey(data, key) ==> Some(r) == Dicts.Get(data, key)
      ensures !HasKey(data, key) ==> r == default
    {
      GetOr(data, key, default)
    }
  }

  /** Why `build_entities` can fail: `int(...)` of the remaining time raises. */
  datatype EntityError = RemainTimeNotAnInteger(value: Json)

  /** The entity for row `i` and the state key it reads. */
  function EntityRow(i: nat): (string, string)
    requires i < 14
  {
    if i == 0 then ("sensor.battery", "pd.soc")
    else if i == 1 then ("sensor.time_remaining", "pd.remainTime")
    else if i == 2 then ("sensor.input_power", "pd.wattsInSum")
    else if i == 3 then ("sensor.output_power", "pd.wattsOutSum")
    else if i == 4 then ("sensor.ac_voltage", "ac.outVolts")
    else if i == 5 then ("sensor.ac_output_power", "ac.outWatts")
    else if i == 6 then ("sensor.battery_temperature", "bms.tempC")
    else if i == 7 then ("attr.grid_present", "grid.present")
    else if i == 8 then ("attr.charging", "charge.charging")
    else if i == 9 then ("switch.ac_output", "ac.enabled")
    else if i == 10 then ("switch.dc_output", "dc.enabled")
    else if i == 11 then ("switch.x_boost", "inverter.xBoost")
    else if i == 12 then ("number.ac_charge_power", "charge.acLimitW")
    else ("number.min_soc", "bms.minSoc")
  }

  /** The row of the remaining-time sensor, the one entity that is computed. */
  const TimeRemainingRow := 1

  /** The entity names, in the order the dict lists them. */
  function EntityNames(): seq<string>
  {
    seq(14, i requires 0 <= i < 14 => EntityRow(i).0)
  }

  /** `int(state.get("pd.remainTime", 0)) * 60`: minutes to seconds. */
  function RemainingSeconds(state: NormalizedState): (r: Result<int, EntityError>)
    ensures !HasKey(state.data, "pd.remainTime") ==> r == Ok(0)
    ensures r.Ok? <==> IntOfJson(state.Get("pd.remainTime", Int(0))).Some?
    ensures r.Ok? ==> r.value % 60 == 0 && r.value / 60 == IntOfJson(state.Get("pd.remainTime", Int(0))).value
  {
    var v := state.Get("pd.remainTime", Int(0));
    match IntOfJson(v)
    case Some(minutes) => Ok(minutes * 60)
    case None => Err(RemainTimeNotAnInteger(v))
  }

  /** `build_entities(state)` */
  function BuildEntities(state: NormalizedState): (r: Result<Dict<string, Json>, EntityError>)
    ensures r.Ok? <==> RemainingSeconds(state).Ok?
    ensures r.Ok? ==> Keys(r.value) == EntityNames()
  {
    match RemainingSeconds(state)
    case Err(e) => Err(e)
    case Ok(seconds) =>
      Ok(seq(14, i requires 0 <= i < 14 =>
        (EntityRow(i).0, if i == TimeRemainingRow then Int(seconds) else state.Get(EntityRow(i).1, Null))))
  }

  /** No entity name is used twice. */
  lemma EntityNamesDistinct()
    ensures forall i, j | 0 <= i < j < 14 :: EntityRow(i).0 != EntityRow(j).0
  {
    forall i, j | 0 <= i < j < 14 ensures EntityRow(i).0 != EntityRow(j).0 {
    }
  }

  /**
   * Every entity but the remaining time reads its own state key (`None`
   * when absent), and the remaining time is the state's minutes times 60
   * (zero when absent).
   */
  lemma EntitiesRead(state: NormalizedState, i: nat)
    requires i < 14 && BuildEntities(state).Ok?
    ensures var r := BuildEntities(state).value;
      if i == TimeRemainingRow then Get(r, EntityRow(i).0) == Some(Int(RemainingSeconds(state).value))
      else Get(r, EntityRow(i).0) == Some(state.Get(EntityRow(i).1, Null))
  {
    var r := BuildEntities(state).value;
    EntityNamesDistinct();
    assert DistinctKeys(r) by {
      forall a, b | 0 <= a < b < |r| ensures r[a].0 != r[b].0 {
        assert r[a].0 == EntityRow(a).0 && r[b].0 == EntityRow(b).0;
      }
    }
    GetAt(r, i);
  }

  /** With the battery reported at `soc`, the battery sensor shows `soc`; without, `None`. */
  lemma BatterySensor(state: NormalizedState)
    requires BuildEntities(state).Ok?
    ensures Get(BuildEntities(state).value, "sensor.battery") == Some(GetOr(state.data, "pd.soc", Null))
  {
    EntitiesRead(state, 0);
  }

  /** A state without the remaining time builds, and shows zero seconds. */
  lemma NoRemainingTime(state: NormalizedState)
    requires !HasKey(state.data, "pd.remainTime")
    ensures BuildEntities(state).Ok?
    ensures Get(BuildEntities(state).value, "sensor.time_remaining") == Some(Int(0))
  {
    EntitiesRead(state, TimeRemainingRow);
  }

  /** `int(None)` raises: a remaining time present but `None` fails the build. */
  lemma NullRemainingTime(state: NormalizedState)
    requires Get(state.data, "pd.remainTime") == Some(Null)
    ensures BuildEntities(state) == Err(RemainTimeNotAnInteger(Null))
  {
  }
}
