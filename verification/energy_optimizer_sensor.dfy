/** The optimal-buy-threshold sensor: reads the battery and grid settings
    and three Home Assistant entities, derives the optimizer's inputs, takes
    the future price slots up to the end of tomorrow, and reports the
    optimizer's threshold, keeping its metadata as the sensor attributes. */
module EnergyOptimizerSensor {
  import opened Common
  import EO = EnergyOptimizer

  // ---------------------------------------------------------------------
  // Entity readings.

  /** A Home Assistant state: its text and what float() makes of it. */
  datatype EntityState = EntityState(state: string, value: Option<real>)

  /** An entity reading that yields a number: an id is configured, the
      entity exists, its state is neither "unknown" nor "unavailable", and
      the state parses as a float. */
  predicate Usable(states: map<string, EntityState>, entityId: string)
  {
    && entityId != ""
    && entityId in states
    && states[entityId].state != "unknown"
    && states[entityId].state != "unavailable"
    && states[entityId].value.Some?
  }

  /** _read_entity_float: the entity's value when usable, the fallback
      otherwise. */
  function ReadEntityFloat(states: map<string, EntityState>, entityId: string, fallback: real): (r: real)
    ensures Usable(states, entityId) ==> Some(r) == states[entityId].value
    ensures !Usable(states, entityId) ==> r == fallback
  {
    if entityId == "" then fallback
    else if entityId !in states then fallback
    else
      var state := states[entityId];
      if state.state == "unknown" || state.state == "unavailable" then fallback
      else if state.value.None? then fallback
      else state.value.value
  }

  // ---------------------------------------------------------------------
  // Settings.

  /** The configuration keys the sensor reads. */
  datatype SettingKeys = SettingKeys(
    batteryCapacity: string, maxGridPower: string, maxChargingPower: string, requiredDailyEnergy: string,
    pvForecastEntity: string, consumptionEntity: string, socEntity: string)

  /** The defaults for the numeric settings (kWh and kW). */
  datatype Defaults = Defaults(batteryCapacity: real, maxGridPower: real, maxChargingPower: real, requiredDailyEnergy: real)

  /** The options when there are any, else the setup data. */
  function SettingsOf(entry: ConfigEntry): map<string, Setting>
  {
    if |entry.options| > 0 then entry.options else entry.data
  }

  /** float() of a setting; a text that does not parse raises. */
  function AsFloat(v: Setting): Option<real>
  {
    match v
    case Flag(b) => Some(if b then 1.0 else 0.0)
    case Number(x) => Some(x)
    case Text(_, parsed) => parsed
  }

  function FloatSetting(settings: map<string, Setting>, key: string, default: real): Option<real>
  {
    if key in settings then AsFloat(settings[key]) else Some(default)
  }

  /** An entity id setting; anything but a text names no entity. */
  function EntityIdSetting(settings: map<string, Setting>, key: string): string
  {
    if key in settings && settings[key].Text? then settings[key].s else ""
  }

  // ---------------------------------------------------------------------
  // The optimizer inputs.

  datatype Inputs = Inputs(
    socPct: real, batteryEnergy: real, dailyConsumption: real, pvForecast: real,
    energyToBuy: real, maxEnergyBeforePv: real, maxPerSlot: real)

  /** The arithmetic of native_value: energies in kWh, a 15-minute slot
      taking a quarter of an hour's power. */
  function DeriveInputs(capacity: real, maxGridPower: real, maxChargingPower: real,
                        socPct: real, dailyConsumption: real, pvForecast: real): Inputs
  {
    var batteryEnergy := socPct / 100.0 * capacity;
    Inputs(socPct, batteryEnergy, dailyConsumption, pvForecast,
           dailyConsumption - pvForecast - batteryEnergy,
           capacity - Min(pvForecast, capacity),
           Min(maxChargingPower, maxGridPower) * 0.25)
  }

  /** The need is what consumption leaves after PV and the battery's charge;
      the before-PV cap is the room PV will not fill (none when PV covers the
      battery, at most the capacity); a slot takes a quarter of the lower of
      the two power limits. */
  lemma DeriveInputsMeaning(capacity: real, maxGridPower: real, maxChargingPower: real,
                            socPct: real, dailyConsumption: real, pvForecast: real)
    ensures var inputs := DeriveInputs(capacity, maxGridPower, maxChargingPower, socPct, dailyConsumption, pvForecast);
      && inputs.energyToBuy + pvForecast + inputs.batteryEnergy == dailyConsumption
      && inputs.batteryEnergy * 100.0 == socPct * capacity
      && (pvForecast >= capacity ==> inputs.maxEnergyBeforePv == 0.0)
      && (pvForecast <= capacity ==> inputs.maxEnergyBeforePv == capacity - pvForecast)
      && (pvForecast >= 0.0 && capacity >= 0.0 ==> 0.0 <= inputs.maxEnergyBeforePv <= capacity)
      && inputs.maxPerSlot * 4.0 <= maxChargingPower && inputs.maxPerSlot * 4.0 <= maxGridPower
      && (inputs.maxPerSlot * 4.0 == maxChargingPower || inputs.maxPerSlot * 4.0 == maxGridPower)
  {
  }

  // ---------------------------------------------------------------------
  // The price slots.

  /** A record whose interval starts between now and the end of tomorrow. */
  predicate InHorizon(r: PriceRecord, now: int)
  {
    r.dtime.Some? && now <= PeriodStart(r) < DayStart(Day(now) + 2)
  }

  function PricedInHorizon(now: int): PriceRecord -> bool
  {
    (r: PriceRecord) => InHorizon(r, now) && r.rcePln.Some?
  }

  /** (start, price) of every record in the horizon whose price parses, in
      record order. */
  function PriceSlots(records: seq<PriceRecord>, now: int): seq<EO.Slot>
  {
    if records == [] then []
    else
      var r := records[|records| - 1];
      PriceSlots(records[..|records| - 1], now)
        + (if InHorizon(r, now) && r.rcePln.Some? then [EO.Slot(PeriodStart(r), r.rcePln.value)] else [])
  }

  /** _get_price_slots */
  method GetPriceSlots(data: Option<Snapshot>, now: int) returns (slots: seq<EO.Slot>)
    ensures slots == PriceSlots(Records(data), now)
  {
    var records := Records(data);
    if records == [] {
      return [];
    }
    var tomorrowEnd := DayStart(Day(now) + 2) - 1;
    slots := [];
    for i := 0 to |records|
      invariant slots == PriceSlots(records[..i], now)
    {
      assert records[..i + 1][..i] == records[..i];
      var record := records[i];
      if record.dtime.None? {
        continue;
      }
      var periodStart := record.dtime.value - QUARTER;
      if periodStart < now {
        continue;
      }
      if periodStart > tomorrowEnd {
        continue;
      }
      if record.rcePln.None? {
        continue;
      }
      slots := slots + [EO.Slot(periodStart, record.rcePln.value)];
    }
    assert records[..|records|] == records;
  }

  /** The slots are exactly the priced records of the horizon: each slot
      starts between now and the end of tomorrow and comes from such a
      record, and every such record yields a slot. */
  lemma {:induction false} PriceSlotsExact(records: seq<PriceRecord>, now: int)
    ensures |PriceSlots(records, now)| <= |records|
    ensures forall s :: s in PriceSlots(records, now) <==>
      exists i :: 0 <= i < |records| && InHorizon(records[i], now) && records[i].rcePln.Some?
        && s == EO.Slot(PeriodStart(records[i]), records[i].rcePln.value)
    ensures forall s :: s in PriceSlots(records, now) ==> now <= s.start < DayStart(Day(now) + 2)
  {
    if records != [] {
      var init := records[..|records| - 1];
      PriceSlotsExact(init, now);
      forall s
        ensures s in PriceSlots(records, now) <==>
          exists i :: 0 <= i < |records| && InHorizon(records[i], now) && records[i].rcePln.Some?
            && s == EO.Slot(PeriodStart(records[i]), records[i].rcePln.value)
      {
        if s in PriceSlots(init, now) {
          var i :| 0 <= i < |init| && InHorizon(init[i], now) && init[i].rcePln.Some?
            && s == EO.Slot(PeriodStart(init[i]), init[i].rcePln.value);
          assert records[i] == init[i];
        }
        if exists i :: 0 <= i < |records| && InHorizon(records[i], now) && records[i].rcePln.Some?
             && s == EO.Slot(PeriodStart(records[i]), records[i].rcePln.value) {
          var i :| 0 <= i < |records| && InHorizon(records[i], now) && records[i].rcePln.Some?
            && s == EO.Slot(PeriodStart(records[i]), records[i].rcePln.value);
          if i < |init| {
            assert init[i] == records[i];
          }
        }
      }
    }
  }

  // ---------------------------------------------------------------------
  // native_value

  /** The sensor attributes: the optimizer's metadata and the inputs. */
  datatype SensorMeta = SensorMeta(optimizer: EO.Meta, inputs: Inputs)

  /** float() of a numeric setting raised. */
  datatype SensorError = SettingNotNumeric

  /** The optimizer inputs native_value derives from the settings and the
      entity readings, or the error raised by a numeric setting that does
      not parse. */
  function InputsOf(entry: ConfigEntry, keys: SettingKeys, defaults: Defaults,
                    states: map<string, EntityState>): Result<Inputs, SensorError>
  {
    var settings := SettingsOf(entry);
    var capacity := FloatSetting(settings, keys.batteryCapacity, defaults.batteryCapacity);
    var grid := FloatSetting(settings, keys.maxGridPower, defaults.maxGridPower);
    var charging := FloatSetting(settings, keys.maxChargingPower, defaults.maxChargingPower);
    var required := FloatSetting(settings, keys.requiredDailyEnergy, defaults.requiredDailyEnergy);
    if capacity.None? || grid.None? || charging.None? || required.None? then Failure(SettingNotNumeric)
    else
      Success(DeriveInputs(capacity.value, grid.value, charging.value,
        ReadEntityFloat(states, EntityIdSetting(settings, keys.socEntity), 0.0),
        ReadEntityFloat(states, EntityIdSetting(settings, keys.consumptionEntity), required.value),
        ReadEntityFloat(states, EntityIdSetting(settings, keys.pvForecastEntity), 0.0)))
  }

  /** Reference definition of native_value: the threshold and the attributes,
      or the error raised by a numeric setting that does not parse. */
  function Evaluate(entry: ConfigEntry, keys: SettingKeys, defaults: Defaults,
                    states: map<string, EntityState>, data: Option<Snapshot>, now: int): Result<(Option<real>, SensorMeta), SensorError>
  {
    match InputsOf(entry, keys, defaults, states)
    case Failure(e) => Failure(e)
    case Success(inputs) =>
      var result := EO.OptimalBuyThreshold(
        PriceSlots(Records(data), now), inputs.energyToBuy,
        EO.Caps(inputs.maxPerSlot, inputs.maxEnergyBeforePv),
        EO.PvWindow(inputs.pvForecast, EO.DEFAULT_PV_START_HOUR, EO.DEFAULT_PV_END_HOUR));
      Success((result.0, SensorMeta(result.1, inputs)))
  }

  /** The slots are the priced horizon records in record order, with
      repetitions, each made into a (start, price) slot: the order decides
      how the optimizer's stable sort breaks price ties. */
  lemma {:induction false} PriceSlotsInOrder(records: seq<PriceRecord>, now: int)
    ensures var hits := Filter(records, PricedInHorizon(now));
      |PriceSlots(records, now)| == |hits|
      && forall i :: 0 <= i < |hits| ==>
           InHorizon(hits[i], now) && hits[i].rcePln.Some?
           && PriceSlots(records, now)[i] == EO.Slot(PeriodStart(hits[i]), hits[i].rcePln.value)
  {
    if records != [] {
      PriceSlotsInOrder(records[..|records| - 1], now);
    }
  }

  /** The sensor raises exactly when one of the four numeric settings does
      not parse; the entity readings never make it raise. */
  lemma SettingsRaiseOrParse(entry: ConfigEntry, keys: SettingKeys, defaults: Defaults,
                             states: map<string, EntityState>, data: Option<Snapshot>, now: int)
    ensures var settings := SettingsOf(entry);
      Evaluate(entry, keys, defaults, states, data, now).Failure? <==>
        || FloatSetting(settings, keys.batteryCapacity, defaults.batteryCapacity).None?
        || FloatSetting(settings, keys.maxGridPower, defaults.maxGridPower).None?
        || FloatSetting(settings, keys.maxChargingPower, defaults.maxChargingPower).None?
        || FloatSetting(settings, keys.requiredDailyEnergy, defaults.requiredDailyEnergy).None?
  {
  }

  /** With no usable entity the sensor assumes an empty battery, no PV and
      the configured daily need: it buys that need, with the whole capacity
      as the before-PV cap. */
  lemma FallbackReadings(entry: ConfigEntry, keys: SettingKeys, defaults: Defaults,
                         states: map<string, EntityState>)
    requires var settings := SettingsOf(entry);
      && !Usable(states, EntityIdSetting(settings, keys.socEntity))
      && !Usable(states, EntityIdSetting(settings, keys.consumptionEntity))
      && !Usable(states, EntityIdSetting(settings, keys.pvForecastEntity))
    requires InputsOf(entry, keys, defaults, states).Success?
    ensures var settings := SettingsOf(entry);
      var inputs := InputsOf(entry, keys, defaults, states).value;
      var capacity := FloatSetting(settings, keys.batteryCapacity, defaults.batteryCapacity).value;
      && inputs.socPct == 0.0 && inputs.pvForecast == 0.0 && inputs.batteryEnergy == 0.0
      && Some(inputs.dailyConsumption) == FloatSetting(settings, keys.requiredDailyEnergy, defaults.requiredDailyEnergy)
      && inputs.energyToBuy == inputs.dailyConsumption
      && inputs.maxEnergyBeforePv == Max0(capacity)
  {
  }

  /** A reported threshold is the price of a record that starts between now
      and the end of tomorrow, and the attributes report the same threshold
      with an "ok" status. */
  lemma ThresholdIsHorizonPrice(entry: ConfigEntry, keys: SettingKeys, defaults: Defaults,
                                states: map<string, EntityState>, data: Option<Snapshot>, now: int)
    requires var r := Evaluate(entry, keys, defaults, states, data, now);
      r.Success? && r.value.0.Some?
    ensures var r := Evaluate(entry, keys, defaults, states, data, now).value;
      && r.1.optimizer.threshold == r.0
      && r.1.optimizer.status == EO.Ok
      && exists x :: x in Records(data) && InHorizon(x, now) && x.rcePln == r.0
  {
    var r := Evaluate(entry, keys, defaults, states, data, now).value;
    var inputs := r.1.inputs;
    var slots := PriceSlots(Records(data), now);
    var caps := EO.Caps(inputs.maxPerSlot, inputs.maxEnergyBeforePv);
    var pv := EO.PvWindow(inputs.pvForecast, EO.DEFAULT_PV_START_HOUR, EO.DEFAULT_PV_END_HOUR);
    assert EO.OptimalBuyThreshold(slots, inputs.energyToBuy, caps, pv) == (r.0, r.1.optimizer);
    EO.OptimalBuyThresholdStatus(slots, inputs.energyToBuy, caps, pv);
    EO.OptimalBuyThresholdAllocation(slots, inputs.energyToBuy, caps, pv);
    var eligible := EO.EligibleSlots(slots, pv);
    var amounts := EO.Amounts(eligible, 0, EO.Greedy(inputs.energyToBuy, 0.0, 0, None), EO.PrePvStarts(slots, pv), caps);
    var k :| 0 <= k < |amounts| && amounts[k] > 0.0 && r.0.value == eligible[k].price;
    EO.EligibleSlotsExact(slots, pv);
    assert eligible[k] in eligible;
    PriceSlotsExact(Records(data), now);
    var i :| 0 <= i < |Records(data)| && InHorizon(Records(data)[i], now) && Records(data)[i].rcePln.Some?
      && eligible[k] == EO.Slot(PeriodStart(Records(data)[i]), Records(data)[i].rcePln.value);
    assert Records(data)[i] in Records(data);
  }

  class OptimalBuyThresholdSensor {
    const entry: ConfigEntry
    const keys: SettingKeys
    const defaults: Defaults
    /** The attributes of the last evaluation; none before the first. */
    var lastMeta: Option<SensorMeta>

    constructor(entry: ConfigEntry, keys: SettingKeys, defaults: Defaults)
      ensures this.entry == entry && this.keys == keys && this.defaults == defaults
      ensures lastMeta.None?
    {
      this.entry := entry;
      this.keys := keys;
      this.defaults := defaults;
      lastMeta := None;
    }

    /** native_value (before rounding): evaluates the optimizer and records
        its metadata; a failing setting raises before anything is recorded. */
    method NativeValue(states: map<string, EntityState>, data: Option<Snapshot>, now: int)
      returns (r: Result<Option<real>, SensorError>)
      modifies this
      ensures match Evaluate(entry, keys, defaults, states, data, now)
        case Failure(e) => r == Failure(e) && lastMeta == old(lastMeta)
        case Success(v) => r == Success(v.0) && lastMeta == Some(v.1)
    {
      var settings := SettingsOf(entry);
      var capacity := FloatSetting(settings, keys.batteryCapacity, defaults.batteryCapacity);
      var grid := FloatSetting(settings, keys.maxGridPower, defaults.maxGridPower);
      var charging := FloatSetting(settings, keys.maxChargingPower, defaults.maxChargingPower);
      var required := FloatSetting(settings, keys.requiredDailyEnergy, defaults.requiredDailyEnergy);
      if capacity.None? || grid.None? || charging.None? || required.None? {
        return Failure(SettingNotNumeric);
      }
      var pvForecastEntity := EntityIdSetting(settings, keys.pvForecastEntity);
      var consumptionEntity := EntityIdSetting(settings, keys.consumptionEntity);
      var socEntity := EntityIdSetting(settings, keys.socEntity);

      var socPct := ReadEntityFloat(states, socEntity, 0.0);
      var dailyConsumption := ReadEntityFloat(states, consumptionEntity, required.value);
      var pvForecast := ReadEntityFloat(states, pvForecastEntity, 0.0);
      var inputs := DeriveInputs(capacity.value, grid.value, charging.value, socPct, dailyConsumption, pvForecast);

      var priceSlots := GetPriceSlots(data, now);
      var threshold, meta := EO.CalculateOptimalBuyThreshold(
        priceSlots, inputs.energyToBuy, inputs.maxPerSlot, inputs.maxEnergyBeforePv, inputs.pvForecast,
        EO.DEFAULT_PV_START_HOUR, EO.DEFAULT_PV_END_HOUR);
      lastMeta := Some(SensorMeta(meta, inputs));
      return Success(threshold);
    }
  }
}
