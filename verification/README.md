# RCE PSE prices integration — a verified model of its core

This project is a Dafny model of the computational core of the RCE PSE Home Assistant integration. The integration fetches Polish day-ahead electricity prices (RCE, PLN/MWh, one record per 15-minute interval) from the PSE API and turns them into sensors. The model covers:

- **Data update coordinator.** The configuration lookup with options over data. The fetch policy: a 30-minute cache, and a fallback to the data already held when the API fails. The handling of the API response. The two record normalisations: hourly averaging and the `rce_pln_neg_to_zero` annotation.
- **Shared entity base.** Today's and tomorrow's slices of the records, the 14:00 gate on tomorrow's prices, and entity availability.
- **Sensor lookups.** The tomorrow record for a wall-clock time, the record in force now, the price some hours ahead, the price some hours back (with the closest-past-record fallback), and the min/max part of a data summary.
- **Binary-sensor time window.** Is now between two "HH:MM" times on a date.
- **Per-hour and per-quarter price sensors.** These exist for today and for tomorrow.
- **Optimal-buy-threshold sensor.** It reads settings and entity states and derives the optimizer inputs (energy to buy, pre-PV cap, per-slot energy). It collects the future price slots up to the end of tomorrow and records the optimizer metadata.
- **Greedy buy-threshold optimizer.** It partitions slots into excluded / pre-PV / post-PV by tomorrow's PV hours, stable-sorts them by price, and allocates energy cheapest first under a per-slot and a pre-PV cap. It reports the price of the last slot bought from.
- **96-slot bitmask encoder.** It expands per-input prices to quarter-hour slots and packs "price below threshold" (optionally inverted) into six 16-bit registers.

## How the model is built

- Modules: `Common` (shared types, time arithmetic, sequence helpers), `Coordinator`, `SharedBase`, `SensorBase`, `BinarySensorBase`, `HourlySensors`, `QuarterSensors`, `EnergyOptimizerSensor`, `EnergyOptimizer` and `PricePlan`. They follow the repository's files.
- Timestamps are integer seconds of naive local time. Dates are day numbers (`Day(t) = t / 86400`) and the hour and minute are derived from them. A record's interval is `[dtime − 15 min, dtime]`.
- A price record is a datatype whose parsed fields are `Option`s. `None` stands for a missing key or a text value that does not parse, the cases the source catches with `except (ValueError, KeyError)`. A JSON `null` in a parsed field is also read as `None`, although the source does not catch it (see "## Left out").
- Code that loops and accumulates is written as methods with loops:
  - the grouping and averaging loops and the annotation loop of the coordinator;
  - the slot-collection loop of the optimizer sensor;
  - the partition and greedy loops of the optimizer;
  - the expansion and register loops of the encoder (the registers are an `array<bv16>`);
  - the per-hour averaging loop;
  - the closest-past-record loop.
  
  Most of these methods are proved equal to a reference function, and the properties the source promises are proved about that function. `PackBits` and `BuildMask` are specified by the predicate `MaskOf`, `AddNegToZero` directly by its per-record result, and `NativeValue` by its new state.
- The coordinator and the optimizer sensor are classes. Their fields `lastApiFetch` and `sessionOpen` are updated by `AsyncUpdateData`, and `lastMeta` by `NativeValue`. The coordinator's `data` field is read by `AsyncUpdateData` but written only by the framework.
- The fetch is an abstract outcome: a response with a status and an optional "value" list, a client error, or a timeout. The clock reading `now`, the Home Assistant state map and the config entry are parameters.
- Errors that the source raises are results: `UpdateFailed` from `_fetch_data` / `_async_update_data`, a non-numeric setting in `native_value`, and an unparseable closest price in `get_price_at_past_hour`.

## Model

| member | source | states |
|---|---|---|
| Coordinator.GetConfigValue | custom_components/rce_prices/coordinator.py:33-42 | The result is the value of the merged settings in which options override data, or the default when the key is in neither or there is no entry. |
| Coordinator.ConfigPrecedence | custom_components/rce_prices/coordinator.py:37-42 | An options value wins. The data value is used only for keys missing from the options. Otherwise the default is used. |
| Coordinator.AddNegToZero | custom_components/rce_prices/coordinator.py:199-218 | Same length and order. Each record keeps its dtime, period, business date and price. A priced record gains max(0, price), which is never negative. A record whose price does not parse passes through unchanged. |
| Coordinator.GroupByHour | custom_components/rce_prices/coordinator.py:144-154 | The keys are the (date, hour of dtime − 15 min) groups in first-appearance order. Each group holds exactly the input records of that hour, in input order. Records whose dtime does not parse are in no group. |
| Coordinator.AverageGroup | custom_components/rce_prices/coordinator.py:162-192 | A group without a parseable price yields nothing. Otherwise every record of the group is copied with the mean price and the mean of max(0, p). |
| Coordinator.CalculateHourlyAverages | custom_components/rce_prices/coordinator.py:140-197 | The output is the reference `HourlyAverages`: the outputs of the groups, concatenated in key order. Empty input is returned as is. |
| Coordinator.GroupKeysExact | custom_components/rce_prices/coordinator.py:144-151 | The group keys are distinct. A key occurs exactly when some record with a parseable dtime falls in that hour. |
| Coordinator.HourlyRecordCarriesGroupMeans | custom_components/rce_prices/coordinator.py:171-188 | Every output record has a parseable dtime. Its group has at least one parseable price. Its price is the group's mean price and its non-negative price is the group's mean of max(0, p), which is never negative. |
| Coordinator.ClampedMeanNonNegative | custom_components/rce_prices/coordinator.py:176-177 | The mean of a non-empty list of prices clamped at zero is never negative. |
| Coordinator.HourlyAveragesKeepPricedGroups | custom_components/rce_prices/coordinator.py:158-189 | Every input record with a parseable dtime whose group has a parseable price is in the output with the group means, including records whose own price does not parse. |
| Coordinator.HourlyAveragesNoLonger | custom_components/rce_prices/coordinator.py:140-197 | Hourly averaging never produces more records than it is given. |
| Coordinator.FetchData | custom_components/rce_prices/coordinator.py:104-138 | A status other than 200 fails with that status. A response without "value" fails as an invalid format. A client error fails. Success happens exactly for status 200 with a "value" list. The snapshot then holds the records averaged per hour or annotated, as the hourly setting selects, plus the fetch time. |
| Coordinator.CachedDataServed | custom_components/rce_prices/coordinator.py:47-53 | With a previous fetch, data held and less than 30 minutes elapsed, the data held is returned, whatever the API would answer, and no field changes. |
| Coordinator.UpdateAttempt | custom_components/rce_prices/coordinator.py:57-80 | Without a fresh cache, every attempt opens the session and stamps the fetch time. A successful fetch is returned. A failed one falls back to the data held and raises only without data: a timeout as a timeout, anything else as a communication error. |
| Coordinator.NoRaiseWithData | custom_components/rce_prices/coordinator.py:67-80 | While data is held, an update never raises. |
| Coordinator.NoRefetchWithinInterval | custom_components/rce_prices/coordinator.py:47-68 | Once the framework stores what an attempt returned, every update in the next 30 minutes is served from the cache. |
| Coordinator.RcePseCoordinator.constructor | custom_components/rce_prices/coordinator.py:29-31 | A new coordinator has no data, no previous fetch and no session, and keeps its config entry. |
| Coordinator.RcePseCoordinator.AsyncUpdateData | custom_components/rce_prices/coordinator.py:44-80 | The outcome and the new fields are those of the reference `Update` on the old fields. |
| SharedBase.TodayDataExact | custom_components/rce_prices/shared_base.py:33-40 | Today's slice is a subsequence of the records: exactly those whose business date is today. It is empty without data. |
| SharedBase.TomorrowDataExact | custom_components/rce_prices/shared_base.py:42-51 | Tomorrow's slice is empty before 14:00. From 14:00 it is exactly the records whose business date is tomorrow. It is always a subsequence of the records. |
| SharedBase.TodayTomorrowDisjoint | custom_components/rce_prices/shared_base.py:36-51 | No record is in both slices. |
| SharedBase.TomorrowSensorAvailability | custom_components/rce_prices/shared_base.py:53-63 | A tomorrow hour or quarter sensor is unavailable before 14:00. From 14:00 it is available exactly when the last update succeeded and there is data with a "raw_data" list. |
| SensorBase.QuarterFloor | custom_components/rce_prices/sensors/base.py:27 | For a minute in 0..59, the result is the multiple of 15 at most the minute and within 15 below it. |
| SensorBase.TomorrowPriceAtTime | custom_components/rce_prices/sensors/base.py:21-39 | There is a result exactly when some tomorrow record's period starts at the target's hour and floored minute. The result is the first such record. |
| SensorBase.CurrentPriceData | custom_components/rce_prices/sensors/base.py:41-58 | There is a result exactly when some record's interval, both ends included, holds now. The result is the first such record in list order. |
| SensorBase.BoundaryEarlierRecordWins | custom_components/rce_prices/sensors/base.py:52-53 | At the boundary of two consecutive intervals the earlier record is returned. |
| SensorBase.PriceAtFutureHour | custom_components/rce_prices/sensors/base.py:60-77 | There is a price exactly when some record contains the target time and has a parseable price. It is the price of the first such record. |
| SensorBase.ClosestIsNearest | custom_components/rce_prices/sensors/base.py:94-98 | The chosen candidate ended before the target, no candidate ended closer, and every earlier candidate ended strictly further away. There is none exactly when no record ended before the target. |
| SensorBase.PriceAtPastHour | custom_components/rce_prices/sensors/base.py:79-102 | The result is the reference `PastHourPrice`. It is the price of the first record containing the target; failing that, the price of the closest record that ended before it; an error when that price does not parse; nothing without candidates. |
| SensorBase.DataSummary | custom_components/rce_prices/sensors/base.py:104-116 | No data gives the empty summary. Data without prices is an error, as the source raises one. Otherwise the summary has count = number of prices, min ≤ every price ≤ max, min and max among the prices, and range = max − min ≥ 0. |
| BinarySensorBase.IsCurrentTimeInWindow | custom_components/rce_prices/binary_sensors/base.py:22-35 | An empty start or end text gives false. An unparseable time or date gives false instead of raising. |
| BinarySensorBase.DefaultDateIsToday | custom_components/rce_prices/binary_sensors/base.py:26-27 | Without a date the window is taken on today's date. |
| BinarySensorBase.TodayWindowByTimeOfDay | custom_components/rce_prices/binary_sensors/base.py:28-33 | On today's date the window holds exactly when start ≤ time of day ≤ end, both bounds included. |
| BinarySensorBase.OvernightWindowNeverHolds | custom_components/rce_prices/binary_sensors/base.py:28-33 | A window whose end is before its start (across midnight) never holds. |
| BinarySensorBase.OtherDayNeverHolds | custom_components/rce_prices/binary_sensors/base.py:28-33 | A window with valid times on a date other than today never holds. |
| HourlySensors.AveragePriceInHour | custom_components/rce_prices/sensors/today_hourly.py:29-42 | There is no value exactly when no record has a parseable dtime and price in the hour. Otherwise the value is the mean of the collected prices. |
| HourlySensors.HourPricesExact | custom_components/rce_prices/sensors/today_hourly.py:29-37 | The collected prices are exactly the prices of the records whose interval starts in the hour and whose dtime and price parse. There are no more of them than records. |
| HourlySensors.HourPricesInOrder | custom_components/rce_prices/sensors/today_hourly.py:29-37 | The collected prices are, one per record and in record order, the prices of the records of the hour, repetitions included. So the mean weighs a price once for each record that carries it. |
| HourlySensors.HourAverageBetween | custom_components/rce_prices/sensors/today_hourly.py:42 | The hour's average lies between the smallest and the largest price averaged. |
| HourlySensors.TodayHourPrice | custom_components/rce_prices/sensors/today_hourly.py:24-42 | The value is the mean of today's prices in the hour, or none when there are none (the empty-slice check included). |
| HourlySensors.TomorrowHourPrice | custom_components/rce_prices/sensors/tomorrow_hourly.py:28-46 | The value is the mean of tomorrow's prices in the hour, or none when there are none. |
| HourlySensors.TodayHourPriceSources | custom_components/rce_prices/sensors/today_hourly.py:25-35 | A price is averaged exactly when it belongs to a record of today's business date in the hour. |
| HourlySensors.TomorrowHourPriceSources | custom_components/rce_prices/sensors/tomorrow_hourly.py:29-39 | From 14:00, a price is averaged exactly when it belongs to a record of tomorrow's business date in the hour. |
| HourlySensors.TomorrowHourPriceBeforeTwo | custom_components/rce_prices/sensors/tomorrow_hourly.py:29-31 | Before 14:00 tomorrow's hour value is always none. |
| QuarterSensors.QuarterPrice | custom_components/rce_prices/sensors/today_quarter.py:30-39 | There is no value exactly when no record starts at hour:minute with a parseable dtime and price. Otherwise the value is the price of the first such record. |
| QuarterSensors.TodayQuarterPrice | custom_components/rce_prices/sensors/today_quarter.py:25-39 | The value is the quarter search over today's slice; the empty-slice check changes nothing. |
| QuarterSensors.TomorrowQuarterPrice | custom_components/rce_prices/sensors/tomorrow_quarter.py:29-43 | The value is the quarter search over tomorrow's slice, and none before 14:00. |
| QuarterSensors.TodayQuarterPriceSource | custom_components/rce_prices/sensors/today_quarter.py:26-39 | There is a value exactly when some record of today's business date starts at hour:minute with a parseable price, and the value is the price of such a record. |
| QuarterSensors.TomorrowQuarterPriceSource | custom_components/rce_prices/sensors/tomorrow_quarter.py:30-43 | From 14:00, there is a value exactly when some record of tomorrow's business date starts at hour:minute with a parseable price, and the value is the price of such a record. |
| EnergyOptimizerSensor.ReadEntityFloat | custom_components/rce_prices/sensors/energy_optimizer_sensor.py:46-55 | A usable reading gives the entity's number. A usable reading is: a non-empty id, an existing state, not "unknown"/"unavailable", a numeric state. Anything else gives the fallback. |
| EnergyOptimizerSensor.DeriveInputsMeaning | custom_components/rce_prices/sensors/energy_optimizer_sensor.py:93-103 | Need + PV + battery energy = consumption. Battery energy = SoC% × capacity / 100. The pre-PV cap is 0 when PV covers the capacity, is capacity − PV otherwise, and lies in [0, capacity] for non-negative inputs. The per-slot energy is a quarter of the lower power limit. |
| EnergyOptimizerSensor.GetPriceSlots | custom_components/rce_prices/sensors/energy_optimizer_sensor.py:57-78 | The result is the reference `PriceSlots`, which is empty without data. |
| EnergyOptimizerSensor.PriceSlotsExact | custom_components/rce_prices/sensors/energy_optimizer_sensor.py:66-78 | The slots are exactly (start, price) of the records whose start lies between now and the end of tomorrow and whose dtime and price parse. Every slot starts in that horizon, and there are no more slots than records. |
| EnergyOptimizerSensor.PriceSlotsInOrder | custom_components/rce_prices/sensors/energy_optimizer_sensor.py:66-78 | The slots are, one per record and in record order, (start, price) of the priced records in the horizon, repetitions included. This order decides how the optimizer's stable sort breaks price ties. |
| EnergyOptimizerSensor.SettingsRaiseOrParse | custom_components/rce_prices/sensors/energy_optimizer_sensor.py:82-87 | The sensor raises exactly when one of the four numeric settings does not parse. |
| EnergyOptimizerSensor.FallbackReadings | custom_components/rce_prices/sensors/energy_optimizer_sensor.py:93-101 | With no usable entity the inputs are: SoC 0, PV 0, battery energy 0, consumption = the required daily energy setting, need = consumption, and pre-PV cap = max(0, capacity). |
| EnergyOptimizerSensor.ThresholdIsHorizonPrice | custom_components/rce_prices/sensors/energy_optimizer_sensor.py:105-135 | A reported threshold comes with status "ok" and the same threshold in the attributes. It is the price of a record that starts between now and the end of tomorrow. |
| EnergyOptimizerSensor.OptimalBuyThresholdSensor.constructor | custom_components/rce_prices/sensors/energy_optimizer_sensor.py:37-44 | A new sensor keeps its entry and has no metadata yet. |
| EnergyOptimizerSensor.OptimalBuyThresholdSensor.NativeValue | custom_components/rce_prices/sensors/energy_optimizer_sensor.py:80-135 | The value is the reference `Evaluate` threshold and the metadata and inputs are recorded. A failing setting raises and leaves the metadata as it was. |
| EnergyOptimizer.TomorrowDate | custom_components/rce_prices/energy_optimizer.py:53-56 | "Tomorrow" exists exactly when the slots span at least two dates. It is then the latest date among them. |
| EnergyOptimizer.Partition | custom_components/rce_prices/energy_optimizer.py:58-70 | The pre-PV and post-PV lists are the slots of each pool, in input order. |
| EnergyOptimizer.SingleDateAllPrePv | custom_components/rce_prices/energy_optimizer.py:56-70 | With a single date every slot is pre-PV and none is post-PV. |
| EnergyOptimizer.SortByPrice | custom_components/rce_prices/energy_optimizer.py:72 | The result is a permutation of the input, sorted by price. |
| EnergyOptimizer.SortIsStable | custom_components/rce_prices/energy_optimizer.py:72 | For each price, the slots with that price keep their original relative order. |
| EnergyOptimizer.Allocate | custom_components/rce_prices/energy_optimizer.py:84-107 | The loop's final remaining energy, pre-PV total, slot count and last price are those of the reference run `Run`. |
| EnergyOptimizer.AllocationAccounting | custom_components/rce_prices/energy_optimizer.py:89-106 | Each slot's amount is 0 or in (0, max per slot]. Need = remaining + sum of amounts. Remaining ≥ 0. The pre-PV amounts total at most max(0, pre-PV cap). The slot count counts the slots bought from. |
| EnergyOptimizer.AllocationThreshold | custom_components/rce_prices/energy_optimizer.py:89-109 | There is no threshold exactly when nothing was bought. Otherwise it is the price of the last slot bought from and, over price-sorted slots, at least every price paid. |
| EnergyOptimizer.AllocationUncapped | custom_components/rce_prices/energy_optimizer.py:89-107 | With a positive per-slot limit and a pre-PV cap covering the need, the slots bought from are a prefix of the sorted list, and either the need is met or every slot is used. |
| EnergyOptimizer.PrePvByTimestamp | custom_components/rce_prices/energy_optimizer.py:83-93 | A slot of either pool is marked pre-PV by its start exactly when it is in the pre-PV pool. |
| EnergyOptimizer.EligibleSlotsExact | custom_components/rce_prices/energy_optimizer.py:58-72 | The eligible slots are sorted by price. They number |pre-PV| + |post-PV|. They are exactly the slots outside tomorrow's PV hours. |
| EnergyOptimizer.EligiblePrePvMarking | custom_components/rce_prices/energy_optimizer.py:83-93 | An eligible slot is treated as pre-PV exactly when it belongs to the pre-PV pool (membership by start time). |
| EnergyOptimizer.OptimalBuyThresholdStatus | custom_components/rce_prices/energy_optimizer.py:35-118 | The status is no_purchase_needed iff need ≤ 0; insufficient_data iff need > 0 with no slots; window_too_small iff every slot is in tomorrow's PV hours; ok otherwise. On early exits there is no threshold and 0 eligible and 0 allocated slots. The metadata threshold equals the returned one, and allocated ≤ eligible. |
| EnergyOptimizer.NoEligibleIffAllExcluded | custom_components/rce_prices/energy_optimizer.py:61-75 | No slot is eligible exactly when every slot is excluded: it starts tomorrow within the PV hours and the PV forecast is positive. |
| EnergyOptimizer.OptimalBuyThresholdAllocation | custom_components/rce_prices/energy_optimizer.py:83-118 | With status ok, the per-slot amounts are each within the per-slot limit; they add up with the reported remaining energy to the need; the pre-PV amounts stay within the cap; the count matches the slots bought from; the threshold is none iff nothing was bought, and otherwise is a paid price that is at least every price paid; the prefix shape holds when the cap does not bind. |
| EnergyOptimizer.SingleDateNoExclusion | custom_components/rce_prices/energy_optimizer.py:53-72 | With a single date nothing is excluded: the eligible slots are a permutation of all slots, and all are pre-PV. |
| EnergyOptimizer.CalculateOptimalBuyThreshold | custom_components/rce_prices/energy_optimizer.py:6-118 | The threshold and metadata are those of the reference `OptimalBuyThreshold`. |
| PricePlan.BitsPerInput | custom_components/rce_prices/price_plan.py:28 | Every input covers at least one slot, and slot_minutes / 15 slots from 15 minutes up. |
| PricePlan.ExpandPrices | custom_components/rce_prices/price_plan.py:30-36 | The expansion is the reference `Expanded`: every price repeated, zero-padded or truncated to 96 slots. |
| PricePlan.ExpandedAt | custom_components/rce_prices/price_plan.py:28-36 | Copy j of input price k sits in slot n·k + j. |
| PricePlan.ExpandedPadding | custom_components/rce_prices/price_plan.py:34-36 | Slots past the copies of the inputs hold 0.0. |
| PricePlan.HourlyPricesCoverFourSlots | custom_components/rce_prices/price_plan.py:28-32 | With 24 hourly prices, price h fills slots 4h..4h+3. |
| PricePlan.PackBits | custom_components/rce_prices/price_plan.py:38-44 | Six registers. Bit i % 16 of register i / 16 is set exactly when slot i's price is below the threshold, inverted by flip. |
| PricePlan.BuildMask | custom_components/rce_prices/price_plan.py:4-46 | The registers encode the expanded prices bit by bit as above. |
| PricePlan.MaskUnique | custom_components/rce_prices/price_plan.py:38-46 | The registers are determined by the slot prices, threshold and flip. |
| PricePlan.FlipComplements | custom_components/rce_prices/price_plan.py:40-44 | Flipping turns every register into 65535 minus its unflipped value. |
| PricePlan.ThresholdPriceBit | custom_components/rce_prices/price_plan.py:40 | A slot priced exactly at the threshold gets bit 0, or 1 when flipped. |
| PricePlan.PaddingBits | custom_components/rce_prices/price_plan.py:34-44 | Padding slots (price 0.0) get bit 1 under a positive threshold, or 0 when flipped. |

## Left out

- Rounding and text formatting (`round(x, 2)`, `round(x, 3)`, `"%.2f"`) are not modelled: prices and energies are exact reals.
- HourlySensors.TodayHourPrice: states the mean before rounding to 2 decimals.
- HourlySensors.TomorrowHourPrice: states the mean before rounding to 2 decimals.
- QuarterSensors.TodayQuarterPrice: states the price before rounding to 2 decimals.
- QuarterSensors.TomorrowQuarterPrice: states the price before rounding to 2 decimals.
- EnergyOptimizerSensor.OptimalBuyThresholdSensor.NativeValue: states the threshold before rounding to 2 decimals and keeps the metadata inputs unrounded.
- Coordinator.CalculateHourlyAverages: stores the two means as numbers, not as 2-decimal strings.
- Coordinator.AddNegToZero: stores max(0, price) as a number, not as a 2-decimal string.
- EnergyOptimizer.CalculateOptimalBuyThreshold: reports the need and the remaining energy unrounded.
- SensorBase.DataSummary: price extraction, the average and the median come from `price_calculator.py`, which is not part of this model. The prices are a parameter and only count, min, max and range are stated.
- HTTP and async plumbing are out of scope: the aiohttp session object, the GET request, the 30-second timeout and `async_close`. A request is one of three abstract outcomes, and `sessionOpen` records that a session was created.
- The framework's own storage of the returned data and of `last_update_success` is left out; `NoRefetchWithinInterval` states what follows once it stores the result.
- The clock is a parameter `now` in whole seconds. The sub-second part of the source's clock is dropped, so the inclusive interval bounds and `SensorBase.BoundaryEarlierRecordWins` describe only whole-second instants.
- The snapshot's `last_update` and the fetch stamp are taken as the same instant.
- Time zones and `isoformat` strings are left out: all times are naive local seconds.
- Strings are pre-parsed: `strptime`/`strftime`, "YYYY-MM-DD" and "HH:MM" texts, and the "period" text appear as parsed `Option` fields.
- A JSON `null` in a parsed field raises an uncaught `TypeError` or `AttributeError` in the source: `strptime` on a null `dtime`, `split` on a null `period`, `float()` on a null price. The model reads such a field as `None`, like a text that does not parse, and so does not capture these raises. Per path:
  - Coordinator, hourly mode: a null `dtime` is skipped by `Coordinator.GroupByHour`. A null price keeps its record in its hour group, and `Coordinator.CalculateHourlyAverages` emits it with the group's means. The source instead fails the whole fetch.
  - Coordinator, 15-minute mode: a null price passes through `Coordinator.AddNegToZero` unchanged. The source instead fails the whole fetch.
  - In both modes the failed fetch then falls back to the data already held, or raises `UpdateFailed` when there is none (coordinator.py:74-80). The model reports a successful fetch.
  - Sensors: a null `dtime`, `period` or price makes the source's property raise. The model skips the record or reports no value, as it does for a text that does not parse.
- `str(...).strip()` of entity ids is left out. A non-text setting under an entity key is read as "no entity".
- Dictionary insertion order of the hourly groups is represented by the key sequence in first-appearance order.
- The optimizer sensor's configuration keys and numeric defaults are parameters, because `const.py` does not define them. The PV hours are the optimizer's defaults 7 and 19, because `const.py` does not define `PV_START_HOUR`/`PV_END_HOUR` either.
- Logging is left out.
- The window search, extreme-price runs and statistics of `price_calculator.py` are not modelled. Nor are the sensors built only on them: custom windows, today/tomorrow hours and stats, price windows, and today's prices.
- The configuration UI and entity registration are not modelled.
