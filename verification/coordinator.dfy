/** The data update coordinator: configuration lookup, the fetch policy with
    its 30-minute cache and fallback to the data already held, the handling
    of the PSE API response, and the two record normalisations (hourly
    averaging and the non-negative price annotation). */
module Coordinator {
  import opened Common

  /** Minimum time between two API fetches: 30 minutes. */
  const API_UPDATE_INTERVAL: int := 1800
  const CONF_USE_HOURLY_PRICES: string := "use_hourly_prices"
  const DEFAULT_USE_HOURLY_PRICES: Setting := Flag(false)

  // ---------------------------------------------------------------------
  // Configuration lookup.

  /** The settings as one map in which "options" override "data". */
  function Effective(entry: ConfigEntry): map<string, Setting>
  {
    entry.data + entry.options
  }

  /** _get_config_value: the options value, else the data value, else the
      default; the default too when there is no config entry. */
  function GetConfigValue(entry: Option<ConfigEntry>, key: string, default: Setting): (r: Setting)
    ensures r == if entry.Some? && key in Effective(entry.value) then Effective(entry.value)[key] else default
  {
    if entry.None? then default
    else if |entry.value.options| > 0 && key in entry.value.options then entry.value.options[key]
    else if |entry.value.data| > 0 && key in entry.value.data then entry.value.data[key]
    else default
  }

  /** Options take precedence; data is consulted only for keys options lack. */
  lemma ConfigPrecedence(entry: ConfigEntry, key: string, default: Setting)
    ensures key in entry.options ==> GetConfigValue(Some(entry), key, default) == entry.options[key]
    ensures key !in entry.options && key in entry.data ==> GetConfigValue(Some(entry), key, default) == entry.data[key]
    ensures key !in entry.options && key !in entry.data ==> GetConfigValue(Some(entry), key, default) == default
  {
  }

  // ---------------------------------------------------------------------
  // Non-negative price annotation.

  /** A record with "rce_pln_neg_to_zero" added, or unchanged when its price
      does not parse. */
  function Annotated(r: PriceRecord): PriceRecord
  {
    if r.rcePln.Some? then r.(negToZero := Some(Max0(r.rcePln.value))) else r
  }

  /** _add_neg_to_zero_key: one output record per input record, in order;
      the price is kept and max(0, price) is added beside it; a record whose
      price does not parse passes through unchanged. */
  method AddNegToZero(raw: seq<PriceRecord>) returns (processed: seq<PriceRecord>)
    ensures |processed| == |raw|
    ensures forall i :: 0 <= i < |raw| ==>
      && processed[i].dtime == raw[i].dtime
      && processed[i].period == raw[i].period
      && processed[i].businessDate == raw[i].businessDate
      && processed[i].rcePln == raw[i].rcePln
    ensures forall i :: 0 <= i < |raw| && raw[i].rcePln.None? ==> processed[i] == raw[i]
    ensures forall i :: 0 <= i < |raw| && raw[i].rcePln.Some? ==>
      processed[i].negToZero == Some(Max0(raw[i].rcePln.value)) && processed[i].negToZero.value >= 0.0
  {
    if raw == [] {
      return raw;
    }
    processed := [];
    for i := 0 to |raw|
      invariant |processed| == i
      invariant forall k :: 0 <= k < i ==> processed[k] == Annotated(raw[k])
    {
      var record := raw[i];
      if record.rcePln.Some? {
        var price := record.rcePln.value;
        var negToZeroPrice := if price > 0.0 then price else 0.0;
        processed := processed + [record.(negToZero := Some(negToZeroPrice))];
      } else {
        processed := processed + [record];
      }
    }
  }

  // ---------------------------------------------------------------------
  // Hourly averaging.

  /** A group key: the date and the hour of a record's period start. */
  datatype HourKey = HourKey(day: int, hour: int)

  function KeyOf(r: PriceRecord): HourKey
    requires r.dtime.Some?
  {
    var start := PeriodStart(r);
    HourKey(Day(start), Hour(start))
  }

  predicate InGroup(r: PriceRecord, key: HourKey)
  {
    r.dtime.Some? && KeyOf(r) == key
  }

  function InGroupOf(key: HourKey): PriceRecord -> bool
  {
    (r: PriceRecord) => InGroup(r, key)
  }

  /** The records of one group, in input order. */
  function Group(raw: seq<PriceRecord>, key: HourKey): seq<PriceRecord>
  {
    Filter(raw, InGroupOf(key))
  }

  /** The group keys in order of first appearance (a dict's insertion order). */
  function GroupKeys(raw: seq<PriceRecord>): seq<HourKey>
  {
    if raw == [] then []
    else
      var keys := GroupKeys(raw[..|raw| - 1]);
      var last := raw[|raw| - 1];
      if last.dtime.Some? && KeyOf(last) !in keys then keys + [KeyOf(last)] else keys
  }

  /** The prices of the records whose price parses, in order. */
  function Prices(records: seq<PriceRecord>): seq<real>
  {
    if records == [] then []
    else
      var last := records[|records| - 1];
      Prices(records[..|records| - 1]) + (if last.rcePln.Some? then [last.rcePln.value] else [])
  }

  /** `[max(0, p) for p in prices]` */
  function ClampAll(prices: seq<real>): (r: seq<real>)
    ensures |r| == |prices| && forall k :: 0 <= k < |prices| ==> r[k] == Max0(prices[k])
  {
    seq(|prices|, k requires 0 <= k < |prices| => Max0(prices[k]))
  }

  function WithAverages(r: PriceRecord, average: real, averageNegToZero: real): PriceRecord
  {
    r.(rcePln := Some(average), negToZero := Some(averageNegToZero))
  }

  function AllWithAverages(records: seq<PriceRecord>, average: real, averageNegToZero: real): (r: seq<PriceRecord>)
    ensures |r| == |records| && forall k :: 0 <= k < |records| ==> r[k] == WithAverages(records[k], average, averageNegToZero)
  {
    seq(|records|, k requires 0 <= k < |records| => WithAverages(records[k], average, averageNegToZero))
  }

  /** What one group contributes: nothing when no price parses, otherwise
      every record of the group carrying the two group means. */
  function GroupOutput(records: seq<PriceRecord>): seq<PriceRecord>
  {
    var prices := Prices(records);
    if prices == [] then []
    else AllWithAverages(records, Mean(prices), Mean(ClampAll(prices)))
  }

  /** What the group of `key` contributes to the output. */
  function OutputOf(raw: seq<PriceRecord>): HourKey -> seq<PriceRecord>
  {
    (key: HourKey) => GroupOutput(Group(raw, key))
  }

  function Assemble(raw: seq<PriceRecord>, keys: seq<HourKey>): seq<PriceRecord>
  {
    ConcatMap(keys, OutputOf(raw))
  }

  /** Reference definition of _calculate_hourly_averages. */
  function HourlyAverages(raw: seq<PriceRecord>): seq<PriceRecord>
  {
    Assemble(raw, GroupKeys(raw))
  }

  /** `groups` and `keys` describe the first `i` records. */
  ghost predicate GroupedUpTo(raw: seq<PriceRecord>, i: nat, groups: map<HourKey, seq<PriceRecord>>, keys: seq<HourKey>)
    requires i <= |raw|
  {
    && keys == GroupKeys(raw[..i])
    && (forall k :: k in groups <==> k in keys)
    && (forall k :: k in groups ==> groups[k] == Group(raw[..i], k))
    && (forall k :: k !in groups ==> Group(raw[..i], k) == [])
  }

  /** The groups after adding a record with a parseable dtime. */
  ghost function AddToGroup(groups: map<HourKey, seq<PriceRecord>>, key: HourKey, r: PriceRecord): map<HourKey, seq<PriceRecord>>
  {
    groups[key := (if key in groups then groups[key] else []) + [r]]
  }

  ghost function AddKey(keys: seq<HourKey>, key: HourKey): seq<HourKey>
  {
    if key in keys then keys else keys + [key]
  }

  /** A record without a parseable dtime changes nothing. */
  lemma SkipStep(raw: seq<PriceRecord>, i: nat, groups: map<HourKey, seq<PriceRecord>>, keys: seq<HourKey>)
    requires i < |raw| && GroupedUpTo(raw, i, groups, keys) && raw[i].dtime.None?
    ensures GroupedUpTo(raw, i + 1, groups, keys)
  {
    assert raw[..i + 1] == raw[..i] + [raw[i]];
    assert raw[..i + 1][..i] == raw[..i];
  }

  /** A record with a parseable dtime joins its group, created when new. */
  lemma GroupStep(raw: seq<PriceRecord>, i: nat, groups: map<HourKey, seq<PriceRecord>>, keys: seq<HourKey>)
    requires i < |raw| && GroupedUpTo(raw, i, groups, keys) && raw[i].dtime.Some?
    ensures GroupedUpTo(raw, i + 1, AddToGroup(groups, KeyOf(raw[i]), raw[i]), AddKey(keys, KeyOf(raw[i])))
  {
    var record := raw[i];
    assert raw[..i + 1][..i] == raw[..i];
    assert raw[..i + 1][i] == record;
    forall k
      ensures Group(raw[..i + 1], k) == Group(raw[..i], k) + (if InGroup(record, k) then [record] else [])
    {
    }
  }

  /** The grouping pass of _calculate_hourly_averages: the records with a
      parseable dtime, grouped by the date and hour of their period start;
      the keys in order of first appearance. */
  method GroupByHour(raw: seq<PriceRecord>) returns (groups: map<HourKey, seq<PriceRecord>>, keys: seq<HourKey>)
    ensures keys == GroupKeys(raw)
    ensures forall k :: k in groups <==> k in keys
    ensures forall k :: k in groups ==> groups[k] == Group(raw, k)
  {
    groups := map[];
    keys := [];
    for i := 0 to |raw|
      invariant GroupedUpTo(raw, i, groups, keys)
    {
      var record := raw[i];
      if record.dtime.Some? {
        var periodStart := record.dtime.value - QUARTER;
        var key := HourKey(Day(periodStart), Hour(periodStart));
        GroupStep(raw, i, groups, keys);
        groups := groups[key := (if key in groups then groups[key] else []) + [record]];
        if key !in keys {
          keys := keys + [key];
        }
      } else {
        SkipStep(raw, i, groups, keys);
      }
    }
    assert raw[..|raw|] == raw;
  }

  /** The output pass for one group: its parseable prices are averaged, and
      so are their non-negative versions; every record of the group is
      emitted with both means, or none when no price parses. */
  method AverageGroup(records: seq<PriceRecord>) returns (out: seq<PriceRecord>)
    ensures out == GroupOutput(records)
  {
    var prices: seq<real> := [];
    for m := 0 to |records|
      invariant prices == Prices(records[..m])
    {
      assert records[..m + 1][..m] == records[..m];
      if records[m].rcePln.Some? {
        prices := prices + [records[m].rcePln.value];
      }
    }
    assert records[..|records|] == records;
    out := [];
    if prices == [] {
      return;
    }
    var averagePrice := Sum(prices) / (|prices| as real);
    var pricesNegToZero := ClampAll(prices);
    var averagePriceNegToZero := Sum(pricesNegToZero) / (|pricesNegToZero| as real);
    for m := 0 to |records|
      invariant out == AllWithAverages(records[..m], averagePrice, averagePriceNegToZero)
    {
      out := out + [WithAverages(records[m], averagePrice, averagePriceNegToZero)];
    }
    assert records[..|records|] == records;
  }

  /** _calculate_hourly_averages: groups the records by the date and hour of
      their period start, then emits each group's records, group by group,
      with the group's mean price and mean non-negative price. */
  method CalculateHourlyAverages(raw: seq<PriceRecord>) returns (processed: seq<PriceRecord>)
    ensures processed == HourlyAverages(raw)
  {
    if raw == [] {
      return raw;
    }
    var groups, keys := GroupByHour(raw);
    processed := [];
    for j := 0 to |keys|
      invariant processed == Assemble(raw, keys[..j])
    {
      assert keys[..j + 1][..j] == keys[..j];
      assert Assemble(raw, keys[..j + 1]) == Assemble(raw, keys[..j]) + OutputOf(raw)(keys[j]);
      assert keys[j] in keys;
      var out := AverageGroup(groups[keys[j]]);
      processed := processed + out;
    }
    assert keys[..|keys|] == keys;
  }

  // Properties of hourly averaging.

  ghost predicate Distinct<T>(s: seq<T>)
  {
    forall i, j :: 0 <= i < j < |s| ==> s[i] != s[j]
  }

  lemma {:induction false} GroupKeysExact(raw: seq<PriceRecord>)
    ensures Distinct(GroupKeys(raw))
    ensures forall k :: k in GroupKeys(raw) <==> exists i :: 0 <= i < |raw| && InGroup(raw[i], k)
  {
    if raw != [] {
      var init := raw[..|raw| - 1];
      GroupKeysExact(init);
      forall k
        ensures k in GroupKeys(raw) <==> exists i :: 0 <= i < |raw| && InGroup(raw[i], k)
      {
        if k in GroupKeys(raw) && k in GroupKeys(init) {
          var i :| 0 <= i < |init| && InGroup(init[i], k);
          assert raw[i] == init[i];
        }
        if exists i :: 0 <= i < |raw| && InGroup(raw[i], k) {
          var i :| 0 <= i < |raw| && InGroup(raw[i], k);
          if i < |init| {
            assert init[i] == raw[i];
          }
        }
      }
    }
  }

  /** A member of a group belongs to the input and to that hour. */
  lemma GroupMember(raw: seq<PriceRecord>, key: HourKey, x: PriceRecord)
    requires x in Group(raw, key)
    ensures x in raw && InGroup(x, key)
  {
    FilterProperties(raw, InGroupOf(key));
  }

  /** Every output record has a parseable dtime, and carries the mean price
      and the mean non-negative price of its (date, hour) group, a group with
      at least one parseable price; the second mean is never negative. */
  lemma HourlyRecordCarriesGroupMeans(raw: seq<PriceRecord>, r: PriceRecord)
    requires r in HourlyAverages(raw)
    ensures r.dtime.Some?
    ensures var prices := Prices(Group(raw, KeyOf(r)));
      prices != []
      && r.rcePln == Some(Mean(prices))
      && r.negToZero == Some(Mean(ClampAll(prices)))
      && Mean(ClampAll(prices)) >= 0.0
  {
    var keys := GroupKeys(raw);
    var j := ConcatMapSource(keys, OutputOf(raw), r);
    var g := Group(raw, keys[j]);
    var prices := Prices(g);
    var out := GroupOutput(g);
    assert r in out;
    assert prices != [];
    var k :| 0 <= k < |out| && out[k] == r;
    assert out[k] == WithAverages(g[k], Mean(prices), Mean(ClampAll(prices)));
    GroupMember(raw, keys[j], g[k]);
    ClampedMeanNonNegative(prices);
  }

  /** The mean of prices clamped at zero is never negative. */
  lemma ClampedMeanNonNegative(prices: seq<real>)
    requires prices != []
    ensures Mean(ClampAll(prices)) >= 0.0
  {
    SumNonNegative(ClampAll(prices));
  }

  /** Every record with a parseable dtime whose group has a parseable price
      appears in the output with the group means, including records whose
      own price does not parse. */
  lemma HourlyAveragesKeepPricedGroups(raw: seq<PriceRecord>, x: PriceRecord)
    requires x in raw && x.dtime.Some?
    requires Prices(Group(raw, KeyOf(x))) != []
    ensures var prices := Prices(Group(raw, KeyOf(x)));
      WithAverages(x, Mean(prices), Mean(ClampAll(prices))) in HourlyAverages(raw)
  {
    var key := KeyOf(x);
    var g := Group(raw, key);
    var prices := Prices(g);
    var keys := GroupKeys(raw);
    GroupKeysExact(raw);
    var i :| 0 <= i < |raw| && raw[i] == x;
    assert InGroup(raw[i], key);
    assert key in keys;
    var j :| 0 <= j < |keys| && keys[j] == key;
    FilterProperties(raw, InGroupOf(key));
    assert x in g;
    var k :| 0 <= k < |g| && g[k] == x;
    var y := WithAverages(x, Mean(prices), Mean(ClampAll(prices)));
    assert GroupOutput(g)[k] == y;
    assert y in OutputOf(raw)(keys[j]);
    ConcatMapHas(keys, OutputOf(raw), j, y);
  }

  /** Total size of the groups of `keys`. */
  function GroupSizes(raw: seq<PriceRecord>, keys: seq<HourKey>): nat
  {
    if keys == [] then 0 else GroupSizes(raw, keys[..|keys| - 1]) + |Group(raw, keys[|keys| - 1])|
  }

  function CountKeysOf(keys: seq<HourKey>, x: PriceRecord): nat
  {
    if keys == [] then 0 else CountKeysOf(keys[..|keys| - 1], x) + (if InGroup(x, keys[|keys| - 1]) then 1 else 0)
  }

  lemma {:induction false} GroupSizesAppend(init: seq<PriceRecord>, x: PriceRecord, keys: seq<HourKey>)
    ensures GroupSizes(init + [x], keys) == GroupSizes(init, keys) + CountKeysOf(keys, x)
  {
    if keys != [] {
      GroupSizesAppend(init, x, keys[..|keys| - 1]);
      assert (init + [x])[..|init|] == init;
    }
  }

  lemma {:induction false} CountKeysOfDistinct(keys: seq<HourKey>, x: PriceRecord)
    requires Distinct(keys)
    ensures CountKeysOf(keys, x) <= 1
    ensures CountKeysOf(keys, x) == 1 ==> x.dtime.Some? && KeyOf(x) in keys
  {
    if keys != [] {
      var init := keys[..|keys| - 1];
      CountKeysOfDistinct(init, x);
    }
  }

  lemma {:induction false} GroupSizesBound(raw: seq<PriceRecord>, keys: seq<HourKey>)
    requires Distinct(keys)
    ensures GroupSizes(raw, keys) <= |raw|
  {
    if raw != [] {
      var init := raw[..|raw| - 1];
      GroupSizesBound(init, keys);
      assert init + [raw[|raw| - 1]] == raw;
      GroupSizesAppend(init, raw[|raw| - 1], keys);
      CountKeysOfDistinct(keys, raw[|raw| - 1]);
    } else if keys != [] {
      GroupSizesEmpty(keys);
    }
  }

  lemma {:induction false} GroupSizesEmpty(keys: seq<HourKey>)
    ensures GroupSizes([], keys) == 0
  {
    if keys != [] {
      GroupSizesEmpty(keys[..|keys| - 1]);
    }
  }

  lemma {:induction false} AssembleBound(raw: seq<PriceRecord>, keys: seq<HourKey>)
    ensures |Assemble(raw, keys)| <= GroupSizes(raw, keys)
  {
    if keys != [] {
      AssembleBound(raw, keys[..|keys| - 1]);
      assert |OutputOf(raw)(keys[|keys| - 1])| <= |Group(raw, keys[|keys| - 1])|;
    }
  }

  /** Hourly averaging never produces more records than it is given. */
  lemma HourlyAveragesNoLonger(raw: seq<PriceRecord>)
    ensures |HourlyAverages(raw)| <= |raw|
  {
    GroupKeysExact(raw);
    AssembleBound(raw, GroupKeys(raw));
    GroupSizesBound(raw, GroupKeys(raw));
  }

  // ---------------------------------------------------------------------
  // The API response.

  /** The parts of the API response that matter: its status and its
      "value" field, absent when the JSON lacks it. */
  datatype ApiResponse = ApiResponse(status: int, value: Option<seq<PriceRecord>>)

  /** What the HTTP request yields. */
  datatype HttpOutcome = Responded(response: ApiResponse) | ClientFailed | TimedOut

  /** Why _fetch_data raised UpdateFailed. */
  datatype FetchFailure = BadStatus(status: int) | InvalidFormat | ClientError

  /** The processing that the hourly-prices setting selects. */
  function ProcessRecords(entry: Option<ConfigEntry>, raw: seq<PriceRecord>): seq<PriceRecord>
  {
    if Truthy(GetConfigValue(entry, CONF_USE_HOURLY_PRICES, DEFAULT_USE_HOURLY_PRICES))
    then HourlyAverages(raw)
    else seq(|raw|, i requires 0 <= i < |raw| => Annotated(raw[i]))
  }

  /** _fetch_data once the request has returned (or failed at the client):
      a status other than 200 or a missing "value" field is a failure;
      otherwise the records are processed as the setting selects and stamped
      with the time. */
  function FetchData(entry: Option<ConfigEntry>, http: HttpOutcome, now: int): (r: Result<Snapshot, FetchFailure>)
    requires !http.TimedOut?
    ensures http.ClientFailed? ==> r == Failure(ClientError)
    ensures http.Responded? && http.response.status != 200 ==> r == Failure(BadStatus(http.response.status))
    ensures http.Responded? && http.response.status == 200 && http.response.value.None? ==> r == Failure(InvalidFormat)
    ensures r.Success? <==> http.Responded? && http.response.status == 200 && http.response.value.Some?
    ensures r.Success? ==> r.value == Snapshot(Some(ProcessRecords(entry, http.response.value.value)), Some(now))
  {
    match http
    case ClientFailed => Failure(ClientError)
    case Responded(response) =>
      if response.status != 200 then Failure(BadStatus(response.status))
      else if response.value.None? then Failure(InvalidFormat)
      else Success(Snapshot(Some(ProcessRecords(entry, response.value.value)), Some(now)))
  }

  // ---------------------------------------------------------------------
  // The fetch policy.

  /** The UpdateFailed raised by _async_update_data. */
  datatype UpdateError = TimeoutCommunicating | ErrorCommunicating

  /** What _async_update_data hands to the framework. */
  datatype UpdateOutcome = Returned(snapshot: Snapshot) | Raised(error: UpdateError)

  /** The coordinator's fields as one value. */
  datatype CoordinatorState = CoordinatorState(data: Option<Snapshot>, lastApiFetch: Option<int>, sessionOpen: bool)

  /** The cache is used: a fetch happened, there is data, and the last fetch
      is less than 30 minutes old. */
  predicate CacheFresh(st: CoordinatorState, now: int)
  {
    st.lastApiFetch.Some? && st.data.Some? && now - st.lastApiFetch.value < API_UPDATE_INTERVAL
  }

  /** Reference definition of _async_update_data: the outcome and the state
      after it. */
  function Update(st: CoordinatorState, entry: Option<ConfigEntry>, now: int, http: HttpOutcome): (UpdateOutcome, CoordinatorState)
  {
    if CacheFresh(st, now) then (Returned(st.data.value), st)
    else
      var after := CoordinatorState(st.data, Some(now), true);
      var fetched := if http.TimedOut? then Failure(ClientError) else FetchData(entry, http, now);
      if !http.TimedOut? && fetched.Success? then (Returned(fetched.value), after)
      else if st.data.Some? then (Returned(st.data.value), after)
      else (Raised(if http.TimedOut? then TimeoutCommunicating else ErrorCommunicating), after)
  }

  /** A fresh cache is returned as it is, whatever the API would say, and
      nothing changes. */
  lemma CachedDataServed(st: CoordinatorState, entry: Option<ConfigEntry>, now: int, http: HttpOutcome)
    requires CacheFresh(st, now)
    ensures Update(st, entry, now, http) == (Returned(st.data.value), st)
  {
  }

  /** Without a fresh cache every update attempt stamps the time and opens
      the session; a successful fetch is returned; a failed one falls back
      to the data held, and raises only when there is none: a timeout as a
      timeout, anything else as a communication error. */
  lemma UpdateAttempt(st: CoordinatorState, entry: Option<ConfigEntry>, now: int, http: HttpOutcome)
    requires !CacheFresh(st, now)
    ensures var (outcome, after) := Update(st, entry, now, http);
      && after == CoordinatorState(st.data, Some(now), true)
      && (!http.TimedOut? && FetchData(entry, http, now).Success? ==> outcome == Returned(FetchData(entry, http, now).value))
      && (http.TimedOut? || FetchData(entry, http, now).Failure? ==>
            (st.data.Some? ==> outcome == Returned(st.data.value))
            && (st.data.None? ==> outcome == Raised(if http.TimedOut? then TimeoutCommunicating else ErrorCommunicating)))
  {
  }

  /** An update never raises while there is data to fall back on. */
  lemma NoRaiseWithData(st: CoordinatorState, entry: Option<ConfigEntry>, now: int, http: HttpOutcome)
    requires st.data.Some?
    ensures Update(st, entry, now, http).0.Returned?
  {
  }

  /** Rate limit: once the framework stores what an update attempt
      returned, the API is not asked again for the next 30 minutes. */
  lemma NoRefetchWithinInterval(st: CoordinatorState, entry: Option<ConfigEntry>, now: int, http: HttpOutcome, later: int)
    requires !CacheFresh(st, now)
    requires now <= later < now + API_UPDATE_INTERVAL
    requires Update(st, entry, now, http).0.Returned?
    ensures var (outcome, after) := Update(st, entry, now, http);
      CacheFresh(after.(data := Some(outcome.snapshot)), later)
  {
  }

  class RcePseCoordinator {
    var data: Option<Snapshot>
    var lastApiFetch: Option<int>
    var sessionOpen: bool
    const configEntry: Option<ConfigEntry>

    function State(): CoordinatorState
      reads this
    {
      CoordinatorState(data, lastApiFetch, sessionOpen)
    }

    constructor(configEntry: Option<ConfigEntry>)
      ensures State() == CoordinatorState(None, None, false)
      ensures this.configEntry == configEntry
    {
      data := None;
      lastApiFetch := None;
      sessionOpen := false;
      this.configEntry := configEntry;
    }

    /** _async_update_data at time `now`, given what the request would yield. */
    method AsyncUpdateData(now: int, http: HttpOutcome) returns (outcome: UpdateOutcome)
      modifies this
      ensures (outcome, State()) == Update(old(State()), configEntry, now, http)
    {
      if lastApiFetch.Some? && data.Some? && now - lastApiFetch.value < API_UPDATE_INTERVAL {
        return Returned(data.value);
      }
      if !sessionOpen {
        sessionOpen := true;
      }
      if http.TimedOut? {
        lastApiFetch := Some(now);
        if data.Some? {
          return Returned(data.value);
        }
        return Raised(TimeoutCommunicating);
      }
      var fetched := FetchData(configEntry, http, now);
      if fetched.Success? {
        lastApiFetch := Some(now);
        return Returned(fetched.value);
      }
      lastApiFetch := Some(now);
      if data.Some? {
        return Returned(data.value);
      }
      return Raised(ErrorCommunicating);
    }
  }
}
