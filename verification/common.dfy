/** Shared vocabulary of the RCE price integration: optional values, naive
    local timestamps, the price record as the PSE feed delivers it, the
    coordinator's data snapshot, and the small sequence toolkit (filtering,
    first match, sums and means) that the sensors and the coordinator share. */
module Common {

  datatype Option<+T> = None | Some(value: T)

  datatype Result<+T, +E> = Success(value: T) | Failure(error: E)

  // ---------------------------------------------------------------------
  // Time. A timestamp is a naive local time in whole seconds since the
  // epoch; a calendar date is a day number.

  const SECONDS_PER_DAY: int := 86400
  const SECONDS_PER_HOUR: int := 3600
  /** Length of one market interval: 15 minutes. */
  const QUARTER: int := 900

  function Day(t: int): int { t / SECONDS_PER_DAY }

  function Hour(t: int): (h: int)
    ensures 0 <= h < 24
  { (t % SECONDS_PER_DAY) / SECONDS_PER_HOUR }

  function Minute(t: int): (m: int)
    ensures 0 <= m < 60
  { (t % SECONDS_PER_HOUR) / 60 }

  /** Midnight at the start of day `d`. */
  function DayStart(d: int): int { d * SECONDS_PER_DAY }

  /** A wall-clock time parsed from an "HH:MM" text. */
  datatype Clock = Clock(hour: int, minute: int)

  // ---------------------------------------------------------------------
  // Price records. Every field is already parsed; `None` stands for a field
  // that is missing or does not parse (a malformed record).

  datatype PriceRecord = PriceRecord(
    dtime: Option<int>,         // "dtime": END of the interval
    period: Option<Clock>,      // start of the "period" text "HH:MM - HH:MM"
    rcePln: Option<real>,       // "rce_pln": price in PLN/MWh
    businessDate: Option<int>,  // "business_date": the market day
    negToZero: Option<real>)    // "rce_pln_neg_to_zero", added by the coordinator

  /** Start of a record's interval: dtime minus 15 minutes. */
  function PeriodStart(r: PriceRecord): int
    requires r.dtime.Some?
  { r.dtime.value - QUARTER }

  /** `max(0, p)`. */
  function Max0(p: real): (r: real)
    ensures r >= 0.0 && r >= p && (r == p || r == 0.0)
  { if p > 0.0 then p else 0.0 }

  /** `min(a, b)` on two numbers. */
  function Min(a: real, b: real): real { if a <= b then a else b }

  /** The coordinator's data dictionary: "raw_data" and "last_update". */
  datatype Snapshot = Snapshot(rawData: Option<seq<PriceRecord>>, lastUpdate: Option<int>)

  /** The record list every accessor starts from: empty when there is no
      snapshot or no "raw_data" in it. */
  function Records(data: Option<Snapshot>): seq<PriceRecord>
  {
    if data.Some? && data.value.rawData.Some? then data.value.rawData.value else []
  }

  // ---------------------------------------------------------------------
  // Configuration. A config entry holds user settings in "options" (set
  // through the options flow) and "data" (set at setup).

  /** A setting value; a text's `parsed` is what float() makes of it. */
  datatype Setting = Flag(b: bool) | Number(x: real) | Text(s: string, parsed: Option<real>)

  /** Python truthiness of a setting value. */
  predicate Truthy(v: Setting)
  {
    match v
    case Flag(b) => b
    case Number(x) => x != 0.0
    case Text(s, _) => s != ""
  }

  datatype ConfigEntry = ConfigEntry(options: map<string, Setting>, data: map<string, Setting>)

  // ---------------------------------------------------------------------
  // Sequences.

  /** `a` is `b` with some elements left out, order kept. */
  ghost predicate IsSubsequence<T>(a: seq<T>, b: seq<T>)
    decreases |b|
  {
    if a == [] then true
    else if b == [] then false
    else (a[|a| - 1] == b[|b| - 1] && IsSubsequence(a[..|a| - 1], b[..|b| - 1]))
         || IsSubsequence(a, b[..|b| - 1])
  }

  /** The elements of `s` that satisfy `p`, in order (a list comprehension). */
  function Filter<T>(s: seq<T>, p: T -> bool): seq<T>
  {
    if s == [] then [] else
      Filter(s[..|s| - 1], p) + (if p(s[|s| - 1]) then [s[|s| - 1]] else [])
  }

  lemma {:induction false} FilterProperties<T>(s: seq<T>, p: T -> bool)
    ensures forall x :: x in Filter(s, p) <==> x in s && p(x)
    ensures IsSubsequence(Filter(s, p), s)
    ensures |Filter(s, p)| <= |s|
  {
    if s != [] {
      var init, last := s[..|s| - 1], s[|s| - 1];
      assert s == init + [last];
      FilterProperties(init, p);
      var f := Filter(init, p);
      if p(last) {
        assert Filter(s, p) == f + [last];
        assert (f + [last])[..|f|] == f;
      } else {
        assert Filter(s, p) == f;
        SubsequenceOfInit(f, s);
      }
    }
  }

  /** One more element of a prefix: the filter grows by that element when
      it satisfies `p`. */
  lemma FilterSnoc<T>(s: seq<T>, i: nat, p: T -> bool)
    requires i < |s|
    ensures Filter(s[..i + 1], p) == Filter(s[..i], p) + (if p(s[i]) then [s[i]] else [])
  {
    assert s[..i + 1][..i] == s[..i];
  }

  lemma {:induction false} SubsequenceOfInit<T>(a: seq<T>, s: seq<T>)
    requires s != [] && IsSubsequence(a, s[..|s| - 1])
    ensures IsSubsequence(a, s)
  {
  }

  /** The concatenation of `f(x)` for every `x` of `s`, in order. */
  function ConcatMap<A, B>(s: seq<A>, f: A -> seq<B>): seq<B>
  {
    if s == [] then [] else ConcatMap(s[..|s| - 1], f) + f(s[|s| - 1])
  }

  /** Whatever `f` yields for an element of `s` is in the concatenation. */
  lemma {:induction false} ConcatMapHas<A, B>(s: seq<A>, f: A -> seq<B>, j: nat, y: B)
    requires j < |s| && y in f(s[j])
    ensures y in ConcatMap(s, f)
  {
    var n := |s| - 1;
    if j < n {
      assert s[..n][j] == s[j];
      ConcatMapHas(s[..n], f, j, y);
    }
  }

  /** Everything in the concatenation comes from some element of `s`. */
  lemma {:induction false} ConcatMapSource<A, B>(s: seq<A>, f: A -> seq<B>, y: B) returns (j: nat)
    requires y in ConcatMap(s, f)
    ensures j < |s| && y in f(s[j])
  {
    var n := |s| - 1;
    if y in ConcatMap(s[..n], f) {
      j := ConcatMapSource(s[..n], f, y);
      assert s[..n][j] == s[j];
    } else {
      j := n;
    }
  }

  /** Index of the first element of `s` satisfying `p` (a search that returns
      early on the first hit). */
  function FirstIndex<T>(s: seq<T>, p: T -> bool, from: nat := 0): (r: Option<nat>)
    requires from <= |s|
    requires forall j :: 0 <= j < from ==> !p(s[j])
    ensures r.Some? ==> r.value < |s| && p(s[r.value]) && forall j :: 0 <= j < r.value ==> !p(s[j])
    ensures r.None? ==> forall j :: 0 <= j < |s| ==> !p(s[j])
    decreases |s| - from
  {
    if from == |s| then None
    else if p(s[from]) then Some(from)
    else FirstIndex(s, p, from + 1)
  }

  // ---------------------------------------------------------------------
  // Sums and means (Python's sum(xs) / len(xs)).

  function Sum(s: seq<real>): real
  {
    if s == [] then 0.0 else Sum(s[..|s| - 1]) + s[|s| - 1]
  }

  function Mean(s: seq<real>): real
    requires |s| > 0
  {
    Sum(s) / (|s| as real)
  }

  /** Python's min(xs). */
  function MinOf(s: seq<real>): (m: real)
    requires |s| > 0
    ensures (exists i :: 0 <= i < |s| && s[i] == m) && forall i :: 0 <= i < |s| ==> m <= s[i]
  {
    if |s| == 1 then s[0]
    else
      var m := MinOf(s[..|s| - 1]);
      if s[|s| - 1] < m then s[|s| - 1] else m
  }

  /** Python's max(xs). */
  function MaxOf(s: seq<real>): (m: real)
    requires |s| > 0
    ensures (exists i :: 0 <= i < |s| && s[i] == m) && forall i :: 0 <= i < |s| ==> s[i] <= m
  {
    if |s| == 1 then s[0]
    else
      var m := MaxOf(s[..|s| - 1]);
      if s[|s| - 1] > m then s[|s| - 1] else m
  }

  lemma {:induction false} SumBounds(s: seq<real>, lo: real, hi: real)
    requires forall i :: 0 <= i < |s| ==> lo <= s[i] <= hi
    ensures (|s| as real) * lo <= Sum(s) <= (|s| as real) * hi
  {
    if s != [] {
      var init := s[..|s| - 1];
      SumBounds(init, lo, hi);
      var n := |init| as real;
      assert Sum(s) == Sum(init) + s[|s| - 1];
      assert (|s| as real) * lo == n * lo + lo;
      assert (|s| as real) * hi == n * hi + hi;
    }
  }

  /** A mean lies between any lower and upper bound of the values averaged. */
  lemma MeanBetween(s: seq<real>, lo: real, hi: real)
    requires |s| > 0
    requires forall i :: 0 <= i < |s| ==> lo <= s[i] <= hi
    ensures lo <= Mean(s) <= hi
  {
    SumBounds(s, lo, hi);
    QuotientBounds(Sum(s), |s| as real, lo, hi);
  }

  /** A mean lies between the smallest and the largest value averaged. */
  lemma MeanWithinBounds(s: seq<real>)
    requires |s| > 0
    ensures MinOf(s) <= Mean(s) <= MaxOf(s)
  {
    MeanBetween(s, MinOf(s), MaxOf(s));
  }

  lemma QuotientBounds(x: real, n: real, lo: real, hi: real)
    requires n > 0.0 && n * lo <= x <= n * hi
    ensures lo <= x / n <= hi
  {
  }

  lemma {:induction false} SumNonNegative(s: seq<real>)
    requires forall i :: 0 <= i < |s| ==> s[i] >= 0.0
    ensures Sum(s) >= 0.0
  {
    if s != [] {
      SumBounds(s, 0.0, MaxOf(s));
    }
  }
}
