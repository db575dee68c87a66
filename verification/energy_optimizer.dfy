/** The greedy buy-threshold allocator: picks the cheapest future 15-minute
    slots that cover a net energy need, never buys during tomorrow's PV hours
    when PV is forecast, caps what is bought before PV starts, and reports the
    price of the last slot it bought from as the "pay up to" threshold. */
module EnergyOptimizer {
  import opened Common

  const DEFAULT_PV_START_HOUR: int := 7
  const DEFAULT_PV_END_HOUR: int := 19

  /** One future chargeable interval: its start and its price. */
  datatype Slot = Slot(start: int, price: real)

  datatype Status = Ok | NoPurchaseNeeded | InsufficientData | WindowTooSmall

  /** The metadata dictionary; `energyRemaining` is absent on early returns. */
  datatype Meta = Meta(
    status: Status,
    energyToBuy: real,
    eligibleCount: nat,
    allocatedCount: nat,
    threshold: Option<real>,
    energyRemaining: Option<real>)

  /** The PV forecast and the daylight hours [startHour, endHour). */
  datatype PvWindow = PvWindow(forecast: real, startHour: int, endHour: int)

  /** Per-slot and before-PV energy limits (kWh). */
  datatype Caps = Caps(perSlot: real, beforePv: real)

  // ---------------------------------------------------------------------
  // Which date is "tomorrow".

  function LatestDate(slots: seq<Slot>): (d: int)
    requires |slots| > 0
    ensures exists i :: 0 <= i < |slots| && Day(slots[i].start) == d
    ensures forall i :: 0 <= i < |slots| ==> Day(slots[i].start) <= d
  {
    if |slots| == 1 then Day(slots[0].start)
    else
      var d := LatestDate(slots[..|slots| - 1]);
      var last := Day(slots[|slots| - 1].start);
      if last > d then last else d
  }

  /** The latest date among the slots, but only when at least two distinct
      dates occur; with a single date nothing is "tomorrow". */
  function TomorrowDate(slots: seq<Slot>): (r: Option<int>)
    ensures r.Some? <==> exists i, j :: 0 <= i < |slots| && 0 <= j < |slots| && Day(slots[i].start) != Day(slots[j].start)
    ensures r.Some? ==> (exists i :: 0 <= i < |slots| && Day(slots[i].start) == r.value)
                        && forall i :: 0 <= i < |slots| ==> Day(slots[i].start) <= r.value
  {
    if |slots| > 0 && exists i :: 0 <= i < |slots| && Day(slots[i].start) != Day(slots[0].start)
    then Some(LatestDate(slots))
    else None
  }

  // ---------------------------------------------------------------------
  // Partition into excluded, pre-PV and post-PV slots.

  datatype Pool = Excluded | PrePv | PostPv

  function PoolOf(start: int, tomorrow: Option<int>, pv: PvWindow): Pool
  {
    var isTomorrow := tomorrow.Some? && Day(start) == tomorrow.value;
    if isTomorrow && pv.forecast > 0.0 && pv.startHour <= Hour(start) < pv.endHour then Excluded
    else if isTomorrow && Hour(start) >= pv.endHour then PostPv
    else PrePv
  }

  function InPool(pool: Pool, tomorrow: Option<int>, pv: PvWindow): Slot -> bool
  {
    (s: Slot) => PoolOf(s.start, tomorrow, pv) == pool
  }

  /** The partition loop: appends each slot to the pre-PV or the post-PV list,
      or skips it when it falls in tomorrow's PV hours. */
  method Partition(slots: seq<Slot>, tomorrow: Option<int>, pv: PvWindow)
    returns (pre: seq<Slot>, post: seq<Slot>)
    ensures pre == Filter(slots, InPool(PrePv, tomorrow, pv))
    ensures post == Filter(slots, InPool(PostPv, tomorrow, pv))
  {
    pre, post := [], [];
    for i := 0 to |slots|
      invariant pre == Filter(slots[..i], InPool(PrePv, tomorrow, pv))
      invariant post == Filter(slots[..i], InPool(PostPv, tomorrow, pv))
    {
      var slot := slots[i];
      FilterSnoc(slots, i, InPool(PrePv, tomorrow, pv));
      FilterSnoc(slots, i, InPool(PostPv, tomorrow, pv));
      var isTomorrow := tomorrow.Some? && Day(slot.start) == tomorrow.value;
      if isTomorrow && pv.forecast > 0.0 && pv.startHour <= Hour(slot.start) < pv.endHour {
        // PV production window: skipped
      } else if isTomorrow && Hour(slot.start) >= pv.endHour {
        post := post + [slot];
      } else {
        pre := pre + [slot];
      }
    }
    assert slots[..|slots|] == slots;
  }

  /** With a single date present nothing is excluded and nothing is post-PV:
      every slot is a pre-PV slot. */
  lemma SingleDateAllPrePv(slots: seq<Slot>, pv: PvWindow)
    requires TomorrowDate(slots).None?
    ensures Filter(slots, InPool(PrePv, None, pv)) == slots
    ensures Filter(slots, InPool(PostPv, None, pv)) == []
  {
    FilterAll(slots, InPool(PrePv, None, pv));
    FilterNone(slots, InPool(PostPv, None, pv));
  }

  lemma {:induction false} FilterAll<T>(s: seq<T>, p: T -> bool)
    requires forall i :: 0 <= i < |s| ==> p(s[i])
    ensures Filter(s, p) == s
  {
    if s != [] {
      FilterAll(s[..|s| - 1], p);
      assert s[..|s| - 1] + [s[|s| - 1]] == s;
    }
  }

  lemma {:induction false} FilterNone<T>(s: seq<T>, p: T -> bool)
    requires forall i :: 0 <= i < |s| ==> !p(s[i])
    ensures Filter(s, p) == []
  {
    if s != [] {
      FilterNone(s[..|s| - 1], p);
    }
  }

  // ---------------------------------------------------------------------
  // Stable sort by price (Python's sorted(..., key=price)).

  ghost predicate SortedByPrice(s: seq<Slot>)
  {
    forall i, j :: 0 <= i < j < |s| ==> s[i].price <= s[j].price
  }

  /** Inserts `x` before the first element that is not cheaper, so that `x`
      stays ahead of the equally priced slots that came after it. */
  function Insert(x: Slot, s: seq<Slot>): (r: seq<Slot>)
    ensures multiset(r) == multiset(s) + multiset{x}
  {
    if s == [] || x.price <= s[0].price then [x] + s
    else
      assert s == [s[0]] + s[1..];
      [s[0]] + Insert(x, s[1..])
  }

  /** Inserting keeps a lower bound that `x` and every element of `s` share. */
  lemma {:induction false} InsertLowerBound(x: Slot, s: seq<Slot>, b: real)
    requires b <= x.price && forall k :: 0 <= k < |s| ==> b <= s[k].price
    ensures forall k :: 0 <= k < |Insert(x, s)| ==> b <= Insert(x, s)[k].price
    decreases |s|
  {
    if s != [] && x.price > s[0].price {
      InsertLowerBound(x, s[1..], b);
    }
  }

  lemma {:induction false} InsertSorted(x: Slot, s: seq<Slot>)
    requires SortedByPrice(s)
    ensures SortedByPrice(Insert(x, s))
    decreases |s|
  {
    if s != [] && x.price > s[0].price {
      var tail := s[1..];
      InsertSorted(x, tail);
      InsertLowerBound(x, tail, s[0].price);
      var rest := Insert(x, tail);
      var r := [s[0]] + rest;
      assert Insert(x, s) == r;
      forall i, j | 0 <= i < j < |r|
        ensures r[i].price <= r[j].price
      {
        assert r[j] == rest[j - 1];
        if i > 0 {
          assert r[i] == rest[i - 1];
        }
      }
    }
  }

  /** Python's sorted(s, key=price): ordered by price and a permutation. */
  function SortByPrice(s: seq<Slot>): (r: seq<Slot>)
    ensures multiset(r) == multiset(s)
    ensures SortedByPrice(r)
  {
    if s == [] then []
    else
      assert s == [s[0]] + s[1..];
      InsertSorted(s[0], SortByPrice(s[1..]));
      Insert(s[0], SortByPrice(s[1..]))
  }

  function HasPrice(p: real): Slot -> bool
  {
    (s: Slot) => s.price == p
  }

  lemma {:induction false} FilterPrepend<T>(x: T, s: seq<T>, p: T -> bool)
    ensures Filter([x] + s, p) == (if p(x) then [x] else []) + Filter(s, p)
    decreases |s|
  {
    if s != [] {
      var init := s[..|s| - 1];
      assert ([x] + s)[..|s|] == [x] + init;
      FilterPrepend(x, init, p);
    } else {
      assert ([x] + s)[..0] == [];
    }
  }

  lemma {:induction false} InsertKeepsTies(x: Slot, s: seq<Slot>, p: real)
    requires SortedByPrice(s)
    ensures Filter(Insert(x, s), HasPrice(p)) == (if x.price == p then [x] else []) + Filter(s, HasPrice(p))
    decreases |s|
  {
    if s == [] || x.price <= s[0].price {
      FilterPrepend(x, s, HasPrice(p));
    } else {
      var rest := Insert(x, s[1..]);
      assert s == [s[0]] + s[1..];
      FilterPrepend(s[0], rest, HasPrice(p));
      InsertKeepsTies(x, s[1..], p);
      FilterPrepend(s[0], s[1..], HasPrice(p));
    }
  }

  /** The sort is stable: for every price, the slots carrying that price
      appear in the sorted list in their original relative order. */
  lemma {:induction false} SortIsStable(s: seq<Slot>, p: real)
    ensures Filter(SortByPrice(s), HasPrice(p)) == Filter(s, HasPrice(p))
  {
    if s != [] {
      assert s == [s[0]] + s[1..];
      SortIsStable(s[1..], p);
      InsertKeepsTies(s[0], SortByPrice(s[1..]), p);
      FilterPrepend(s[0], s[1..], HasPrice(p));
    }
  }

  // ---------------------------------------------------------------------
  // Greedy allocation.

  /** The loop state: `remaining`, `cumulative_pre_pv`, `slots_allocated`,
      `last_price`. */
  datatype Greedy = Greedy(remaining: real, cumulativePrePv: real, bought: nat, lastPrice: Option<real>)

  /** `min(x, capacity)` where a missing capacity is Python's float("inf"). */
  function MinCapped(x: real, capacity: Option<real>): real
  {
    if capacity.Some? then Min(x, capacity.value) else x
  }

  /** Energy bought from one slot in state `st` (0.0 when the slot is skipped). */
  function Purchase(st: Greedy, slot: Slot, prePvStarts: set<int>, caps: Caps): real
  {
    var isPre := slot.start in prePvStarts;
    if isPre && st.cumulativePrePv >= caps.beforePv then 0.0
    else
      var capacity := if isPre then Some(caps.beforePv - st.cumulativePrePv) else None;
      var canBuy := MinCapped(Min(caps.perSlot, st.remaining), capacity);
      if canBuy <= 0.0 then 0.0 else canBuy
  }

  /** One iteration of the greedy loop on a slot it does not break on. */
  function Step(st: Greedy, slot: Slot, prePvStarts: set<int>, caps: Caps): Greedy
  {
    var take := Purchase(st, slot, prePvStarts, caps);
    if take <= 0.0 then st
    else Greedy(
      st.remaining - take,
      if slot.start in prePvStarts then st.cumulativePrePv + take else st.cumulativePrePv,
      st.bought + 1,
      Some(slot.price))
  }

  /** The greedy loop from position `i`: it stops once nothing remains. */
  function Run(eligible: seq<Slot>, i: nat, st: Greedy, prePvStarts: set<int>, caps: Caps): Greedy
    decreases |eligible| - i
  {
    if i >= |eligible| || st.remaining <= 0.0 then st
    else Run(eligible, i + 1, Step(st, eligible[i], prePvStarts, caps), prePvStarts, caps)
  }

  lemma RunUnfold(eligible: seq<Slot>, i: nat, st: Greedy, prePvStarts: set<int>, caps: Caps)
    requires i < |eligible| && st.remaining > 0.0
    ensures Run(eligible, i, st, prePvStarts, caps) == Run(eligible, i + 1, Step(st, eligible[i], prePvStarts, caps), prePvStarts, caps)
  {
  }

  /** The slots bought from are a prefix of the eligible list: no slot is
      skipped before a slot that is bought from. */
  ghost predicate BoughtPrefix(amounts: seq<real>)
  {
    forall i, j :: 0 <= i < j < |amounts| && amounts[j] > 0.0 ==> amounts[i] > 0.0
  }

  /** Number of slots something was bought from. */
  function CountBought(amounts: seq<real>): nat
  {
    if amounts == [] then 0
    else CountBought(amounts[..|amounts| - 1]) + (if amounts[|amounts| - 1] > 0.0 then 1 else 0)
  }

  /** Energy bought from the pre-PV slots among the first |amounts| slots. */
  function PreSum(eligible: seq<Slot>, prePvStarts: set<int>, amounts: seq<real>): real
    requires |amounts| <= |eligible|
  {
    if amounts == [] then 0.0
    else
      var k := |amounts| - 1;
      PreSum(eligible, prePvStarts, amounts[..k]) + (if eligible[k].start in prePvStarts then amounts[k] else 0.0)
  }

  function Zeros(n: nat): (z: seq<real>)
    ensures |z| == n && forall i :: 0 <= i < n ==> z[i] == 0.0
  {
    seq(n, _ => 0.0)
  }

  /** What appending one more slot's amount does to the running totals. */
  lemma AppendAmount(eligible: seq<Slot>, prePvStarts: set<int>, amounts: seq<real>, take: real)
    requires |amounts| < |eligible|
    ensures Sum(amounts + [take]) == Sum(amounts) + take
    ensures CountBought(amounts + [take]) == CountBought(amounts) + (if take > 0.0 then 1 else 0)
    ensures PreSum(eligible, prePvStarts, amounts + [take])
            == PreSum(eligible, prePvStarts, amounts) + (if eligible[|amounts|].start in prePvStarts then take else 0.0)
  {
    assert (amounts + [take])[..|amounts|] == amounts;
  }

  lemma {:induction false} PadWithZeros(eligible: seq<Slot>, prePvStarts: set<int>, amounts: seq<real>, n: nat)
    requires |amounts| + n <= |eligible|
    ensures Sum(amounts + Zeros(n)) == Sum(amounts)
    ensures CountBought(amounts + Zeros(n)) == CountBought(amounts)
    ensures PreSum(eligible, prePvStarts, amounts + Zeros(n)) == PreSum(eligible, prePvStarts, amounts)
  {
    if n == 0 {
      assert amounts + Zeros(n) == amounts;
    } else {
      PadWithZeros(eligible, prePvStarts, amounts, n - 1);
      assert amounts + Zeros(n) == (amounts + Zeros(n - 1)) + [0.0];
      AppendAmount(eligible, prePvStarts, amounts + Zeros(n - 1), 0.0);
    }
  }

  /** Loop invariant: the totals agree with the amounts bought so far and
      respect the limits. */
  ghost predicate Accounted(eligible: seq<Slot>, prePvStarts: set<int>, caps: Caps, energy: real, cur: Greedy, amounts: seq<real>)
  {
    && |amounts| <= |eligible|
    && (forall j :: 0 <= j < |amounts| ==> amounts[j] == 0.0 || 0.0 < amounts[j] <= caps.perSlot)
    && energy == cur.remaining + Sum(amounts)
    && 0.0 <= cur.remaining
    && cur.cumulativePrePv == PreSum(eligible, prePvStarts, amounts)
    && 0.0 <= cur.cumulativePrePv <= Max0(caps.beforePv)
    && cur.cumulativePrePv <= Sum(amounts)
    && cur.bought == CountBought(amounts) <= |amounts|
  }

  /** Loop invariant: `lastIdx` is the last slot bought from (-1 for none),
      and `lastPrice` is its price. */
  ghost predicate LastTracked(eligible: seq<Slot>, cur: Greedy, amounts: seq<real>, lastIdx: int)
  {
    && |amounts| <= |eligible|
    && -1 <= lastIdx < |amounts|
    && (lastIdx == -1 <==> cur.bought == 0)
    && (lastIdx == -1 ==> cur.lastPrice.None?)
    && (lastIdx >= 0 ==> amounts[lastIdx] > 0.0 && cur.lastPrice == Some(eligible[lastIdx].price))
    && (forall j :: lastIdx < j < |amounts| ==> amounts[j] == 0.0)
  }

  /** Loop invariant: with a positive per-slot limit and a before-PV cap that
      covers the whole need, no slot has been skipped. */
  ghost predicate NoneSkipped(caps: Caps, energy: real, cur: Greedy, amounts: seq<real>)
  {
    caps.perSlot > 0.0 && caps.beforePv >= energy ==>
      (forall j :: 0 <= j < |amounts| ==> amounts[j] > 0.0) && cur.bought == |amounts|
  }

  /** What the greedy loop buys from each eligible slot from position `i` on
      (0.0 for a skipped slot and for every slot after the need is met). */
  function Amounts(eligible: seq<Slot>, i: nat, st: Greedy, prePvStarts: set<int>, caps: Caps): (a: seq<real>)
    requires i <= |eligible|
    ensures |a| == |eligible| - i
    decreases |eligible| - i
  {
    if i == |eligible| || st.remaining <= 0.0 then Zeros(|eligible| - i)
    else [Purchase(st, eligible[i], prePvStarts, caps)] + Amounts(eligible, i + 1, Step(st, eligible[i], prePvStarts, caps), prePvStarts, caps)
  }

  lemma StepKeepsAccounted(eligible: seq<Slot>, prePvStarts: set<int>, caps: Caps, energy: real, cur: Greedy, amounts: seq<real>)
    requires |amounts| < |eligible| && cur.remaining > 0.0
    requires Accounted(eligible, prePvStarts, caps, energy, cur, amounts)
    ensures var slot := eligible[|amounts|];
      Accounted(eligible, prePvStarts, caps, energy, Step(cur, slot, prePvStarts, caps),
                amounts + [Purchase(cur, slot, prePvStarts, caps)])
  {
    var slot := eligible[|amounts|];
    AppendAmount(eligible, prePvStarts, amounts, Purchase(cur, slot, prePvStarts, caps));
  }

  lemma StepKeepsLastTracked(eligible: seq<Slot>, prePvStarts: set<int>, caps: Caps, cur: Greedy, amounts: seq<real>, lastIdx: int)
    requires |amounts| < |eligible|
    requires LastTracked(eligible, cur, amounts, lastIdx)
    ensures var slot := eligible[|amounts|];
      var take := Purchase(cur, slot, prePvStarts, caps);
      LastTracked(eligible, Step(cur, slot, prePvStarts, caps), amounts + [take],
                  if take > 0.0 then |amounts| else lastIdx)
  {
  }

  lemma StepKeepsNoneSkipped(eligible: seq<Slot>, prePvStarts: set<int>, caps: Caps, energy: real, cur: Greedy, amounts: seq<real>)
    requires |amounts| < |eligible| && cur.remaining > 0.0
    requires Accounted(eligible, prePvStarts, caps, energy, cur, amounts)
    requires NoneSkipped(caps, energy, cur, amounts)
    ensures var slot := eligible[|amounts|];
      NoneSkipped(caps, energy, Step(cur, slot, prePvStarts, caps), amounts + [Purchase(cur, slot, prePvStarts, caps)])
  {
    var slot := eligible[|amounts|];
    if caps.perSlot > 0.0 && caps.beforePv >= energy {
      assert cur.cumulativePrePv < caps.beforePv;
      assert Purchase(cur, slot, prePvStarts, caps) > 0.0;
    }
  }

  /** Running the loop to the end from a state that agrees with the amounts
      bought so far yields a final state that agrees with all the amounts. */
  lemma {:induction false} RunKeepsAccounted(eligible: seq<Slot>, prePvStarts: set<int>, caps: Caps, energy: real, cur: Greedy, amounts: seq<real>)
    requires Accounted(eligible, prePvStarts, caps, energy, cur, amounts)
    ensures var i := |amounts|;
      Accounted(eligible, prePvStarts, caps, energy, Run(eligible, i, cur, prePvStarts, caps),
                amounts + Amounts(eligible, i, cur, prePvStarts, caps))
    decreases |eligible| - |amounts|
  {
    var i := |amounts|;
    if i == |eligible| || cur.remaining <= 0.0 {
      PadWithZeros(eligible, prePvStarts, amounts, |eligible| - i);
    } else {
      var slot := eligible[i];
      var take := Purchase(cur, slot, prePvStarts, caps);
      StepKeepsAccounted(eligible, prePvStarts, caps, energy, cur, amounts);
      RunKeepsAccounted(eligible, prePvStarts, caps, energy, Step(cur, slot, prePvStarts, caps), amounts + [take]);
      assert amounts + Amounts(eligible, i, cur, prePvStarts, caps)
          == (amounts + [take]) + Amounts(eligible, i + 1, Step(cur, slot, prePvStarts, caps), prePvStarts, caps);
    }
  }

  lemma {:induction false} RunKeepsLastTracked(eligible: seq<Slot>, prePvStarts: set<int>, caps: Caps, cur: Greedy, amounts: seq<real>, lastIdx: int)
    returns (last: int)
    requires LastTracked(eligible, cur, amounts, lastIdx)
    ensures var i := |amounts|;
      LastTracked(eligible, Run(eligible, i, cur, prePvStarts, caps), amounts + Amounts(eligible, i, cur, prePvStarts, caps), last)
    decreases |eligible| - |amounts|
  {
    var i := |amounts|;
    if i == |eligible| || cur.remaining <= 0.0 {
      var all := amounts + Zeros(|eligible| - i);
      assert Amounts(eligible, i, cur, prePvStarts, caps) == Zeros(|eligible| - i);
      assert forall j :: lastIdx < j < |all| ==> all[j] == 0.0 by {
        forall j | lastIdx < j < |all| ensures all[j] == 0.0 {
          if j >= i {
            assert all[j] == Zeros(|eligible| - i)[j - i];
          }
        }
      }
      last := lastIdx;
    } else {
      var slot := eligible[i];
      var take := Purchase(cur, slot, prePvStarts, caps);
      StepKeepsLastTracked(eligible, prePvStarts, caps, cur, amounts, lastIdx);
      last := RunKeepsLastTracked(eligible, prePvStarts, caps, Step(cur, slot, prePvStarts, caps), amounts + [take],
                                  if take > 0.0 then i else lastIdx);
      assert amounts + Amounts(eligible, i, cur, prePvStarts, caps)
          == (amounts + [take]) + Amounts(eligible, i + 1, Step(cur, slot, prePvStarts, caps), prePvStarts, caps);
    }
  }

  lemma {:induction false} RunKeepsNoneSkipped(eligible: seq<Slot>, prePvStarts: set<int>, caps: Caps, energy: real, cur: Greedy, amounts: seq<real>)
    requires Accounted(eligible, prePvStarts, caps, energy, cur, amounts)
    requires NoneSkipped(caps, energy, cur, amounts)
    ensures var i := |amounts|;
      var fin := Run(eligible, i, cur, prePvStarts, caps);
      var all := amounts + Amounts(eligible, i, cur, prePvStarts, caps);
      caps.perSlot > 0.0 && caps.beforePv >= energy ==>
        BoughtPrefix(all) && (fin.remaining <= 0.0 || fin.bought == |eligible|)
    decreases |eligible| - |amounts|
  {
    var i := |amounts|;
    if i == |eligible| || cur.remaining <= 0.0 {
    } else {
      var slot := eligible[i];
      var take := Purchase(cur, slot, prePvStarts, caps);
      StepKeepsAccounted(eligible, prePvStarts, caps, energy, cur, amounts);
      StepKeepsNoneSkipped(eligible, prePvStarts, caps, energy, cur, amounts);
      RunKeepsNoneSkipped(eligible, prePvStarts, caps, energy, Step(cur, slot, prePvStarts, caps), amounts + [take]);
      assert amounts + Amounts(eligible, i, cur, prePvStarts, caps)
          == (amounts + [take]) + Amounts(eligible, i + 1, Step(cur, slot, prePvStarts, caps), prePvStarts, caps);
    }
  }

  /** The accounting of the greedy allocation, for a positive need: every
      slot gets 0 or a positive amount within the per-slot limit; the energy
      bought plus what remains is the need; nothing remains negative; the
      pre-PV slots together stay within the before-PV cap; the slot count is
      the number of slots bought from. */
  lemma AllocationAccounting(eligible: seq<Slot>, prePvStarts: set<int>, energy: real, caps: Caps)
    requires energy > 0.0
    ensures var st := Run(eligible, 0, Greedy(energy, 0.0, 0, None), prePvStarts, caps);
      var amounts := Amounts(eligible, 0, Greedy(energy, 0.0, 0, None), prePvStarts, caps);
      && (forall j :: 0 <= j < |amounts| ==> amounts[j] == 0.0 || 0.0 < amounts[j] <= caps.perSlot)
      && energy == st.remaining + Sum(amounts)
      && 0.0 <= st.remaining
      && PreSum(eligible, prePvStarts, amounts) <= Max0(caps.beforePv)
      && st.bought == CountBought(amounts) <= |eligible|
  {
    var init := Greedy(energy, 0.0, 0, None);
    assert [] + Amounts(eligible, 0, init, prePvStarts, caps) == Amounts(eligible, 0, init, prePvStarts, caps);
    RunKeepsAccounted(eligible, prePvStarts, caps, energy, init, []);
  }

  /** The threshold is the price of the last slot bought from, absent iff no
      slot was bought from; over price-sorted slots it is therefore at least
      every price paid. */
  lemma AllocationThreshold(eligible: seq<Slot>, prePvStarts: set<int>, energy: real, caps: Caps)
    ensures var st := Run(eligible, 0, Greedy(energy, 0.0, 0, None), prePvStarts, caps);
      var amounts := Amounts(eligible, 0, Greedy(energy, 0.0, 0, None), prePvStarts, caps);
      && (st.lastPrice.None? <==> st.bought == 0)
      && (st.lastPrice.Some? ==>
            exists k :: 0 <= k < |amounts| && amounts[k] > 0.0 && st.lastPrice.value == eligible[k].price
                        && forall j :: k < j < |amounts| ==> amounts[j] == 0.0)
      && (SortedByPrice(eligible) && st.lastPrice.Some? ==>
            forall j :: 0 <= j < |amounts| && amounts[j] > 0.0 ==> eligible[j].price <= st.lastPrice.value)
  {
    var init := Greedy(energy, 0.0, 0, None);
    var amounts := Amounts(eligible, 0, init, prePvStarts, caps);
    assert [] + amounts == amounts;
    var last := RunKeepsLastTracked(eligible, prePvStarts, caps, init, [], -1);
    if last >= 0 {
      assert amounts[last] > 0.0;
    }
  }

  /** With a positive per-slot limit and a before-PV cap covering the whole
      need, the slots bought from are the cheapest ones in order, and either
      the need is met or every slot is used. */
  lemma AllocationUncapped(eligible: seq<Slot>, prePvStarts: set<int>, energy: real, caps: Caps)
    requires energy > 0.0 && caps.perSlot > 0.0 && caps.beforePv >= energy
    ensures var st := Run(eligible, 0, Greedy(energy, 0.0, 0, None), prePvStarts, caps);
      var amounts := Amounts(eligible, 0, Greedy(energy, 0.0, 0, None), prePvStarts, caps);
      BoughtPrefix(amounts) && (st.remaining == 0.0 || st.bought == |eligible|)
  {
    var init := Greedy(energy, 0.0, 0, None);
    assert [] + Amounts(eligible, 0, init, prePvStarts, caps) == Amounts(eligible, 0, init, prePvStarts, caps);
    RunKeepsAccounted(eligible, prePvStarts, caps, energy, init, []);
    RunKeepsNoneSkipped(eligible, prePvStarts, caps, energy, init, []);
  }

  /** The greedy loop over the price-sorted eligible slots; it stops as soon
      as the remaining need is met. */
  method Allocate(eligible: seq<Slot>, prePvStarts: set<int>, energy: real, caps: Caps) returns (st: Greedy)
    ensures st == Run(eligible, 0, Greedy(energy, 0.0, 0, None), prePvStarts, caps)
  {
    var remaining := energy;
    var cumulativePrePv := 0.0;
    var bought: nat := 0;
    var lastPrice: Option<real> := None;
    ghost var target := Run(eligible, 0, Greedy(energy, 0.0, 0, None), prePvStarts, caps);
    var i := 0;
    while i < |eligible|
      invariant 0 <= i <= |eligible|
      invariant Run(eligible, i, Greedy(remaining, cumulativePrePv, bought, lastPrice), prePvStarts, caps) == target
    {
      if remaining <= 0.0 {
        break;
      }
      ghost var before := Greedy(remaining, cumulativePrePv, bought, lastPrice);
      var slot := eligible[i];
      var isPre := slot.start in prePvStarts;
      if !(isPre && cumulativePrePv >= caps.beforePv) {
        var capacity := if isPre then Some(caps.beforePv - cumulativePrePv) else None;
        var canBuy := MinCapped(Min(caps.perSlot, remaining), capacity);
        if canBuy > 0.0 {
          remaining := remaining - canBuy;
          if isPre {
            cumulativePrePv := cumulativePrePv + canBuy;
          }
          bought := bought + 1;
          lastPrice := Some(slot.price);
        }
      }
      RunUnfold(eligible, i, before, prePvStarts, caps);
      i := i + 1;
    }
    st := Greedy(remaining, cumulativePrePv, bought, lastPrice);
  }

  // ---------------------------------------------------------------------
  // The whole computation.

  /** Starts of the pre-PV slots: membership in this set is what marks a slot
      as pre-PV during allocation. */
  function StartsOf(slots: seq<Slot>): set<int>
  {
    set s | s in slots :: s.start
  }

  /** The pre-PV and post-PV slots together, cheapest first. */
  function EligibleSlots(slots: seq<Slot>, pv: PvWindow): seq<Slot>
  {
    var tomorrow := TomorrowDate(slots);
    SortByPrice(Filter(slots, InPool(PrePv, tomorrow, pv)) + Filter(slots, InPool(PostPv, tomorrow, pv)))
  }

  function PrePvStarts(slots: seq<Slot>, pv: PvWindow): set<int>
  {
    StartsOf(Filter(slots, InPool(PrePv, TomorrowDate(slots), pv)))
  }

  /** Reference definition of calculate_optimal_buy_threshold. */
  function OptimalBuyThreshold(slots: seq<Slot>, energyToBuy: real, caps: Caps, pv: PvWindow): (Option<real>, Meta)
  {
    if energyToBuy <= 0.0 then (None, Meta(NoPurchaseNeeded, energyToBuy, 0, 0, None, None))
    else if slots == [] then (None, Meta(InsufficientData, energyToBuy, 0, 0, None, None))
    else
      var eligible := EligibleSlots(slots, pv);
      if eligible == [] then (None, Meta(WindowTooSmall, energyToBuy, 0, 0, None, None))
      else
        var st := Run(eligible, 0, Greedy(energyToBuy, 0.0, 0, None), PrePvStarts(slots, pv), caps);
        (st.lastPrice, Meta(Ok, energyToBuy, |eligible|, st.bought, st.lastPrice, Some(Max0(st.remaining))))
  }

  lemma PrePvByTimestamp(slots: seq<Slot>, tomorrow: Option<int>, pv: PvWindow, s: Slot)
    requires s in Filter(slots, InPool(PrePv, tomorrow, pv)) + Filter(slots, InPool(PostPv, tomorrow, pv))
    ensures s.start in StartsOf(Filter(slots, InPool(PrePv, tomorrow, pv))) <==> PoolOf(s.start, tomorrow, pv) == PrePv
  {
    var pre := Filter(slots, InPool(PrePv, tomorrow, pv));
    FilterProperties(slots, InPool(PrePv, tomorrow, pv));
    FilterProperties(slots, InPool(PostPv, tomorrow, pv));
    if s.start in StartsOf(pre) {
      var t :| t in pre && t.start == s.start;
      assert InPool(PrePv, tomorrow, pv)(t);
    }
  }

  /** Sorting keeps the elements and the length. */
  lemma SortKeepsMembers(s: seq<Slot>)
    ensures |SortByPrice(s)| == |s|
    ensures forall x :: x in SortByPrice(s) <==> x in s
  {
    var r := SortByPrice(s);
    assert |r| == |multiset(r)| == |multiset(s)| == |s|;
    forall x
      ensures x in r <==> x in s
    {
      assert x in r <==> x in multiset(r);
      assert x in s <==> x in multiset(s);
    }
  }

  /** A slot is in one of the two pools exactly when it is not excluded. */
  lemma PoolsCoverIncluded(slots: seq<Slot>, tomorrow: Option<int>, pv: PvWindow)
    ensures forall s :: s in Filter(slots, InPool(PrePv, tomorrow, pv)) + Filter(slots, InPool(PostPv, tomorrow, pv)) <==>
      s in slots && PoolOf(s.start, tomorrow, pv) != Excluded
  {
    FilterProperties(slots, InPool(PrePv, tomorrow, pv));
    FilterProperties(slots, InPool(PostPv, tomorrow, pv));
  }

  /** The eligible slots are exactly the slots outside tomorrow's PV hours,
      sorted by price, one entry per slot of the two pools. */
  lemma EligibleSlotsExact(slots: seq<Slot>, pv: PvWindow)
    ensures var tomorrow := TomorrowDate(slots);
      var eligible := EligibleSlots(slots, pv);
      && SortedByPrice(eligible)
      && |eligible| == |Filter(slots, InPool(PrePv, tomorrow, pv))| + |Filter(slots, InPool(PostPv, tomorrow, pv))|
      && (forall s :: s in eligible <==> s in slots && PoolOf(s.start, tomorrow, pv) != Excluded)
  {
    var tomorrow := TomorrowDate(slots);
    SortKeepsMembers(Filter(slots, InPool(PrePv, tomorrow, pv)) + Filter(slots, InPool(PostPv, tomorrow, pv)));
    PoolsCoverIncluded(slots, tomorrow, pv);
  }

  /** Each eligible slot is marked pre-PV by its start exactly when it
      belongs to the pre-PV pool. */
  lemma EligiblePrePvMarking(slots: seq<Slot>, pv: PvWindow, s: Slot)
    requires s in EligibleSlots(slots, pv)
    ensures s.start in PrePvStarts(slots, pv) <==> PoolOf(s.start, TomorrowDate(slots), pv) == PrePv
  {
    var tomorrow := TomorrowDate(slots);
    SortKeepsMembers(Filter(slots, InPool(PrePv, tomorrow, pv)) + Filter(slots, InPool(PostPv, tomorrow, pv)));
    PrePvByTimestamp(slots, tomorrow, pv, s);
  }

  /** Which status is reported: no purchase for a non-positive need,
      insufficient data for no slots, window too small exactly when every
      slot falls in tomorrow's PV hours, and a threshold otherwise; the
      threshold and the metadata agree, and at most the eligible slots are
      used. */
  lemma OptimalBuyThresholdStatus(slots: seq<Slot>, energyToBuy: real, caps: Caps, pv: PvWindow)
    ensures var (threshold, meta) := OptimalBuyThreshold(slots, energyToBuy, caps, pv);
      && meta.threshold == threshold
      && meta.energyToBuy == energyToBuy
      && (meta.status == NoPurchaseNeeded <==> energyToBuy <= 0.0)
      && (meta.status == InsufficientData <==> energyToBuy > 0.0 && slots == [])
      && (meta.status == WindowTooSmall <==>
            energyToBuy > 0.0 && slots != []
            && forall i :: 0 <= i < |slots| ==> PoolOf(slots[i].start, TomorrowDate(slots), pv) == Excluded)
      && (meta.status != Ok ==> threshold.None? && meta.eligibleCount == 0 && meta.allocatedCount == 0 && meta.energyRemaining.None?)
      && (meta.status == Ok ==> meta.eligibleCount == |EligibleSlots(slots, pv)| > 0 && meta.energyRemaining.Some?)
      && meta.allocatedCount <= meta.eligibleCount
  {
    var eligible := EligibleSlots(slots, pv);
    NoEligibleIffAllExcluded(slots, pv);
    if energyToBuy > 0.0 && slots != [] && eligible != [] {
      AllocationAccounting(eligible, PrePvStarts(slots, pv), energyToBuy, caps);
    }
  }

  /** No slot is eligible exactly when every slot is excluded. */
  lemma NoEligibleIffAllExcluded(slots: seq<Slot>, pv: PvWindow)
    ensures EligibleSlots(slots, pv) == [] <==>
      forall i :: 0 <= i < |slots| ==> PoolOf(slots[i].start, TomorrowDate(slots), pv) == Excluded
  {
    var tomorrow := TomorrowDate(slots);
    var eligible := EligibleSlots(slots, pv);
    EligibleSlotsExact(slots, pv);
    if eligible == [] {
      forall i | 0 <= i < |slots|
        ensures PoolOf(slots[i].start, tomorrow, pv) == Excluded
      {
        assert slots[i] !in eligible;
      }
    } else {
      assert eligible[0] in eligible;
    }
  }

  /** The allocation behind a reported threshold: amounts per eligible slot
      within the per-slot limit, adding up with what remains to the need,
      pre-PV purchases within the before-PV cap, a slot count that counts the
      slots bought from, and a threshold that is at least every price paid
      and is the price of a slot bought from. */
  lemma OptimalBuyThresholdAllocation(slots: seq<Slot>, energyToBuy: real, caps: Caps, pv: PvWindow)
    requires OptimalBuyThreshold(slots, energyToBuy, caps, pv).1.status == Ok
    ensures var r := OptimalBuyThreshold(slots, energyToBuy, caps, pv);
      var eligible := EligibleSlots(slots, pv);
      var amounts := Amounts(eligible, 0, Greedy(energyToBuy, 0.0, 0, None), PrePvStarts(slots, pv), caps);
      && |amounts| == |eligible|
      && (forall j :: 0 <= j < |amounts| ==> amounts[j] == 0.0 || 0.0 < amounts[j] <= caps.perSlot)
      && r.1.energyRemaining == Some(energyToBuy - Sum(amounts))
      && energyToBuy - Sum(amounts) >= 0.0
      && PreSum(eligible, PrePvStarts(slots, pv), amounts) <= Max0(caps.beforePv)
      && r.1.allocatedCount == CountBought(amounts)
      && (r.0.None? <==> r.1.allocatedCount == 0)
      && (r.0.Some? ==>
            (exists k :: 0 <= k < |amounts| && amounts[k] > 0.0 && r.0.value == eligible[k].price)
            && forall j :: 0 <= j < |amounts| && amounts[j] > 0.0 ==> eligible[j].price <= r.0.value)
      && (caps.perSlot > 0.0 && caps.beforePv >= energyToBuy ==>
            BoughtPrefix(amounts) && (r.1.energyRemaining == Some(0.0) || r.1.allocatedCount == |eligible|))
  {
    var eligible := EligibleSlots(slots, pv);
    var starts := PrePvStarts(slots, pv);
    var st := Run(eligible, 0, Greedy(energyToBuy, 0.0, 0, None), starts, caps);
    assert energyToBuy > 0.0 && slots != [] && eligible != [];
    assert OptimalBuyThreshold(slots, energyToBuy, caps, pv)
        == (st.lastPrice, Meta(Ok, energyToBuy, |eligible|, st.bought, st.lastPrice, Some(Max0(st.remaining))));
    AllocationAccounting(eligible, starts, energyToBuy, caps);
    AllocationThreshold(eligible, starts, energyToBuy, caps);
    if caps.perSlot > 0.0 && caps.beforePv >= energyToBuy {
      AllocationUncapped(eligible, starts, energyToBuy, caps);
    }
  }

  /** A single day of prices: nothing is excluded, everything is pre-PV, so
      the eligible slots are all the slots. */
  lemma SingleDateNoExclusion(slots: seq<Slot>, pv: PvWindow)
    requires TomorrowDate(slots).None?
    ensures multiset(EligibleSlots(slots, pv)) == multiset(slots)
    ensures PrePvStarts(slots, pv) == StartsOf(slots)
  {
    SingleDateAllPrePv(slots, pv);
    assert slots + [] == slots;
  }

  /** calculate_optimal_buy_threshold: the threshold and the metadata. */
  method CalculateOptimalBuyThreshold(
    slots: seq<Slot>, energyToBuy: real, maxPerSlot: real, maxBeforePv: real,
    pvForecast: real, pvStartHour: int, pvEndHour: int)
    returns (threshold: Option<real>, meta: Meta)
    ensures (threshold, meta) == OptimalBuyThreshold(slots, energyToBuy, Caps(maxPerSlot, maxBeforePv), PvWindow(pvForecast, pvStartHour, pvEndHour))
  {
    if energyToBuy <= 0.0 {
      return None, Meta(NoPurchaseNeeded, energyToBuy, 0, 0, None, None);
    }
    if slots == [] {
      return None, Meta(InsufficientData, energyToBuy, 0, 0, None, None);
    }
    var pv := PvWindow(pvForecast, pvStartHour, pvEndHour);
    var tomorrow := TomorrowDate(slots);
    var pre, post := Partition(slots, tomorrow, pv);
    var eligible := SortByPrice(pre + post);
    if eligible == [] {
      return None, Meta(WindowTooSmall, energyToBuy, 0, 0, None, None);
    }
    var st := Allocate(eligible, StartsOf(pre), energyToBuy, Caps(maxPerSlot, maxBeforePv));
    threshold := st.lastPrice;
    meta := Meta(Ok, energyToBuy, |eligible|, st.bought, threshold, Some(Max0(st.remaining)));
  }
}
