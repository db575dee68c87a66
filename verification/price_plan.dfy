/** The 96-slot price plan: per-input prices are stretched to quarter-hour
    slots, and "price below threshold" (optionally inverted) is packed into
    six 16-bit registers, least significant bit first. */
module PricePlan {

  const SLOTS_PER_DAY: nat := 96
  const REGISTER_COUNT: nat := 6

  /** How many quarter-hour slots one input price covers: max(1, minutes // 15). */
  function BitsPerInput(slotMinutes: int): (n: nat)
    ensures n >= 1
    ensures slotMinutes >= 15 ==> n == slotMinutes / 15
  {
    if slotMinutes / 15 > 1 then slotMinutes / 15 else 1
  }

  /** `[x] * n` */
  function Copies(x: real, n: nat): (c: seq<real>)
    ensures |c| == n && forall i :: 0 <= i < n ==> c[i] == x
  {
    seq(n, _ => x)
  }

  /** Every price repeated `n` times, in order. */
  function Repeat(prices: seq<real>, n: nat): seq<real>
  {
    if prices == [] then [] else Repeat(prices[..|prices| - 1], n) + Copies(prices[|prices| - 1], n)
  }

  /** Zero-padded or truncated to one day of slots. */
  function Fit(e: seq<real>): (r: seq<real>)
    ensures |r| == SLOTS_PER_DAY
  {
    if |e| < SLOTS_PER_DAY then e + Copies(0.0, SLOTS_PER_DAY - |e|) else e[..SLOTS_PER_DAY]
  }

  /** The per-slot prices the mask is built from. */
  function Expanded(prices: seq<real>, slotMinutes: int): seq<real>
  {
    Fit(Repeat(prices, BitsPerInput(slotMinutes)))
  }

  /** A slot's bit: strictly below the threshold, inverted when `flip`. */
  predicate Favourable(price: real, threshold: real, flip: bool)
  {
    (price < threshold) != flip
  }

  /** Bit `b` (0 = least significant) of a register. */
  predicate IsSet(w: bv16, b: bv4)
  {
    (w >> b) & 1 == 1
  }

  /** The slot that bit `b` of register `w` stands for. */
  function SlotOf(w: int, b: bv4): int
  {
    16 * w + b as int
  }

  /** `regs` encodes the 96 slot prices: bit b of register w is the bit of
      slot 16 * w + b. */
  ghost predicate MaskOf(regs: seq<bv16>, expanded: seq<real>, threshold: real, flip: bool)
  {
    && |regs| == REGISTER_COUNT
    && |expanded| == SLOTS_PER_DAY
    && forall w, b: bv4 :: 0 <= w < REGISTER_COUNT ==>
         (IsSet(regs[w], b) <==> Favourable(expanded[SlotOf(w, b)], threshold, flip))
  }

  // ---------------------------------------------------------------------
  // Expansion.

  lemma {:induction false} RepeatLength(prices: seq<real>, n: nat)
    ensures |Repeat(prices, n)| == n * |prices|
  {
    if prices != [] {
      RepeatLength(prices[..|prices| - 1], n);
      assert n * |prices| == n * (|prices| - 1) + n;
    }
  }

  lemma MultiplyMonotone(n: int, a: int, b: int)
    requires n >= 0 && a <= b
    ensures n * a <= n * b
  {
  }

  /** Copy j of input price k sits at n * k + j. */
  lemma {:induction false} RepeatAt(prices: seq<real>, n: nat, k: nat, j: nat)
    requires k < |prices| && j < n
    ensures n * k + j < |Repeat(prices, n)|
    ensures Repeat(prices, n)[n * k + j] == prices[k]
  {
    var last := |prices| - 1;
    var init := prices[..last];
    RepeatLength(prices, n);
    RepeatLength(init, n);
    MultiplyMonotone(n, k, last);
    if k < last {
      MultiplyMonotone(n, k + 1, last);
      RepeatAt(init, n, k, j);
    }
  }

  /** Copy j of input price k sits in expanded slot n * k + j. */
  lemma ExpandedAt(prices: seq<real>, slotMinutes: int, k: nat, j: nat)
    requires k < |prices| && j < BitsPerInput(slotMinutes)
    requires BitsPerInput(slotMinutes) * k + j < SLOTS_PER_DAY
    ensures Expanded(prices, slotMinutes)[BitsPerInput(slotMinutes) * k + j] == prices[k]
  {
    var n := BitsPerInput(slotMinutes);
    RepeatAt(prices, n, k, j);
    FitAt(Repeat(prices, n), n * k + j);
  }

  /** Slots past the copies of the inputs hold 0.0. */
  lemma ExpandedPadding(prices: seq<real>, slotMinutes: int, i: nat)
    requires BitsPerInput(slotMinutes) * |prices| <= i < SLOTS_PER_DAY
    ensures Expanded(prices, slotMinutes)[i] == 0.0
  {
    var n := BitsPerInput(slotMinutes);
    RepeatLength(prices, n);
    FitAt(Repeat(prices, n), i);
  }

  /** Fitting keeps the slots that exist and pads with 0.0. */
  lemma FitAt(e: seq<real>, i: nat)
    requires i < SLOTS_PER_DAY
    ensures Fit(e)[i] == if i < |e| then e[i] else 0.0
  {
  }

  /** With 24 hourly prices, input h decides the four slots 4h .. 4h+3. */
  lemma HourlyPricesCoverFourSlots(prices: seq<real>, h: nat, q: nat)
    requires |prices| == 24 && h < 24 && q < 4
    ensures Expanded(prices, 60)[4 * h + q] == prices[h]
  {
    ExpandedAt(prices, 60, h, q);
  }

  // ---------------------------------------------------------------------
  // Bits.

  lemma SetBitEffect(x: bv16, b: bv4, c: bv4)
    ensures IsSet(x | (1 << b), c) <==> IsSet(x, c) || b == c
  {
  }

  lemma ComplementBit(x: bv16, b: bv4)
    ensures IsSet(0xFFFF - x, b) <==> !IsSet(x, b)
  {
  }

  /** A register is determined by its 16 bits. */
  lemma BitsDetermineRegister(x: bv16, y: bv16)
    requires IsSet(x, 0) == IsSet(y, 0) && IsSet(x, 1) == IsSet(y, 1)
    requires IsSet(x, 2) == IsSet(y, 2) && IsSet(x, 3) == IsSet(y, 3)
    requires IsSet(x, 4) == IsSet(y, 4) && IsSet(x, 5) == IsSet(y, 5)
    requires IsSet(x, 6) == IsSet(y, 6) && IsSet(x, 7) == IsSet(y, 7)
    requires IsSet(x, 8) == IsSet(y, 8) && IsSet(x, 9) == IsSet(y, 9)
    requires IsSet(x, 10) == IsSet(y, 10) && IsSet(x, 11) == IsSet(y, 11)
    requires IsSet(x, 12) == IsSet(y, 12) && IsSet(x, 13) == IsSet(y, 13)
    requires IsSet(x, 14) == IsSet(y, 14) && IsSet(x, 15) == IsSet(y, 15)
    ensures x == y
  {
  }

  lemma SameBitsSameRegister(x: bv16, y: bv16)
    requires forall b: bv4 :: IsSet(x, b) <==> IsSet(y, b)
    ensures x == y
  {
    BitsDetermineRegister(x, y);
  }

  /** Slot i is bit i % 16 of register i / 16, and no other bit. */
  lemma SlotOfIndex(i: nat, b: bv4)
    ensures SlotOf(i / 16, b) == i <==> b == (i % 16) as bv4
  {
  }

  // ---------------------------------------------------------------------
  // The encoder.

  /** The expansion step of build_mask: every price repeated once per
      quarter hour it covers, then zero-padded or truncated to 96 slots. */
  method ExpandPrices(prices: seq<real>, slotMinutes: int) returns (expanded: seq<real>)
    ensures expanded == Expanded(prices, slotMinutes)
  {
    var bitsPerInput := if slotMinutes / 15 > 1 then slotMinutes / 15 else 1;
    expanded := [];
    for k := 0 to |prices|
      invariant expanded == Repeat(prices[..k], bitsPerInput)
    {
      assert prices[..k + 1][..k] == prices[..k];
      expanded := expanded + Copies(prices[k], bitsPerInput);
    }
    assert prices[..|prices|] == prices;
    if |expanded| < SLOTS_PER_DAY {
      expanded := expanded + Copies(0.0, SLOTS_PER_DAY - |expanded|);
    }
    expanded := expanded[..SLOTS_PER_DAY];
  }

  /** The registers hold the bits of the slots before `i`, and no others. */
  ghost predicate PackedUpTo(words: seq<bv16>, expanded: seq<real>, threshold: real, flip: bool, i: int)
  {
    && |words| == REGISTER_COUNT
    && |expanded| == SLOTS_PER_DAY
    && forall w, b: bv4 :: 0 <= w < REGISTER_COUNT ==>
         (IsSet(words[w], b) <==> SlotOf(w, b) < i && Favourable(expanded[SlotOf(w, b)], threshold, flip))
  }

  /** The registers after slot i's bit is set, when its price is favourable. */
  ghost function WithSlot(words: seq<bv16>, i: nat, favourable: bool): seq<bv16>
    requires i / 16 < |words|
  {
    if favourable then words[i / 16 := words[i / 16] | (1 << (i % 16) as bv4)] else words
  }

  lemma PackStep(words: seq<bv16>, expanded: seq<real>, threshold: real, flip: bool, i: nat)
    requires i < SLOTS_PER_DAY && PackedUpTo(words, expanded, threshold, flip, i)
    ensures PackedUpTo(WithSlot(words, i, Favourable(expanded[i], threshold, flip)), expanded, threshold, flip, i + 1)
  {
    var after := WithSlot(words, i, Favourable(expanded[i], threshold, flip));
    forall w, b: bv4 | 0 <= w < REGISTER_COUNT
      ensures IsSet(after[w], b) <==> SlotOf(w, b) < i + 1 && Favourable(expanded[SlotOf(w, b)], threshold, flip)
    {
      SlotOfIndex(i, b);
      if w == i / 16 && Favourable(expanded[i], threshold, flip) {
        SetBitEffect(words[w], (i % 16) as bv4, b);
      }
    }
  }

  /** The packing step of build_mask: slot i sets bit i % 16 of register
      i / 16 when its price is favourable. */
  method PackBits(expanded: seq<real>, threshold: real, flip: bool) returns (regs: seq<bv16>)
    requires |expanded| == SLOTS_PER_DAY
    ensures MaskOf(regs, expanded, threshold, flip)
  {
    var words := new bv16[REGISTER_COUNT](_ => 0);
    for i := 0 to SLOTS_PER_DAY
      invariant PackedUpTo(words[..], expanded, threshold, flip, i)
    {
      var isSet := expanded[i] < threshold;
      if flip {
        isSet := !isSet;
      }
      PackStep(words[..], expanded, threshold, flip, i);
      ghost var next := WithSlot(words[..], i, isSet);
      if isSet {
        words[i / 16] := words[i / 16] | (1 << (i % 16) as bv4);
      }
      assert words[..] == next;
    }
    regs := words[..];
  }

  /** build_mask: six registers whose bits describe the 96 expanded slots. */
  method BuildMask(prices: seq<real>, threshold: real, flip: bool, slotMinutes: int) returns (regs: seq<bv16>)
    ensures MaskOf(regs, Expanded(prices, slotMinutes), threshold, flip)
  {
    var expanded := ExpandPrices(prices, slotMinutes);
    regs := PackBits(expanded, threshold, flip);
  }

  // ---------------------------------------------------------------------
  // Properties of the encoding.

  /** The encoding is a function of the slot prices: one register list fits. */
  lemma MaskUnique(r1: seq<bv16>, r2: seq<bv16>, expanded: seq<real>, threshold: real, flip: bool)
    requires MaskOf(r1, expanded, threshold, flip) && MaskOf(r2, expanded, threshold, flip)
    ensures r1 == r2
  {
    forall w | 0 <= w < REGISTER_COUNT
      ensures r1[w] == r2[w]
    {
      SameBitsSameRegister(r1[w], r2[w]);
    }
  }

  /** Flipping complements every register: 65535 minus the unflipped value. */
  lemma FlipComplements(regs: seq<bv16>, flipped: seq<bv16>, expanded: seq<real>, threshold: real)
    requires MaskOf(regs, expanded, threshold, false) && MaskOf(flipped, expanded, threshold, true)
    ensures forall w :: 0 <= w < REGISTER_COUNT ==> flipped[w] == 0xFFFF - regs[w]
  {
    forall w | 0 <= w < REGISTER_COUNT
      ensures flipped[w] == 0xFFFF - regs[w]
    {
      forall b: bv4
        ensures IsSet(flipped[w], b) <==> IsSet(0xFFFF - regs[w], b)
      {
        ComplementBit(regs[w], b);
      }
      SameBitsSameRegister(flipped[w], 0xFFFF - regs[w]);
    }
  }

  /** The comparison is strict: a slot priced exactly at the threshold gets
      a clear bit unless flipped, a set bit when flipped. */
  lemma ThresholdPriceBit(regs: seq<bv16>, prices: seq<real>, threshold: real, flip: bool, slotMinutes: int, i: nat)
    requires MaskOf(regs, Expanded(prices, slotMinutes), threshold, flip)
    requires i < SLOTS_PER_DAY && Expanded(prices, slotMinutes)[i] == threshold
    ensures IsSet(regs[i / 16], (i % 16) as bv4) == flip
  {
    SlotOfIndex(i, (i % 16) as bv4);
  }

  /** Slots past the inputs are priced 0.0: with a positive threshold their
      bits are set unless flipped. */
  lemma PaddingBits(regs: seq<bv16>, prices: seq<real>, threshold: real, flip: bool, slotMinutes: int, i: nat)
    requires MaskOf(regs, Expanded(prices, slotMinutes), threshold, flip)
    requires BitsPerInput(slotMinutes) * |prices| <= i < SLOTS_PER_DAY && threshold > 0.0
    ensures IsSet(regs[i / 16], (i % 16) as bv4) == !flip
  {
    ExpandedPadding(prices, slotMinutes, i);
    SlotOfIndex(i, (i % 16) as bv4);
  }
}
