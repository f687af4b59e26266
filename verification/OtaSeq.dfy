/** Sequence numbers of the boot selection record: which OTA slot a number stands for, and how the next number for
    a requested slot is found without a search. All arithmetic of the firmware is modulo 2^32. */
module OtaSeq {
  import opened Lists
  import opened Numbers

  const UINT32_MAX: nat := 0xFFFF_FFFF

  /** The number of OTA slots is an 8-bit count. */
  const MAX_APP_COUNT: nat := 255

  /** The slot a sequence number stands for; 0 and 2^32 - 1 stand for none. */
  function SlotFromSeq(otaSeq: uint32, count: nat): (slot: Option<nat>)
    ensures slot.Some? ==> slot.value < count
  {
    if count == 0 then None
    else if otaSeq == UINT32_MAX || otaSeq == 0 then None
    else Some((otaSeq - 1) % count)
  }

  function Base(slot: nat, count: nat): (b: nat)
    requires slot < count
    ensures b < count
  {
    (slot + 1) % count
  }

  /** How many times `count` is added to the base. */
  function Steps(current: uint32, base: nat, count: nat): nat
    requires base < count <= MAX_APP_COUNT
  {
    if current < base then 0 else AsUint32(AsUint32(current - base) + count) / count
  }

  /** The number the firmware computes, in constant time and in 32-bit arithmetic. */
  function NextSeq(current: uint32, slot: nat, count: nat): uint32
    requires slot < count <= MAX_APP_COUNT
  {
    AsUint32(Base(slot, count) + Steps(current, Base(slot, count), count) * count)
  }

  /** What it is meant to be: the first of base, base + count, base + 2 * count, ... above `current`, found by
      trying one after the other in unbounded arithmetic. */
  function FirstAbove(current: nat, candidate: nat, count: nat): (r: nat)
    requires count > 0
    ensures r > current && r >= candidate
    ensures candidate <= current + count ==> r <= current + count
    decreases current + 1 - candidate
  {
    if candidate > current then candidate else FirstAbove(current, candidate + count, count)
  }

  function IdealNext(current: nat, slot: nat, count: nat): (r: nat)
    requires slot < count
    ensures current < r <= current + count
  {
    FirstAbove(current, Base(slot, count), count)
  }

  lemma MulBounds(d: int, m: int)
    requires m > 0
    ensures d >= 1 ==> d * m >= m
    ensures d <= -1 ==> d * m <= -m
  {
    if d >= 1 {
      assert d * m == m + (d - 1) * m;
    } else if d <= -1 {
      assert d * m == -m + (d + 1) * m;
    }
  }

  lemma DivModUnique(x: nat, q: nat, r: nat, m: nat)
    requires m > 0 && r < m && x == q * m + r
    ensures x / m == q && x % m == r
  {
    var d := x / m - q;
    assert x == (x / m) * m + x % m;
    assert d * m == r - x % m;
    MulBounds(d, m);
  }

  lemma AddMod(x: nat, m: nat)
    requires m > 0
    ensures (x + m) % m == x % m && (x + m) / m == x / m + 1
  {
    var q, r := x / m, x % m;
    assert x == q * m + r;
    assert (q + 1) * m == q * m + m;
    DivModUnique(x + m, q + 1, r, m);
  }

  lemma {:induction false} FirstAboveKeepsResidue(current: nat, candidate: nat, count: nat)
    requires count > 0
    ensures FirstAbove(current, candidate, count) % count == candidate % count
    decreases current + 1 - candidate
  {
    if candidate <= current {
      FirstAboveKeepsResidue(current, candidate + count, count);
      AddMod(candidate, count);
    }
  }

  lemma PredecessorMod(n: nat, m: nat)
    requires m > 0 && n > 0
    ensures n % m > 0 ==> (n - 1) % m == n % m - 1
    ensures n % m == 0 ==> (n - 1) % m == m - 1
  {
    var q, r := n / m, n % m;
    assert n == q * m + r;
    if r > 0 {
      DivModUnique(n - 1, q, r - 1, m);
    } else {
      assert q > 0;
      assert (q - 1) * m == q * m - m;
      DivModUnique(n - 1, q - 1, m - 1, m);
    }
  }

  lemma SmallMod(x: nat, m: nat)
    requires x < m
    ensures x % m == x
  {
  }

  lemma BaseCases(slot: nat, count: nat)
    requires slot < count
    ensures Base(slot, count) == if slot + 1 < count then slot + 1 else 0
  {
    if slot + 1 < count { SmallMod(slot + 1, count); } else { DivModUnique(slot + 1, 1, 0, count); }
  }

  /** The ideal next number belongs to the requested slot. */
  lemma IdealNextHasSlot(current: nat, slot: nat, count: nat)
    requires slot < count
    ensures (IdealNext(current, slot, count) - 1) % count == slot
  {
    var n, base := IdealNext(current, slot, count), Base(slot, count);
    FirstAboveKeepsResidue(current, base, count);
    SmallMod(base, count);
    BaseCases(slot, count);
    PredecessorMod(n, count);
  }

  lemma {:induction false} FirstAboveClosedForm(current: nat, candidate: nat, count: nat)
    requires count > 0 && candidate <= current
    ensures FirstAbove(current, candidate, count) == candidate + ((current - candidate + count) / count) * count
    decreases current - candidate
  {
    var d := current - candidate;
    if candidate + count > current {
      DivModUnique(d + count, 1, d, count);
    } else {
      FirstAboveClosedForm(current, candidate + count, count);
      AddMod(d, count);
      var q := d / count;
      assert (q + 1) * count == q * count + count;
    }
  }

  /** The intermediate sum of the constant-time formula stays within 32 bits. */
  predicate SumFits(current: uint32, slot: nat, count: nat)
    requires slot < count
  {
    current < Base(slot, count) || current - Base(slot, count) + count < UINT32_MOD
  }

  lemma NextSeqWhenSumFits(current: uint32, slot: nat, count: nat)
    requires slot < count <= MAX_APP_COUNT && SumFits(current, slot, count)
    ensures NextSeq(current, slot, count) == AsUint32(IdealNext(current, slot, count))
  {
    var base := Base(slot, count);
    if current >= base {
      FirstAboveClosedForm(current, base, count);
      var i := (current - base + count) / count;
      assert Steps(current, base, count) == i;
      assert IdealNext(current, slot, count) == base + i * count;
    }
  }

  lemma NextSeqWhenSumWraps(current: uint32, slot: nat, count: nat)
    requires slot < count <= MAX_APP_COUNT && !SumFits(current, slot, count)
    ensures NextSeq(current, slot, count) == Base(slot, count) <= current
  {
    var base := Base(slot, count);
    var s := AsUint32(current - base + count);
    assert AsUint32(AsUint32(current - base) + count) == s < count;
    DivModUnique(s, 0, s, count);
  }

  /** Away from the end of the range the formula gives the first number above the current one that belongs to the
      requested slot, at most `count` further on, without overflow. */
  lemma NextSeqIsFirstAbove(current: uint32, slot: nat, count: nat)
    requires slot < count <= MAX_APP_COUNT
    requires current + count < UINT32_MAX
    ensures var n := NextSeq(current, slot, count);
            && n == IdealNext(current, slot, count)
            && current < n <= current + count
            && SlotFromSeq(n, count) == Some(slot)
  {
    NextSeqWhenSumFits(current, slot, count);
    IdealNextHasSlot(current, slot, count);
  }

  /** The exact range: the new number is usable and above the current one if and only if the ideal number is below
      2^32 - 1 and the intermediate sum does not overflow. */
  lemma NextSeqAdvancesIff(current: uint32, slot: nat, count: nat)
    requires slot < count <= MAX_APP_COUNT
    ensures var n := NextSeq(current, slot, count);
            n > current && n != UINT32_MAX
            <==> SumFits(current, slot, count) && IdealNext(current, slot, count) < UINT32_MAX
  {
    if SumFits(current, slot, count) {
      NextSeqWhenSumFits(current, slot, count);
      var ideal := IdealNext(current, slot, count);
      assert ideal >= UINT32_MOD ==> AsUint32(ideal) == ideal - UINT32_MOD;
    } else {
      NextSeqWhenSumWraps(current, slot, count);
    }
  }

  /** With a larger partition table the overflow of the sum matters: with seven slots the ideal number still fits, but
      the formula yields 0. */
  lemma SumOverflowExample()
    ensures IdealNext(UINT32_MOD - 7, 6, 7) < UINT32_MAX && NextSeq(UINT32_MOD - 7, 6, 7) == 0
  {
    FirstAboveClosedForm(UINT32_MOD - 7, 0, 7);
  }

  /** With the two slots of this gateway it does not: the sum overflows only if there is no usable number left, so the
      new number is usable and above the current one exactly if the ideal one is below 2^32 - 1. */
  lemma TwoSlotsNeverOverflow(current: uint32, slot: nat)
    requires slot < 2
    ensures IdealNext(current, slot, 2) < UINT32_MAX ==> SumFits(current, slot, 2)
    ensures NextSeq(current, slot, 2) > current && NextSeq(current, slot, 2) != UINT32_MAX
       <==> IdealNext(current, slot, 2) < UINT32_MAX
  {
    NextSeqAdvancesIff(current, slot, 2);
  }
}
