/** The Long Count: a mixed-radix count of days since 0.0.0.0.0 with place
    values 144000 (baktun), 7200 (katun), 360 (tun), 20 (uinal) and 1 (kin). */
module LongCountCalendar {

  datatype LongCount = LongCount(baktun: int, katun: int, tun: int, uinal: int, kin: int)

  /** Digits in range: katun and tun count to 20, uinal to 18, kin to 20;
      the baktun is unbounded above. */
  predicate WellFormed(lc: LongCount) {
    && lc.baktun >= 0
    && 0 <= lc.katun < 20
    && 0 <= lc.tun < 20
    && 0 <= lc.uinal < 18
    && 0 <= lc.kin < 20
  }

  /** The number of days a Long Count denotes. */
  function Days(lc: LongCount): int {
    lc.baktun * 144000 + lc.katun * 7200 + lc.tun * 360 + lc.uinal * 20 + lc.kin
  }

  /** Decomposes a non-negative day offset, most significant unit first.
      The result is the unique well-formed Long Count denoting the offset. */
  function CalculateLongCount(offset: int): (lc: LongCount)
    requires offset >= 0
    ensures WellFormed(lc)
    ensures Days(lc) == offset
  {
    var lc := LongCount(offset / 144000, (offset % 144000) / 7200, (offset % 7200) / 360,
                        (offset % 360) / 20, offset % 20);
    DecomposeLemma(offset);
    lc
  }

  /** The five digit equations that make the decomposition add back up. */
  lemma DecomposeLemma(offset: int)
    requires offset >= 0
    ensures (offset % 144000) / 7200 < 20
    ensures (offset % 7200) / 360 < 20
    ensures (offset % 360) / 20 < 18
    ensures offset / 144000 * 144000 + (offset % 144000) / 7200 * 7200
          + (offset % 7200) / 360 * 360 + (offset % 360) / 20 * 20 + offset % 20 == offset
  {
    var b, r1 := offset / 144000, offset % 144000;
    var k, r2 := r1 / 7200, r1 % 7200;
    var t, r3 := r2 / 360, r2 % 360;
    var u, r4 := r3 / 20, r3 % 20;
    assert offset == b * 144000 + r1;
    assert r1 == k * 7200 + r2;
    assert r2 == t * 360 + r3;
    assert r3 == u * 20 + r4;
    assert offset % 7200 == r2 by { ModOfMultiple(offset, b * 20 + k, 7200, r2); }
    assert offset % 360 == r3 by { ModOfMultiple(offset, (b * 20 + k) * 20 + t, 360, r3); }
    assert offset % 20 == r4 by { ModOfMultiple(offset, ((b * 20 + k) * 20 + t) * 18 + u, 20, r4); }
  }

  /** Division by a place value is determined by any quotient/remainder pair. */
  lemma ModOfMultiple(x: int, q: int, d: int, r: int)
    requires d == 7200 || d == 360 || d == 20
    requires 0 <= r < d
    requires x == q * d + r
    ensures x % d == r && x / d == q
  {
  }

  /** The other half of the round trip: every well-formed Long Count is what
      its own day count decomposes into, so the decomposition is a bijection
      between offsets and well-formed Long Counts. */
  lemma {:induction false} DecomposeDays(lc: LongCount)
    requires WellFormed(lc)
    ensures CalculateLongCount(Days(lc)) == lc
  {
    var n := Days(lc);
    var r1 := lc.katun * 7200 + lc.tun * 360 + lc.uinal * 20 + lc.kin;
    var r2 := lc.tun * 360 + lc.uinal * 20 + lc.kin;
    var r3 := lc.uinal * 20 + lc.kin;
    assert n % 144000 == r1 && n / 144000 == lc.baktun by {
      assert 0 <= r1 < 144000;
      assert n == lc.baktun * 144000 + r1;
    }
    ModOfMultiple(n, lc.baktun * 20 + lc.katun, 7200, r2);
    ModOfMultiple(r1, lc.katun, 7200, r2);
    ModOfMultiple(n, (lc.baktun * 20 + lc.katun) * 20 + lc.tun, 360, r3);
    ModOfMultiple(r2, lc.tun, 360, r3);
    ModOfMultiple(n, ((lc.baktun * 20 + lc.katun) * 20 + lc.tun) * 18 + lc.uinal, 20, lc.kin);
    ModOfMultiple(r3, lc.uinal, 20, lc.kin);
  }

  /** Two offsets share a Long Count only if they are the same offset. */
  lemma LongCountInjective(o1: int, o2: int)
    requires o1 >= 0 && o2 >= 0
    ensures CalculateLongCount(o1) == CalculateLongCount(o2) <==> o1 == o2
  {
  }

  /** The count of the next day: add one kin and carry through the places. */
  function NextLongCount(lc: LongCount): LongCount {
    if lc.kin < 19 then lc.(kin := lc.kin + 1)
    else if lc.uinal < 17 then lc.(uinal := lc.uinal + 1, kin := 0)
    else if lc.tun < 19 then lc.(tun := lc.tun + 1, uinal := 0, kin := 0)
    else if lc.katun < 19 then lc.(katun := lc.katun + 1, tun := 0, uinal := 0, kin := 0)
    else LongCount(lc.baktun + 1, 0, 0, 0, 0)
  }

  /** Carrying keeps the digits in range and adds exactly one day. */
  lemma NextLongCountSound(lc: LongCount)
    requires WellFormed(lc)
    ensures WellFormed(NextLongCount(lc))
    ensures Days(NextLongCount(lc)) == Days(lc) + 1
  {
  }

  /** Each day advances the Long Count by one kin with carries. */
  lemma {:induction false} LongCountStep(offset: int)
    requires offset >= 0
    ensures CalculateLongCount(offset + 1) == NextLongCount(CalculateLongCount(offset))
  {
    var lc := CalculateLongCount(offset);
    NextLongCountSound(lc);
    DecomposeDays(NextLongCount(lc));
  }

  /** 0.0.0.0.0 is the creation date itself. */
  lemma LongCountAtEpoch()
    ensures CalculateLongCount(0) == LongCount(0, 0, 0, 0, 0)
    ensures CalculateLongCount(1) == LongCount(0, 0, 0, 0, 1)
  {
    DecomposeDays(LongCount(0, 0, 0, 0, 0));
    DecomposeDays(LongCount(0, 0, 0, 0, 1));
  }

  /** Reference definition: start at 0.0.0.0.0 and count offset days forward. */
  function LongCountByCounting(offset: nat): LongCount {
    if offset == 0 then LongCount(0, 0, 0, 0, 0)
    else NextLongCount(LongCountByCounting(offset - 1))
  }

  /** The closed-form decomposition agrees with counting days one by one. */
  lemma {:induction false} LongCountMatchesCounting(offset: nat)
    ensures CalculateLongCount(offset) == LongCountByCounting(offset)
  {
    if offset == 0 {
      LongCountAtEpoch();
    } else {
      LongCountMatchesCounting(offset - 1);
      CountingStep(offset);
    }
  }

  /** One induction step of LongCountMatchesCounting. */
  lemma CountingStep(offset: nat)
    requires offset >= 1
    requires CalculateLongCount(offset - 1) == LongCountByCounting(offset - 1)
    ensures CalculateLongCount(offset) == LongCountByCounting(offset)
  {
    LongCountStep(offset - 1);
  }
}
