/** The Tzolkʼin: a 260-day ritual count pairing a number cycling through
    1..13 with a day name cycling through the twenty TzolkinNames. */
module TzolkinCalendar {
  import opened MayanTables

  datatype Tzolkin = Tzolkin(number: int, name: string)

  /** A number in 1..13 and a name from the table. */
  predicate WellFormed(t: Tzolkin) {
    1 <= t.number <= 13 && t.name in TzolkinNames
  }

  /** The Tzolkʼin of a non-negative day offset. The constants +3 and +19
      calibrate offset 0 to 4 Ajaw. */
  function CalculateTzolkin(offset: int): (t: Tzolkin)
    requires offset >= 0
    ensures WellFormed(t)
  {
    var number := (offset + 3) % 13 + 1;
    var nameIndex := (offset + 19) % 20;
    Tzolkin(number, TzolkinNames[nameIndex])
  }

  /** Position of a well-formed Tzolkʼin's name in the table. */
  ghost function NameIndex(t: Tzolkin): (i: nat)
    requires WellFormed(t)
    ensures i < 20 && TzolkinNames[i] == t.name
  {
    var i :| 0 <= i < 20 && TzolkinNames[i] == t.name; i
  }

  /** The day after: the number advances 13 -> 1 and the name advances to the
      next table entry, wrapping from Ajaw back to Imix. */
  ghost function NextTzolkin(t: Tzolkin): (r: Tzolkin)
    requires WellFormed(t)
    ensures WellFormed(r)
  {
    var i := NameIndex(t);
    Tzolkin(if t.number == 13 then 1 else t.number + 1, TzolkinNames[if i == 19 then 0 else i + 1])
  }

  /** The name a deriver picks sits at the index it computed. */
  lemma NameIndexOfCalculated(offset: int)
    requires offset >= 0
    ensures NameIndex(CalculateTzolkin(offset)) == (offset + 19) % 20
  {
    TzolkinNamesDistinct();
  }

  /** Each day advances the number by one (mod 13) and the name by one (mod 20). */
  lemma TzolkinStep(offset: int)
    requires offset >= 0
    ensures CalculateTzolkin(offset + 1) == NextTzolkin(CalculateTzolkin(offset))
  {
    NameIndexOfCalculated(offset);
    ModSucc(offset + 3, 13);
    ModSucc(offset + 19, 20);
  }

  /** The creation date is 4 Ajaw, and the day after it 5 Imix. */
  lemma TzolkinAtEpoch()
    ensures CalculateTzolkin(0) == Tzolkin(4, "Ajaw")
    ensures CalculateTzolkin(1) == Tzolkin(5, "Imix")
  {
    assert (0 + 19) % 20 == 19 && TzolkinNames[19] == "Ajaw";
    assert (1 + 19) % 20 == 0 && TzolkinNames[0] == "Imix";
  }

  /** Reference definition: start at 4 Ajaw and step offset days forward. */
  ghost function TzolkinByCounting(offset: nat): (t: Tzolkin)
    ensures WellFormed(t)
  {
    if offset == 0 then Tzolkin(4, "Ajaw") else NextTzolkin(TzolkinByCounting(offset - 1))
  }

  /** The closed form agrees with stepping day by day from the epoch. */
  lemma TzolkinMatchesCounting(offset: nat)
    ensures CalculateTzolkin(offset) == TzolkinByCounting(offset)
  {
    var k := 0;
    TzolkinAtEpoch();
    while k < offset
      invariant k <= offset
      invariant CalculateTzolkin(k) == TzolkinByCounting(k)
    {
      k := k + 1;
      TzolkinCountingStep(k);
    }
  }

  /** One step of TzolkinMatchesCounting. */
  lemma TzolkinCountingStep(offset: nat)
    requires offset >= 1
    requires CalculateTzolkin(offset - 1) == TzolkinByCounting(offset - 1)
    ensures CalculateTzolkin(offset) == TzolkinByCounting(offset)
  {
    TzolkinStep(offset - 1);
  }

  /** The pair repeats after 260 days. */
  lemma TzolkinPeriodic(offset: int)
    requires offset >= 0
    ensures CalculateTzolkin(offset + 260) == CalculateTzolkin(offset)
  {
    PeriodicBy(offset + 260, offset, 1);
  }

  /** The two components cycle on their own: the number every 13 days, the
      name every 20 days. */
  lemma TzolkinComponentPeriods(offset: int)
    requires offset >= 0
    ensures CalculateTzolkin(offset + 13).number == CalculateTzolkin(offset).number
    ensures CalculateTzolkin(offset + 20).name == CalculateTzolkin(offset).name
  {
    ShiftMod(offset + 3, 1, 13);
    ShiftMod(offset + 19, 1, 20);
  }

  /** Undoing the calibration constants preserves agreement of residues. */
  lemma ResidueShift(o1: int, o2: int)
    requires o1 >= 0 && o2 >= 0
    requires (o1 + 3) % 13 == (o2 + 3) % 13 && (o1 + 19) % 20 == (o2 + 19) % 20
    ensures o1 % 13 == o2 % 13 && o1 % 20 == o2 % 20
  {
    ModSub(o1, 3, 13);
    ModSub(o2, 3, 13);
    ModSub(o1, 19, 20);
    ModSub(o2, 19, 20);
  }

  /** The residue of x is recovered from the residue of x + c. */
  lemma ModSub(x: int, c: int, d: int)
    requires d == 13 || d == 20
    ensures x % d == ((x + c) % d - c) % d
  {
    var q, s := (x + c) / d, (x + c) % d;
    assert x == (s - c) + q * d;
    ShiftMod(s - c, q, d);
  }

  /** Adding c to x adds c to its residue, modulo d. */
  lemma ModOfSum(x: int, c: int, d: int)
    requires d == 13 || d == 20
    ensures (x + c) % d == (x % d + c) % d
  {
    ShiftMod(x % d + c, x / d, d);
  }

  /** The residue of a successor: count up, wrapping from d - 1 to 0. */
  lemma ModSucc(x: int, d: int)
    requires d == 13 || d == 20
    ensures (x + 1) % d == (if x % d == d - 1 then 0 else x % d + 1)
  {
    var q, r := x / d, x % d;
    if r == d - 1 {
      assert x + 1 == 0 + (q + 1) * d;
      ShiftMod(0, q + 1, d);
    } else {
      assert x + 1 == (r + 1) + q * d;
      ShiftMod(r + 1, q, d);
    }
  }

  /** Shifting by any whole number of 260-day cycles keeps the Tzolkʼin day. */
  lemma PeriodicBy(o1: int, o2: int, n: int)
    requires o1 >= 0 && o2 >= 0
    requires o1 == o2 + 260 * n
    ensures CalculateTzolkin(o1) == CalculateTzolkin(o2)
  {
    assert (o1 + 3) % 13 == (o2 + 3) % 13 by { ShiftMod(o2 + 3, 20 * n, 13); }
    assert (o1 + 19) % 20 == (o2 + 19) % 20 by { ShiftMod(o2 + 19, 13 * n, 20); }
  }

  /** Residues modulo 13 and modulo 20 together fix the residue modulo 260. */
  lemma ChineseRemainder(o1: int, o2: int)
    requires o1 >= 0 && o2 >= 0
    requires o1 % 13 == o2 % 13 && o1 % 20 == o2 % 20
    ensures o1 % 260 == o2 % 260
  {
    var r1, r2 := o1 % 260, o2 % 260;
    assert o1 == 260 * (o1 / 260) + r1;
    assert o2 == 260 * (o2 / 260) + r2;
    assert r1 % 13 == o1 % 13 by { ShiftMod(r1, o1 / 260 * 20, 13); }
    assert r2 % 13 == o2 % 13 by { ShiftMod(r2, o2 / 260 * 20, 13); }
    assert r1 % 20 == o1 % 20 by { ShiftMod(r1, o1 / 260 * 13, 20); }
    assert r2 % 20 == o2 % 20 by { ShiftMod(r2, o2 / 260 * 13, 20); }
    SmallResidues(r1, r2);
  }

  /** Adding whole multiples of d leaves the residue modulo d alone. The two
      divisors are proved separately, with d a literal: with d left symbolic
      the product q * d is nonlinear and the solver's search becomes
      expensive. The per-divisor lemmas in the Julian Day and Haab modules
      are split for the same reason. */
  lemma ShiftMod(x: int, q: int, d: int)
    requires d == 13 || d == 20
    ensures (x + q * d) % d == x % d
  {
    if d == 13 {
      ShiftMod13(x, q);
    } else {
      ShiftMod20(x, q);
    }
  }

  lemma ShiftMod13(x: int, q: int)
    ensures (x + q * 13) % 13 == x % 13
  {
    var k, r := x / 13, x % 13;
    assert x + q * 13 == (k + q) * 13 + r;
  }

  lemma ShiftMod20(x: int, q: int)
    ensures (x + q * 20) % 20 == x % 20
  {
    var k, r := x / 20, x % 20;
    assert x + q * 20 == (k + q) * 20 + r;
  }

  /** Two numbers below 260 agreeing modulo 13 and modulo 20 are equal. */
  lemma SmallResidues(r1: int, r2: int)
    requires 0 <= r1 < 260 && 0 <= r2 < 260
    requires r1 % 13 == r2 % 13 && r1 % 20 == r2 % 20
    ensures r1 == r2
  {
    var a1, a2 := r1 / 20, r2 / 20;
    assert r1 == 20 * a1 + r1 % 20 && r2 == 20 * a2 + r2 % 20;
    // 20 is 7 modulo 13, and 7 is invertible modulo 13.
    var k := a1 - a2;
    assert r1 - r2 == 20 * k;
    assert -13 < k < 13;
  }

  /** Two offsets fall on the same Tzolkʼin day exactly when they are equal
      modulo 260: 260 is the exact period, not just a period. */
  lemma TzolkinSameIff(o1: int, o2: int)
    requires o1 >= 0 && o2 >= 0
    ensures CalculateTzolkin(o1) == CalculateTzolkin(o2) <==> o1 % 260 == o2 % 260
  {
    var t1, t2 := CalculateTzolkin(o1), CalculateTzolkin(o2);
    if t1 == t2 {
      NameIndexOfCalculated(o1);
      NameIndexOfCalculated(o2);
      assert (o1 + 3) % 13 == (o2 + 3) % 13 by { assert t1.number == t2.number; }
      assert (o1 + 19) % 20 == (o2 + 19) % 20 by { assert NameIndex(t1) == NameIndex(t2); }
      ResidueShift(o1, o2);
      ChineseRemainder(o1, o2);
    } else if o1 % 260 == o2 % 260 {
      var q1, q2 := o1 / 260, o2 / 260;
      assert o1 == o2 + 260 * (q1 - q2);
      PeriodicBy(o1, o2, q1 - q2);
    }
  }

  /** Every one of the 13 x 20 number/name pairs occurs within the first 260
      days, so the cycle passes through all 260 Tzolkʼin days. */
  lemma TzolkinOnto(t: Tzolkin)
    requires WellFormed(t)
    ensures exists o :: 0 <= o < 260 && CalculateTzolkin(o) == t
  {
    TzolkinNamesDistinct();
    var o := CalibrationSolution(t.number, NameIndex(t));
    assert CalculateTzolkin(o) == t;
  }

  /** The offset below 260 whose number is n and whose name index is i. */
  lemma CalibrationSolution(n: int, i: int) returns (o: int)
    requires 1 <= n <= 13 && 0 <= i < 20
    ensures 0 <= o < 260
    ensures (o + 3) % 13 + 1 == n && (o + 19) % 20 == i
  {
    // 40 is 1 modulo 13 and 0 modulo 20; 221 is 0 modulo 13 and 1 modulo 20.
    var x := 40 * (n + 9) + 221 * (i + 1);
    o := x % 260;
    ResidueOfSolution(n, i, x, o);
    NumberFromResidue(n, o);
    NameFromResidue(i, o);
  }

  lemma NumberFromResidue(n: int, o: int)
    requires 1 <= n <= 13 && o % 13 == (n + 9) % 13
    ensures (o + 3) % 13 + 1 == n
  {
    ModOfSum(o, 3, 13);
  }

  lemma NameFromResidue(i: int, o: int)
    requires 0 <= i < 20 && o % 20 == (i + 1) % 20
    ensures (o + 19) % 20 == i
  {
    ModOfSum(o, 19, 20);
  }

  lemma ResidueOfSolution(n: int, i: int, x: int, o: int)
    requires x == 40 * (n + 9) + 221 * (i + 1) && o == x % 260
    ensures o % 13 == (n + 9) % 13 && o % 20 == (i + 1) % 20
  {
    assert x % 13 == (n + 9) % 13 by { ShiftMod(n + 9, 3 * (n + 9) + 17 * (i + 1), 13); }
    assert x % 20 == (i + 1) % 20 by { ShiftMod(i + 1, 2 * (n + 9) + 11 * (i + 1), 20); }
    assert x == o + 260 * (x / 260);
    assert o % 13 == x % 13 by { ShiftMod(o, 20 * (x / 260), 13); }
    assert o % 20 == x % 20 by { ShiftMod(o, 13 * (x / 260), 20); }
  }
}
