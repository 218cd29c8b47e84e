/** Rendering a Long Count as its five digits in decimal joined by '.',
    e.g. "13.0.0.0.0", and reading such a string back. */
module LongCountFormat {
  import opened Optional
  import opened LongCountCalendar

  predicate IsDigit(c: char) {
    '0' <= c <= '9'
  }

  predicate AllDigits(s: string) {
    forall i :: 0 <= i < |s| ==> IsDigit(s[i])
  }

  function DigitChar(d: int): (c: char)
    requires 0 <= d < 10
    ensures IsDigit(c)
  {
    (48 + d) as char
  }

  function DigitValue(c: char): (d: int)
    requires IsDigit(c)
    ensures 0 <= d < 10
  {
    c as int - 48
  }

  /** The decimal rendering of a non-negative integer: at least one digit,
      and no leading zero unless the number is 0 itself. */
  function NatToString(n: nat): (s: string)
    ensures |s| >= 1 && AllDigits(s)
    ensures s[0] == '0' ==> n == 0
    decreases n
  {
    if n < 10 then [DigitChar(n)] else NatToString(n / 10) + [DigitChar(n % 10)]
  }

  /** The value of a string of decimal digits (0 for the empty string). */
  function ParseNat(s: string): nat
    requires AllDigits(s)
  {
    if |s| == 0 then 0 else ParseNat(s[..|s| - 1]) * 10 + DigitValue(s[|s| - 1])
  }

  lemma {:induction false} NatRoundTrip(n: nat)
    ensures ParseNat(NatToString(n)) == n
    decreases n
  {
    var s := NatToString(n);
    if n >= 10 {
      NatRoundTrip(n / 10);
      assert s[..|s| - 1] == NatToString(n / 10);
    }
  }

  /** Split a string at every '.'; k dots give k + 1 parts. */
  function Split(s: string): (parts: seq<string>)
    ensures |parts| >= 1
  {
    if |s| == 0 then [""]
    else
      var rest := Split(s[1..]);
      if s[0] == '.' then [""] + rest else [[s[0]] + rest[0]] + rest[1..]
  }

  lemma {:induction false} SplitNoDot(a: string)
    requires '.' !in a
    ensures Split(a) == [a]
  {
    if |a| > 0 {
      SplitNoDot(a[1..]);
      assert [a[0]] + a[1..] == a;
    }
  }

  /** Appending a dot and a dot-free part appends one part. */
  lemma {:induction false} SplitAppend(a: string, b: string)
    requires '.' !in b
    ensures Split(a + "." + b) == Split(a) + [b]
    decreases |a|
  {
    if |a| == 0 {
      SplitNoDot(b);
      assert (a + "." + b)[1..] == b;
    } else {
      SplitAppend(a[1..], b);
      assert (a + "." + b)[1..] == a[1..] + "." + b;
      SplitAppendStep(a, b);
    }
  }

  /** One induction step of SplitAppend: from the tail of a to a itself. */
  lemma SplitAppendStep(a: string, b: string)
    requires |a| > 0
    requires Split((a + "." + b)[1..]) == Split(a[1..]) + [b]
    ensures Split(a + "." + b) == Split(a) + [b]
  {
    assert (a + "." + b)[0] == a[0];
    if a[0] == '.' {
      StepAtDot(a, b);
    } else {
      StepInPart(a, b);
    }
  }

  /** A leading dot starts a new empty part on both sides. */
  lemma StepAtDot(a: string, b: string)
    requires |a| > 0 && a[0] == '.'
    requires Split((a + "." + b)[1..]) == Split(a[1..]) + [b]
    ensures Split(a + "." + b) == Split(a) + [b]
  {
    var rest := Split(a[1..]);
    assert (a + "." + b)[0] == '.';
    assert Split(a + "." + b) == [""] + (rest + [b]);
    assert Split(a) == [""] + rest;
  }

  /** A leading letter joins the first part on both sides. */
  lemma StepInPart(a: string, b: string)
    requires |a| > 0 && a[0] != '.'
    requires Split((a + "." + b)[1..]) == Split(a[1..]) + [b]
    ensures Split(a + "." + b) == Split(a) + [b]
  {
    var rest := Split(a[1..]);
    var head := [a[0]] + rest[0];
    assert (a + "." + b)[0] == a[0];
    assert (rest + [b])[0] == rest[0] && (rest + [b])[1..] == rest[1..] + [b];
    assert Split(a + "." + b) == [head] + (rest[1..] + [b]);
    assert Split(a) == [head] + rest[1..];
  }

  /** Five dot-free parts joined by dots split back into those parts. */
  lemma SplitFive(b: string, k: string, t: string, u: string, n: string)
    requires '.' !in b && '.' !in k && '.' !in t && '.' !in u && '.' !in n
    ensures Split(b + "." + k + "." + t + "." + u + "." + n) == [b, k, t, u, n]
  {
    SplitNoDot(b);
    SplitAppend(b, k);
    SplitAppend(b + "." + k, t);
    SplitAppend(b + "." + k + "." + t, u);
    SplitAppend(b + "." + k + "." + t + "." + u, n);
  }

  predicate NonNegative(lc: LongCount) {
    lc.baktun >= 0 && lc.katun >= 0 && lc.tun >= 0 && lc.uinal >= 0 && lc.kin >= 0
  }

  /** The five digits, most significant first, in decimal, joined by '.'. */
  function FormatLongCount(lc: LongCount): (s: string)
    requires NonNegative(lc)
  {
    NatToString(lc.baktun) + "." + NatToString(lc.katun) + "." + NatToString(lc.tun) + "."
      + NatToString(lc.uinal) + "." + NatToString(lc.kin)
  }

  /** A part is a non-empty run of decimal digits. */
  predicate IsNumeral(p: string) {
    |p| >= 1 && AllDigits(p)
  }

  /** Reads exactly five '.'-separated numerals back into a Long Count. */
  function ParseLongCount(s: string): (r: Option<LongCount>)
    ensures r.Some? ==> NonNegative(r.value)
  {
    FromParts(Split(s))
  }

  /** The Long Count five numerals spell, most significant first. */
  function FromParts(parts: seq<string>): (r: Option<LongCount>)
    ensures r.Some? ==> NonNegative(r.value)
  {
    if |parts| == 5 && IsNumeral(parts[0]) && IsNumeral(parts[1]) && IsNumeral(parts[2])
       && IsNumeral(parts[3]) && IsNumeral(parts[4]) then
      Some(LongCount(ParseNat(parts[0]), ParseNat(parts[1]), ParseNat(parts[2]),
                     ParseNat(parts[3]), ParseNat(parts[4])))
    else None
  }

  lemma DigitsHaveNoDot(n: nat)
    ensures '.' !in NatToString(n)
  {
  }

  /** Five numerals joined by dots parse to their five values. */
  lemma ParseJoined(b: string, k: string, t: string, u: string, n: string)
    requires IsNumeral(b) && IsNumeral(k) && IsNumeral(t) && IsNumeral(u) && IsNumeral(n)
    requires '.' !in b && '.' !in k && '.' !in t && '.' !in u && '.' !in n
    ensures ParseLongCount(b + "." + k + "." + t + "." + u + "." + n)
         == Some(LongCount(ParseNat(b), ParseNat(k), ParseNat(t), ParseNat(u), ParseNat(n)))
  {
    SplitFive(b, k, t, u, n);
    FromFiveNumerals(b, k, t, u, n);
  }

  /** Five numerals, as parts, give their five values. */
  lemma FromFiveNumerals(b: string, k: string, t: string, u: string, n: string)
    requires IsNumeral(b) && IsNumeral(k) && IsNumeral(t) && IsNumeral(u) && IsNumeral(n)
    ensures FromParts([b, k, t, u, n]) == Some(LongCount(ParseNat(b), ParseNat(k), ParseNat(t), ParseNat(u), ParseNat(n)))
  {
  }

  /** Reading back a rendered Long Count gives the Long Count, so distinct
      counts render to distinct strings. */
  lemma FormatRoundTrip(lc: LongCount)
    requires NonNegative(lc)
    ensures ParseLongCount(FormatLongCount(lc)) == Some(lc)
  {
    DigitsHaveNoDot(lc.baktun);
    DigitsHaveNoDot(lc.katun);
    DigitsHaveNoDot(lc.tun);
    DigitsHaveNoDot(lc.uinal);
    DigitsHaveNoDot(lc.kin);
    ParseJoined(NatToString(lc.baktun), NatToString(lc.katun), NatToString(lc.tun),
                NatToString(lc.uinal), NatToString(lc.kin));
    NatRoundTrip(lc.baktun);
    NatRoundTrip(lc.katun);
    NatRoundTrip(lc.tun);
    NatRoundTrip(lc.uinal);
    NatRoundTrip(lc.kin);
  }

  lemma FormatInjective(a: LongCount, b: LongCount)
    requires NonNegative(a) && NonNegative(b)
    ensures FormatLongCount(a) == FormatLongCount(b) <==> a == b
  {
    FormatRoundTrip(a);
    FormatRoundTrip(b);
  }

  lemma FormatAtEpoch()
    ensures FormatLongCount(LongCount(0, 0, 0, 0, 0)) == "0.0.0.0.0"
  {
  }
}
