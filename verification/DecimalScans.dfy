// The decimal scans as the program runs them (src/conf.c), each proved to compute
// the canonical spelling of Decimal. The loops are the source's own: one digit run
// at a time, one accumulator over the digits of both runs, one scale, one division
// of two integers that a double holds exactly, and the fraction cut after its last
// digit that is not 0.
module DecimalScans {
  import opened Common
  import opened Decimal

  // A digit string's value, accumulated from the left after the digits of `w`.
  method Accumulate(ghost w: DigitString, start: nat, digits: DigitString) returns (v: nat)
    requires start == IntValue(w)
    ensures v == IntValue(w + digits)
  {
    v := start;
    assert w + digits[..0] == w;
    for i := 0 to |digits|
      invariant v == IntValue(w + digits[..i])
    {
      assert (w + digits[..i + 1])[..|w| + i] == w + digits[..i];
      v := v * 10 + DigitOf(digits[i]);
    }
    assert digits[..|digits|] == digits;
  }

  method DigitRun(s: string, from: nat) returns (p: nat)
    requires from <= |s|
    ensures p == RunEnd(s, from)
  {
    p := from;
    while p < |s| && '0' <= s[p] <= '9'
      invariant from <= p <= |s|
      invariant RunEnd(s, from) == RunEnd(s, p)
    {
      p := p + 1;
    }
  }

  // The two digit runs of the grammar.
  method Split(s: string, maxInt: nat) returns (d: Option<Number>)
    ensures d == Read(s, maxInt)
  {
    var p := DigitRun(s, 0);
    var ni := p;
    if ni == 0 || ni > maxInt {
      return None;
    }
    var frac := [];
    if p < |s| && s[p] == '.' {
      p := p + 1;
      var from := p;
      p := DigitRun(s, from);
      if p == from || p - from > 9 {
        return None;
      }
      frac := s[from..p];
    }
    if p != |s| {
      return None;
    }
    d := Some(Number(s[..ni], frac));
  }

  // The fraction's digits up to the last significant one.
  method Significant(frac: string) returns (last: nat)
    ensures last <= |frac| && frac[..last] == StripTrailing(frac)
  {
    last := 0;
    for i := 0 to |frac|
      invariant last <= i && frac[..last] == StripTrailing(frac[..i])
    {
      assert frac[..i + 1][..i] == frac[..i];
      if frac[i] != '0' {
        last := i + 1;
      }
    }
    assert frac[..|frac|] == frac;
  }

  method Scale(n: nat) returns (scale: real)
    ensures scale == Pow10(n)
  {
    scale := 1.0;
    for i := 0 to n
      invariant scale == Pow10(i)
    {
      scale := scale * 10.0;
    }
  }

  lemma ScaleBelow(n: nat)
    requires n <= 9
    ensures Pow10(n) <= 1000000000.0
  {
    assert Pow10(9) == 1000000000.0 by {
      assert Pow10(3) == 1000.0;
      assert Pow10(6) == 1000000.0;
    }
    Pow10Grows(n, 9);
  }

  lemma {:induction false} Pow10Grows(n: nat, m: nat)
    requires n <= m
    ensures Pow10(n) <= Pow10(m)
  {
    if n < m {
      Pow10Grows(n, m - 1);
    }
  }

  // Every digit of an accepted spelling, whole then fraction, stays far below the
  // 2^53 a double holds exactly, so the one division is of two exact operands.
  lemma WholeDigitsFit(d: Number)
    requires IntValue(d.whole) <= 2 && |d.frac| <= 9
    ensures IntValue(d.whole + d.frac) < 3_000_000_000
  {
    ScaledValue(d.whole, d.frac);
    FracInUnit(d.frac);
    ScaleBelow(|d.frac|);
    hide IntValue, FracValue, Pow10, Times;
    Below(IntValue(d.whole) as real + FracValue(d.frac), Pow10(|d.frac|));
  }

  lemma Below(v: real, scale: real)
    requires 0.0 <= v < 3.0 && 1.0 <= scale <= 1000000000.0
    ensures Times(v, scale) < 3000000000.0
  {
    assert v * scale <= 3.0 * scale;
    assert v * scale != 3.0 * scale;
  }

  lemma DivisionIsExact(d: Number)
    ensures IntValue(d.whole + d.frac) as real / Pow10(|d.frac|) == Value(d)
  {
    ScaledValue(d.whole, d.frac);
    hide IntValue, FracValue, Pow10, Times;
    Quotient(IntValue(d.whole) as real + FracValue(d.frac), Pow10(|d.frac|));
  }

  lemma Quotient(v: real, scale: real)
    requires scale >= 1.0
    ensures Times(v, scale) / scale == v
  {
  }

  lemma OneDigit(whole: DigitString)
    requires whole != [] && IntValue(whole) <= 2
    ensures StripLeading(whole) == [('0' as int + IntValue(whole)) as char]
  {
    var ip := IntValue(whole);
    var t := [('0' as int + ip) as char];
    assert t[..0] == [];
    StripLeadingKeepsValue(whole);
    WholeIsUnique(StripLeading(whole), t);
  }

  method TemperatureOf(d: Number) returns (out: Option<string>, num: real)
    requires d.whole != [] && |d.frac| <= 9
    ensures out == TemperatureText(d)
    ensures out.Some? ==> num == Value(d)
  {
    hide StripTrailing, StripLeading, FracValue, IntValue;
    num := 0.0;
    assert [] + d.whole == d.whole;
    NoDigits();
    var ip := Accumulate([], 0, d.whole);
    if ip > 2 {
      return None, num;
    }
    var all := Accumulate(d.whole, ip, d.frac);
    var last := Significant(d.frac);
    if ip == 2 && last != 0 {
      return None, num;
    }
    var scale := Scale(|d.frac|);
    assert all < 3_000_000_000 by { WholeDigitsFit(d); }
    DivisionIsExact(d);
    num := all as real / scale;
    var tmp := [('0' as int + ip) as char];
    OneDigit(d.whole);
    if last != 0 {
      tmp := tmp + "." + d.frac[..last];
    }
    out := Some(tmp);
  }

  lemma NoDigits()
    ensures IntValue([]) == 0
  {
  }

  // temperature_scan: the canonical text, and the value by one division.
  method TemperatureScan(value: string) returns (out: Option<string>, num: real)
    ensures out == Temperature(value)
    ensures out.Some? ==> forall d :: Spells(value, d, 8) ==> num == Value(d)
  {
    var parts := Split(value, 8);
    if parts.None? {
      return None, 0.0;
    }
    ReadSpells(value, 8, parts.value);
    forall e | Spells(value, e, 8) ensures e == parts.value {
      SpelledIsRead(value, 8, e);
    }
    hide Read, TemperatureText;
    out, num := TemperatureOf(parts.value);
  }

  method SomeDigit(s: string) returns (nonzero: bool)
    ensures nonzero <==> !AllZero(s)
  {
    nonzero := false;
    for k := 0 to |s|
      invariant nonzero <==> !AllZero(s[..k])
    {
      assert s[..k + 1] == s[..k] + [s[k]];
      if s[k] != '0' {
        nonzero := true;
        assert s[..k + 1][k] != '0';
      }
    }
    assert s[..|s|] == s;
  }

  // price_scan over one side of a max_price value.
  method PriceScan(p: string) returns (out: Option<string>)
    ensures out == Price(p)
  {
    var parts := Split(p, 9);
    if parts.None? {
      return None;
    }
    var d := parts.value;
    ReadSpells(p, 9, d);
    var inWhole := SomeDigit(d.whole);
    var inFrac := SomeDigit(d.frac);
    if !inWhole && !inFrac {
      return None;
    }
    var first := 0;
    while first + 1 < |d.whole| && d.whole[first] == '0'
      invariant first < |d.whole|
      invariant StripLeading(d.whole) == StripLeading(d.whole[first..])
    {
      assert d.whole[first..][1..] == d.whole[first + 1..];
      first := first + 1;
    }
    var last := Significant(d.frac);
    var tmp := d.whole[first..];
    if last != 0 {
      tmp := tmp + "." + d.frac[..last];
    }
    out := Some(tmp);
  }

  // nm_config_max_price_canon.
  method MaxPriceCanon(raw: string) returns (out: Option<string>)
    ensures out == MaxPrice(raw)
  {
    var k := CommaAt(raw, 0);
    if k == |raw| {
      return None;
    }
    if CommaAt(raw, k + 1) != |raw| {
      return None;
    }
    var a := PriceScan(raw[..k]);
    if a.None? {
      return None;
    }
    var b := PriceScan(raw[k + 1..]);
    if b.None? {
      return None;
    }
    out := Some(a.value + "," + b.value);
  }
}
