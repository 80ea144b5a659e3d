// Decimal spellings without floats (src/conf.c): the temperature and price scans. A
// number is its two digit runs and its value an exact real; that the canonical text
// denotes the number, and is the only one that does, is proved here, and the program's
// loops against it in DecimalScans.
module Decimal {
  import opened Common

  predicate IsDigit(c: char) { '0' <= c <= '9' }

  function DigitOf(c: char): (d: nat)
    requires IsDigit(c)
    ensures d <= 9
  {
    c as int - '0' as int
  }

  predicate Digits(s: string) { forall i :: 0 <= i < |s| ==> IsDigit(s[i]) }

  type DigitString = s: string | Digits(s)

  // What a digit string denotes.
  function IntValue(s: DigitString): nat {
    if s == [] then 0 else IntValue(s[..|s| - 1]) * 10 + DigitOf(s[|s| - 1])
  }

  // What a fraction's digits denote, exactly.
  function FracValue(s: DigitString): real {
    if s == [] then 0.0 else (DigitOf(s[0]) as real + FracValue(s[1..])) / 10.0
  }

  datatype Number = Number(whole: DigitString, frac: DigitString)

  function Value(d: Number): real {
    IntValue(d.whole) as real + FracValue(d.frac)
  }

  function Text(d: Number): string { if d.frac == [] then d.whole else d.whole + "." + d.frac }

  // The grammar: 1 to maxInt digits, then perhaps a point and 1 to 9 digits.
  predicate Spells(s: string, d: Number, maxInt: nat) {
    s == Text(d) && 1 <= |d.whole| <= maxInt && |d.frac| <= 9
  }

  // The end of the digit run that starts at i.
  function RunEnd(s: string, i: nat): (e: nat)
    requires i <= |s|
    ensures i <= e <= |s|
    ensures Digits(s[i..e])
    ensures e < |s| ==> !IsDigit(s[e])
    decreases |s| - i
  {
    if i < |s| && IsDigit(s[i]) then
      var e := RunEnd(s, i + 1);
      assert s[i..e] == [s[i]] + s[i + 1..e];
      e
    else i
  }

  function Read(s: string, maxInt: nat): Option<Number> {
    var ni := RunEnd(s, 0);
    if ni == 0 || ni > maxInt then None
    else if ni == |s| then Some(Number(s[..ni], []))
    else if s[ni] != '.' then None
    else
      var e := RunEnd(s, ni + 1);
      if e == ni + 1 || e - ni - 1 > 9 || e != |s| then None
      else Some(Number(s[..ni], s[ni + 1..e]))
  }

  lemma {:induction false} RunEndIsThere(s: string, i: nat, e: nat)
    requires i <= e <= |s| && Digits(s[i..e])
    requires e < |s| ==> !IsDigit(s[e])
    ensures RunEnd(s, i) == e
    decreases e - i
  {
    if i < e {
      assert s[i..e] == [s[i]] + s[i + 1..e];
      assert IsDigit(s[i..e][0]);
      RunEndIsThere(s, i + 1, e);
    }
  }

  lemma WholeEndsThere(d: Number)
    ensures RunEnd(Text(d), 0) == |d.whole|
  {
    assert Text(d)[0..|d.whole|] == d.whole;
    RunEndIsThere(Text(d), 0, |d.whole|);
  }

  lemma ReadSpells(s: string, maxInt: nat, d: Number)
    requires Read(s, maxInt) == Some(d)
    ensures Spells(s, d, maxInt)
  {
    var ni := RunEnd(s, 0);
    assert s[0..ni] == s[..ni];
    if ni == |s| {
      assert s[..ni] == s;
    } else {
      var e := RunEnd(s, ni + 1);
      assert s == s[..ni] + "." + s[ni + 1..e];
    }
  }

  lemma SpelledIsRead(s: string, maxInt: nat, d: Number)
    requires Spells(s, d, maxInt)
    ensures Read(s, maxInt) == Some(d)
  {
    WholeEndsThere(d);
    assert s[..|d.whole|] == d.whole;
    if d.frac != [] {
      assert s[|d.whole| + 1..|s|] == d.frac;
      RunEndIsThere(s, |d.whole| + 1, |s|);
    }
  }

  // The scan accepts exactly the grammar, and finds the two digit runs.
  lemma ReadIffSpells(s: string, maxInt: nat, d: Number)
    ensures Read(s, maxInt) == Some(d) <==> Spells(s, d, maxInt)
  {
    hide Read, Spells;
    if Read(s, maxInt) == Some(d) {
      ReadSpells(s, maxInt, d);
    }
    if Spells(s, d, maxInt) {
      SpelledIsRead(s, maxInt, d);
    }
  }

  // ---- The canonical spelling. ----

  // Leading zeros gone, but one digit kept.
  function StripLeading(s: string): (r: string)
    ensures Digits(s) ==> Digits(r)
    ensures s != [] ==> r != []
  {
    if |s| > 1 && s[0] == '0' then StripLeading(s[1..]) else s
  }

  function StripTrailing(s: string): (r: string)
    ensures r <= s
    ensures Digits(s) ==> Digits(r)
    ensures r == [] || r[|r| - 1] != '0'
  {
    if s != [] && s[|s| - 1] == '0' then StripTrailing(s[..|s| - 1]) else s
  }

  predicate Canonical(d: Number) {
    && d.whole != []
    && (|d.whole| > 1 ==> d.whole[0] != '0')
    && (d.frac != [] ==> d.frac[|d.frac| - 1] != '0')
  }

  function Canon(d: Number): Number { Number(StripLeading(d.whole), StripTrailing(d.frac)) }

  lemma {:induction false} LeadingZeroIsNothing(s: DigitString)
    requires |s| > 1 && s[0] == '0'
    ensures IntValue(s[1..]) == IntValue(s)
  {
    var init := s[..|s| - 1];
    assert s[1..][..|s| - 2] == init[1..];
    if |s| == 2 {
      assert init == ['0'];
      assert IntValue(init) == IntValue(init[..0]) * 10 + 0;
      assert s[1..][..0] == [];
    } else {
      LeadingZeroIsNothing(init);
    }
  }

  lemma {:induction false} StripLeadingKeepsValue(s: DigitString)
    requires s != []
    ensures IntValue(StripLeading(s)) == IntValue(s)
    ensures |StripLeading(s)| > 1 ==> StripLeading(s)[0] != '0'
    ensures |StripLeading(s)| <= |s|
  {
    if |s| > 1 && s[0] == '0' {
      LeadingZeroIsNothing(s);
      StripLeadingKeepsValue(s[1..]);
    }
  }

  lemma {:induction false} TrailingZeroIsNothing(s: DigitString)
    requires s != [] && s[|s| - 1] == '0'
    ensures FracValue(s[..|s| - 1]) == FracValue(s)
  {
    if |s| == 1 {
      assert s[1..] == [] && s[..0] == [];
    } else {
      assert s[1..][..|s| - 2] == s[..|s| - 1][1..];
      TrailingZeroIsNothing(s[1..]);
    }
  }

  lemma {:induction false} StripTrailingKeepsValue(s: DigitString)
    ensures FracValue(StripTrailing(s)) == FracValue(s)
  {
    if s != [] && s[|s| - 1] == '0' {
      TrailingZeroIsNothing(s);
      StripTrailingKeepsValue(s[..|s| - 1]);
    }
  }

  // The canonical spelling denotes the same number.
  lemma CanonKeepsValue(d: Number)
    requires d.whole != []
    ensures Canonical(Canon(d)) && Value(Canon(d)) == Value(d)
    ensures |Canon(d).whole| <= |d.whole| && |Canon(d).frac| <= |d.frac|
  {
    StripLeadingKeepsValue(d.whole);
    StripTrailingKeepsValue(d.frac);
  }

  lemma CanonIsIdempotent(d: Number)
    requires Canonical(d)
    ensures Canon(d) == d
  {
  }

  lemma {:induction false} FracInUnit(s: DigitString)
    ensures 0.0 <= FracValue(s) < 1.0
    ensures s != [] && s[|s| - 1] != '0' ==> FracValue(s) > 0.0
  {
    if s != [] {
      FracInUnit(s[1..]);
    }
  }

  lemma {:induction false} BigWhole(s: DigitString)
    requires s != [] && s[0] != '0'
    ensures IntValue(s) >= 1 && (|s| > 1 ==> IntValue(s) >= 10)
  {
    if |s| > 1 {
      BigWhole(s[..|s| - 1]);
    } else {
      assert s[..0] == [] && DigitOf(s[0]) >= 1;
    }
  }

  lemma {:induction false} WholeIsUnique(a: DigitString, b: DigitString)
    requires a != [] && b != []
    requires |a| > 1 ==> a[0] != '0'
    requires |b| > 1 ==> b[0] != '0'
    requires IntValue(a) == IntValue(b)
    ensures a == b
  {
    var p, q := a[..|a| - 1], b[..|b| - 1];
    if |a| == 1 && |b| == 1 {
      assert p == [] && q == [];
    } else if |a| == 1 {
      assert p == [];
      BigWhole(b);
    } else if |b| == 1 {
      assert q == [];
      BigWhole(a);
    } else {
      WholeIsUnique(p, q);
      assert a == p + [a[|a| - 1]] && b == q + [b[|b| - 1]];
    }
  }

  lemma {:induction false} FracIsUnique(a: DigitString, b: DigitString)
    requires a != [] ==> a[|a| - 1] != '0'
    requires b != [] ==> b[|b| - 1] != '0'
    requires FracValue(a) == FracValue(b)
    ensures a == b
  {
    FracInUnit(a);
    FracInUnit(b);
    if a != [] && b != [] {
      FracInUnit(a[1..]);
      FracInUnit(b[1..]);
      assert DigitOf(a[0]) as real + FracValue(a[1..]) == DigitOf(b[0]) as real + FracValue(b[1..]);
      assert DigitOf(a[0]) == DigitOf(b[0]);
      FracIsUnique(a[1..], b[1..]);
      assert a == [a[0]] + a[1..] && b == [b[0]] + b[1..];
    }
  }

  // A number has one canonical spelling.
  lemma CanonicalIsUnique(d: Number, e: Number)
    requires Canonical(d) && Canonical(e) && Value(d) == Value(e)
    ensures d == e
  {
    FracInUnit(d.frac);
    FracInUnit(e.frac);
    assert IntValue(d.whole) == IntValue(e.whole);
    WholeIsUnique(d.whole, e.whole);
    FracIsUnique(d.frac, e.frac);
  }

  lemma TextIsUnique(d: Number, e: Number)
    requires Text(d) == Text(e)
    ensures d == e
  {
    var s := Text(d);
    WholeEndsThere(d);
    WholeEndsThere(e);
    assert s[..|d.whole|] == d.whole && s[..|e.whole|] == e.whole;
    if d.frac != [] {
      assert s[|d.whole| + 1..] == d.frac && s[|e.whole| + 1..] == e.frac;
    }
  }

  // ---- The two scans. ----

  function TemperatureText(d: Number): Option<string> {
    if IntValue(d.whole) > 2 || (IntValue(d.whole) == 2 && StripTrailing(d.frac) != []) then None
    else Some(Text(Canon(d)))
  }

  // temperature_scan: at most 8 whole digits, 0 <= value <= 2.
  function Temperature(s: string): Option<string> {
    match Read(s, 8)
    case None => None
    case Some(d) => TemperatureText(d)
  }

  // Accepted exactly when it spells a number from 0 to 2.
  lemma TemperatureIff(s: string)
    ensures Temperature(s).Some? <==> exists d :: Spells(s, d, 8) && 0.0 <= Value(d) <= 2.0
  {
    if d :| Spells(s, d, 8) {
      forall e ensures Read(s, 8) == Some(e) <==> Spells(s, e, 8) {
        ReadIffSpells(s, 8, e);
      }
      FracInUnit(d.frac);
      StripTrailingKeepsValue(d.frac);
      FracInUnit(StripTrailing(d.frac));
      assert Read(s, 8) == Some(d);
      assert forall e :: Spells(s, e, 8) ==> e == d;
      assert StripTrailing(d.frac) == [] ==> FracValue(d.frac) == 0.0;
      assert Temperature(s).Some? <==> Value(d) <= 2.0;
    } else {
      if Read(s, 8).Some? {
        ReadIffSpells(s, 8, Read(s, 8).value);
      }
    }
  }

  // An accepted spelling and its canonical text denote the same number, and the
  // text is its own canonical text.
  lemma TemperatureIsExact(s: string)
    requires Temperature(s).Some?
    ensures Temperature(Temperature(s).value) == Temperature(s)
    ensures exists d, e :: Spells(s, d, 8) && Spells(Temperature(s).value, e, 8) && Value(d) == Value(e)
  {
    var d := Read(s, 8).value;
    ReadIffSpells(s, 8, d);
    CanonKeepsValue(d);
    var e := Canon(d);
    assert Spells(Text(e), e, 8);
    ReadIffSpells(Text(e), 8, e);
    CanonIsIdempotent(e);
    StripLeadingKeepsValue(d.whole);
  }

  // Two accepted spellings get the same text exactly when they denote the same
  // number.
  lemma TemperatureTextIsTheNumber(s: string, t: string, d: Number, e: Number)
    requires Spells(s, d, 8) && Spells(t, e, 8)
    requires Temperature(s).Some? && Temperature(t).Some?
    ensures Temperature(s) == Temperature(t) <==> Value(d) == Value(e)
  {
    ReadIffSpells(s, 8, d);
    ReadIffSpells(t, 8, e);
    CanonKeepsValue(d);
    CanonKeepsValue(e);
    if Temperature(s) == Temperature(t) {
      TextIsUnique(Canon(d), Canon(e));
    }
    if Value(d) == Value(e) {
      CanonicalIsUnique(Canon(d), Canon(e));
    }
  }

  predicate AllZero(s: string) { forall i :: 0 <= i < |s| ==> s[i] == '0' }

  // price_scan: at most 9 whole digits, and a digit that is not 0 somewhere.
  function Price(s: string): Option<string> {
    match Read(s, 9)
    case None => None
    case Some(d) => if AllZero(d.whole) && AllZero(d.frac) then None else Some(Text(Canon(d)))
  }

  lemma {:induction false} ZeroWhole(s: DigitString)
    ensures AllZero(s) <==> IntValue(s) == 0
  {
    if s != [] {
      ZeroWhole(s[..|s| - 1]);
      assert s == s[..|s| - 1] + [s[|s| - 1]];
    }
  }

  lemma {:induction false} ZeroFrac(s: DigitString)
    ensures AllZero(s) <==> FracValue(s) == 0.0
  {
    if s != [] {
      ZeroFrac(s[1..]);
      FracInUnit(s[1..]);
      assert s == [s[0]] + s[1..];
    }
  }

  // Accepted exactly when it spells a positive number.
  lemma PriceIff(s: string)
    ensures Price(s).Some? <==> exists d :: Spells(s, d, 9) && Value(d) > 0.0
  {
    if d :| Spells(s, d, 9) {
      forall e ensures Read(s, 9) == Some(e) <==> Spells(s, e, 9) {
        ReadIffSpells(s, 9, e);
      }
      ZeroWhole(d.whole);
      ZeroFrac(d.frac);
      FracInUnit(d.frac);
      assert forall e :: Spells(s, e, 9) ==> e == d;
    } else {
      if Read(s, 9).Some? {
        ReadIffSpells(s, 9, Read(s, 9).value);
      }
    }
  }

  lemma PriceIsExact(s: string)
    requires Price(s).Some?
    ensures Price(Price(s).value) == Price(s)
    ensures exists d, e :: Spells(s, d, 9) && Spells(Price(s).value, e, 9) && Value(d) == Value(e)
  {
    var d := Read(s, 9).value;
    ReadIffSpells(s, 9, d);
    CanonKeepsValue(d);
    var e := Canon(d);
    assert Spells(Text(e), e, 9);
    ReadIffSpells(Text(e), 9, e);
    CanonIsIdempotent(e);
    ZeroWhole(d.whole); ZeroFrac(d.frac); FracInUnit(d.frac);
    ZeroWhole(e.whole); ZeroFrac(e.frac); FracInUnit(e.frac);
  }

  lemma PriceTextIsTheNumber(s: string, t: string, d: Number, e: Number)
    requires Spells(s, d, 9) && Spells(t, e, 9)
    requires Price(s).Some? && Price(t).Some?
    ensures Price(s) == Price(t) <==> Value(d) == Value(e)
  {
    ReadIffSpells(s, 9, d);
    ReadIffSpells(t, 9, e);
    CanonKeepsValue(d);
    CanonKeepsValue(e);
    if Price(s) == Price(t) {
      TextIsUnique(Canon(d), Canon(e));
    }
    if Value(d) == Value(e) {
      CanonicalIsUnique(Canon(d), Canon(e));
    }
  }

  // max_price: two prices and the one comma between them.
  function CommaAt(s: string, i: nat): (k: nat)
    requires i <= |s|
    ensures i <= k <= |s|
    ensures k < |s| ==> s[k] == ','
    ensures forall j :: i <= j < k ==> s[j] != ','
    decreases |s| - i
  {
    if i < |s| && s[i] != ',' then CommaAt(s, i + 1) else i
  }

  function MaxPrice(s: string): Option<string> {
    var k := CommaAt(s, 0);
    if k == |s| || CommaAt(s, k + 1) != |s| then None
    else match (Price(s[..k]), Price(s[k + 1..]))
      case (Some(a), Some(b)) => Some(a + "," + b)
      case _ => None
  }

  lemma PriceHasNoComma(s: string, i: int)
    requires Price(s).Some? && 0 <= i < |Price(s).value|
    ensures Price(s).value[i] != ','
  {
    var d := Read(s, 9).value;
    ReadIffSpells(s, 9, d);
    CanonKeepsValue(d);
    hide Read, Text;
  }

  lemma CommaIsThere(a: string, b: string)
    requires forall i :: 0 <= i < |a| ==> a[i] != ','
    requires forall i :: 0 <= i < |b| ==> b[i] != ','
    ensures var t := a + "," + b; CommaAt(t, 0) == |a| && CommaAt(t, |a| + 1) == |t| && t[..|a|] == a && t[|a| + 1..] == b
  {
    var t := a + "," + b;
    assert t[|a|] == ',';
    assert forall i :: 0 <= i < |b| ==> t[|a| + 1 + i] == b[i];
    assert CommaAt(t, 0) == |a|;
    assert CommaAt(t, |a| + 1) == |t|;
  }

  lemma MaxPriceOfTwo(a: string, b: string)
    requires forall i :: 0 <= i < |a| ==> a[i] != ','
    requires forall i :: 0 <= i < |b| ==> b[i] != ','
    requires Price(a) == Some(a) && Price(b) == Some(b)
    ensures MaxPrice(a + "," + b) == Some(a + "," + b)
  {
    CommaIsThere(a, b);
    hide Price, CommaAt;
  }

  // The halves of an accepted pair.
  lemma MaxPriceHalves(s: string)
    requires MaxPrice(s).Some?
    ensures var k := CommaAt(s, 0); k < |s| && Price(s[..k]).Some? && Price(s[k + 1..]).Some? && MaxPrice(s).value == Price(s[..k]).value + "," + Price(s[k + 1..]).value
  {
    hide Price, CommaAt;
  }

  // Each half keeps its number, and the text is its own canonical text.
  lemma MaxPriceIsExact(s: string)
    requires MaxPrice(s).Some?
    ensures MaxPrice(MaxPrice(s).value) == MaxPrice(s)
  {
    MaxPriceHalves(s);
    hide Price, CommaAt, MaxPrice;
    var k := CommaAt(s, 0);
    var x, y := s[..k], s[k + 1..];
    var a, b := Price(x).value, Price(y).value;
    PriceIsExact(x);
    PriceIsExact(y);
    forall i | 0 <= i < |a| ensures a[i] != ',' {
      PriceHasNoComma(x, i);
    }
    forall i | 0 <= i < |b| ensures b[i] != ',' {
      PriceHasNoComma(y, i);
    }
    MaxPriceOfTwo(a, b);
  }

  // ---- The division temperature_scan makes. ----

  function Pow10(n: nat): (p: real)
    ensures p >= 1.0
  {
    if n == 0 then 1.0 else Pow10(n - 1) * 10.0
  }

  // A product kept out of sight of the linear facts around it.
  function Times(x: real, y: real): real { x * y }

  // Appending a fraction's digits to the whole digits scales the number.
  lemma {:induction false} ScaledValue(w: DigitString, f: DigitString)
    ensures IntValue(w + f) as real == Times(IntValue(w) as real + FracValue(f), Pow10(|f|))
    decreases |f|
  {
    hide IntValue, FracValue, Pow10, Times;
    if f == [] {
      assert w + f == w;
      NoFraction(IntValue(w) as real);
    } else {
      var w1 := w + [f[0]];
      assert w1 + f[1..] == w + f;
      ScaledValue(w1, f[1..]);
      OneDigitMore(w, f);
      ScaleStep(IntValue(w + f) as real, IntValue(w) as real, FracValue(f), DigitOf(f[0]) as real, FracValue(f[1..]),
                Pow10(|f| - 1), Pow10(|f|), IntValue(w1) as real);
    }
  }

  lemma NoFraction(x: real)
    ensures x == Times(x + FracValue([]), Pow10(0))
  {
  }

  lemma OneDigitMore(w: DigitString, f: DigitString)
    requires f != []
    ensures IntValue(w + [f[0]]) as real == IntValue(w) as real * 10.0 + DigitOf(f[0]) as real
    ensures FracValue(f) == (DigitOf(f[0]) as real + FracValue(f[1..])) / 10.0
    ensures Pow10(|f|) == Pow10(|f| - 1) * 10.0
  {
    assert (w + [f[0]])[..|w|] == w;
  }

  lemma ScaleStep(v: real, x: real, y: real, d: real, rest: real, p: real, q: real, x1: real)
    requires x1 == x * 10.0 + d && y == (d + rest) / 10.0 && q == p * 10.0
    requires v == Times(x1 + rest, p)
    ensures v == Times(x + y, q)
  {
    assert x1 + rest == (x + y) * 10.0;
    assert ((x + y) * 10.0) * p == (x + y) * (p * 10.0);
  }
}
