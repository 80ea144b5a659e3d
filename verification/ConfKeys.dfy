// The key table of the configuration store and the one place every layer agrees
// about what a key accepts (src/conf.c, src/conf.h). A name's place in the table is
// found again from its length and two letters, which is how names are told apart
// without comparing them pairwise.
module ConfKeys {
  import opened Common
  import opened ConfFamilies
  import opened ConfValues
  import opened Decimal

  const NKEYS: nat := 26

  // The names, in table order; the scoped bases follow at 26 .. 29.
  function KeyName(i: nat): string {
    match i
    case 0 => "provider"
    case 1 => "rounds"
    case 2 => "reasoning_echo"
    case 3 => "signature_echo"
    case 4 => "timeout"
    case 5 => "connect_timeout"
    case 6 => "handshake_timeout"
    case 7 => "family_skip"
    case 8 => "skip_families"
    case 9 => "reminders"
    case 10 => "searxng"
    case 11 => "searxng_enabled"
    case 12 => "searxng_timeout"
    case 13 => "run_command_timeout"
    case 14 => "poll_timeout"
    case 15 => "login_shell"
    case 16 => "kbd"
    case 17 => "color"
    case 18 => "spinner_ramp"
    case 19 => "served_notice"
    case 20 => "skills"
    case 21 => "temperature"
    case 22 => "max_tokens"
    case 23 => "image_live"
    case 24 => "credits_ttl"
    case 25 => "mentions"
    case 26 => "model"
    case 27 => "routing"
    case 28 => "tier"
    case _ => "max_price"
  }

  // A name's place follows from its length and its first and last letters.
  function PlaceOf(n: nat, first: char, last: char): nat {
    if n == 8 then (if first == 'p' then 0 else 25)
    else if n == 6 then (if first == 'r' then 1 else 20)
    else if n == 14 then (if first == 'r' then 2 else 3)
    else if n == 7 then (if first == 't' then 4 else if first == 's' then 10 else 27)
    else if n == 15 then (if first == 'c' then 5 else if last == 'd' then 11 else 12)
    else if n == 17 then 6
    else if n == 11 then (if first == 'f' then 7 else if first == 'l' then 15 else if first == 't' then 21 else 24)
    else if n == 13 then (if last == 's' then 8 else 19)
    else if n == 9 then (if first == 'r' then 9 else 29)
    else if n == 19 then 13
    else if n == 12 then (if first == 'p' then 14 else 18)
    else if n == 3 then 16
    else if n == 5 then (if first == 'c' then 17 else 26)
    else if n == 10 then (if first == 'm' then 22 else 23)
    else 28
  }

  predicate NameChar(c: char) { 'a' <= c <= 'z' || c == '_' }

  predicate Named(i: nat) {
    var s := KeyName(i);
    3 <= |s| <= 19 && (forall j :: 0 <= j < |s| ==> NameChar(s[j])) && PlaceOf(|s|, s[0], s[|s| - 1]) == i
  }

  lemma NamedA() ensures Named(13) && Named(28) {}
  lemma NamedB() ensures Named(4) {}
  lemma NamedC() ensures Named(6) && Named(16) {}
  lemma NamedD() ensures Named(23) {}
  lemma NamedE() ensures Named(5) && Named(17) {}
  lemma NamedF() ensures Named(22) {}
  lemma NamedG() ensures Named(11) && Named(1) {}
  lemma NamedH() ensures Named(29) {}
  lemma NamedI() ensures Named(12) && Named(26) {}
  lemma NamedJ() ensures Named(9) {}
  lemma NamedK() ensures Named(2) && Named(0) {}
  lemma NamedL() ensures Named(25) {}
  lemma NamedM() ensures Named(3) && Named(10) {}
  lemma NamedN() ensures Named(27) {}
  lemma NamedO() ensures Named(8) && Named(20) {}
  lemma NamedP() ensures Named(7) {}
  lemma NamedQ() ensures Named(19) && Named(15) {}
  lemma NamedR() ensures Named(14) && Named(18) {}
  lemma NamedS() ensures Named(21) && Named(24) {}

  lemma NamesAreNamed(i: nat)
    requires i < 30
    ensures Named(i)
  {
    hide Named, KeyName;
    NamedA(); NamedB(); NamedC(); NamedD(); NamedE(); NamedF(); NamedG();
    NamedH(); NamedI(); NamedJ(); NamedK(); NamedL(); NamedM(); NamedN();
    NamedO(); NamedP(); NamedQ(); NamedR(); NamedS();
  }

  // No two keys and no key and base share a name.
  lemma NamesAreDistinct(i: nat, j: nat)
    requires i < 30 && j < 30 && KeyName(i) == KeyName(j)
    ensures i == j
  {
    NamesAreNamed(i);
    NamesAreNamed(j);
    hide KeyName;
  }

  // ---- What a key accepts. ----

  datatype Kind =
    Provider | Positive | ImageLive | Sampling | Echo | Kbd | Color | Budget | Ttl | Poll | Flag | Families | Endpoint

  function KindOf(i: nat): Kind {
    if i == 0 then Provider
    else if i in {1, 5, 12, 22} then Positive
    else if i in {2, 3} then Echo
    else if i in {4, 6, 13} then Budget
    else if i == 8 then Families
    else if i == 10 then Endpoint
    else if i == 14 then Poll
    else if i == 16 then Kbd
    else if i == 17 then Color
    else if i == 21 then Sampling
    else if i == 23 then ImageLive
    else if i == 24 then Ttl
    else Flag
  }

  // A value copied into its slot; the slot holds 1023 characters.
  function Fit(s: string): (r: string)
    ensures |r| < VAL && r <= s
    ensures |s| < VAL ==> r == s
  {
    if |s| < VAL then s else s[..VAL - 1]
  }

  predicate IsOff(s: string) { Lower(s) == "off" }

  // nm_config_duration_canon: a decimal, verbatim, or `off`.
  function DurationCanon(raw: string): Option<string> {
    if IsOff(raw) then Some("off") else if Duration(raw) > 0 then Some(Fit(raw)) else None
  }

  // normalize_value; `known` is the registry of providers.
  function Normalize(known: string -> bool, k: Kind, raw: string): Option<string> {
    match k
    case Provider => if raw != [] && known(raw) then Some(Fit(raw)) else None
    case Positive => if PositiveInt(raw) then Some(Fit(raw)) else None
    case ImageLive => if IsOff(raw) then Some("off") else if PositiveInt(raw) then Some(Fit(raw)) else None
    case Sampling => Temperature(raw)
    case Echo => Mode(raw, EchoRows())
    case Kbd => Mode(raw, KbdRows())
    case Color => Mode(raw, ColorRows())
    case Budget => DurationCanon(raw)
    case Ttl =>
      (match DurationCanon(raw)
       case None => None
       case Some(out) => if out == "off" || Duration(out) >= 1000 then Some(out) else None)
    case Poll =>
      (match DurationCanon(raw)
       case None => None
       case Some(out) => if out == "off" then None else Some(out))
    case Flag => Mode(raw, BoolRows())
    case Families => FamilySet(raw)
    case Endpoint => Some(Fit(raw))
  }

  // What the 1023 characters of an over-long spelling must still be.
  predicate Survives(known: string -> bool, k: Kind, raw: string) {
    |raw| < VAL || match k
      case Provider => known(raw[..VAL - 1])
      case Positive => !AllZero(raw[..VAL - 1])
      case ImageLive => !AllZero(raw[..VAL - 1])
      case Budget => !AllZero(raw[..VAL - 1])
      case Poll => !AllZero(raw[..VAL - 1])
      case _ => true
  }

  lemma OffIsOff()
    ensures IsOff("off")
  {
  }

  lemma OffIsShort(raw: string)
    requires IsOff(raw)
    ensures |raw| == 3
  {
  }

  // The digits that fit denote no more than all of them.
  lemma FitKeepsDigits(raw: DigitString)
    requires raw != []
    ensures Digits(Fit(raw)) && Fit(raw) != [] && IntValue(Fit(raw)) <= IntValue(raw)
    ensures IntValue(Fit(raw)) >= 1 <==> !AllZero(Fit(raw))
  {
    PrefixIsSmaller(raw, |Fit(raw)|);
    assert raw[..|Fit(raw)|] == Fit(raw);
    ZeroWhole(Fit(raw));
  }

  lemma DigitsAreNotOff(raw: DigitString)
    requires raw != []
    ensures !IsOff(raw)
  {
    assert IsDigit(raw[0]);
    assert Lower(raw)[0] == LowerChar(raw[0]) == raw[0];
  }

  lemma DurationAgain(raw: string)
    requires Duration(raw) > 0 && !IsOff(raw)
    ensures |raw| < VAL || !AllZero(raw[..VAL - 1]) <==> DurationCanon(Fit(raw)) == Some(Fit(raw))
    ensures Fit(raw) != "off"
    ensures Duration(Fit(raw)) >= 1000 ==> DurationCanon(Fit(raw)) == Some(Fit(raw))
  {
    FitKeepsDigits(raw);
    DigitsAreNotOff(Fit(raw));
    ZeroWhole(raw);
    OffIsOff();
    hide IntValue;
  }

  lemma PositiveAgain(raw: string)
    requires PositiveInt(raw)
    ensures |raw| < VAL || !AllZero(raw[..VAL - 1]) <==> PositiveInt(Fit(raw))
    ensures !IsOff(Fit(raw))
  {
    FitKeepsDigits(raw);
    DigitsAreNotOff(Fit(raw));
    ZeroWhole(raw);
    hide IntValue;
  }

  // An accepted value's canonical text is accepted and is its own canonical text,
  // exactly when cutting the spelling to the slot leaves an acceptable one; every
  // spelling of fewer than 1024 characters does.
  lemma NormalizeIsIdempotentIff(known: string -> bool, k: Kind, raw: string)
    requires Normalize(known, k, raw).Some?
    ensures Normalize(known, k, Normalize(known, k, raw).value) == Normalize(known, k, raw) <==> Survives(known, k, raw)
  {
    hide IntValue, Mode, Temperature, FamilySet, Duration, IsOff, AllZero;
    OffIsOff();
    if IsOff(raw) {
      OffIsShort(raw);
    }
    match k {
      case Provider =>
      case Positive => PositiveAgain(raw);
      case ImageLive => if !IsOff(raw) { PositiveAgain(raw); }
      case Sampling => TemperatureIsExact(raw);
      case Echo => EchoIsSettled(); ModeIsIdempotent(raw, EchoRows());
      case Kbd => KbdIsSettled(); ModeIsIdempotent(raw, KbdRows());
      case Color => ColorIsSettled(); ModeIsIdempotent(raw, ColorRows());
      case Budget => if !IsOff(raw) { DurationAgain(raw); }
      case Ttl => if !IsOff(raw) { DurationAgain(raw); }
      case Poll => if !IsOff(raw) { DurationAgain(raw); }
      case Flag => BoolIsSettled(); ModeIsIdempotent(raw, BoolRows());
      case Families => FamilySetIsIdempotent(raw);
      case Endpoint =>
    }
  }

  // 1023 zeros and a five: accepted, stored without the five, and then refused.
  lemma OverlongIsRefusedNextTime(known: string -> bool)
    ensures var raw := seq(VAL - 1, i => '0') + "5";
      Normalize(known, Positive, raw).Some? && Normalize(known, Positive, Normalize(known, Positive, raw).value).None?
  {
    var zeros := seq(VAL - 1, i => '0');
    var raw := zeros + "5";
    assert raw[..|raw| - 1] == zeros;
    ZeroWhole(zeros);
    assert IntValue(raw) == 5;
    assert Fit(raw) == zeros;
  }
}
