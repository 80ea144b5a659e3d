// What each configuration key accepts, by its name and word by word (src/conf.c).
module ConfTable {
  import opened Common
  import opened ConfFamilies
  import opened ConfKeys
  import opened ConfValues
  import opened Decimal

  // ---- Words in any case. ----

  predicate Alike(a: string, b: string) { |a| == |b| && forall i :: 0 <= i < |a| ==> SameLetter(a[i], b[i]) }

  lemma AlikeIff(a: string, b: string)
    ensures Lower(a) == Lower(b) <==> Alike(a, b)
  {
    if Lower(a) == Lower(b) {
      forall i | 0 <= i < |a| ensures SameLetter(a[i], b[i]) {
        assert Lower(a)[i] == Lower(b)[i];
      }
    }
  }

  predicate OneOf(s: string, words: seq<string>) { exists i :: 0 <= i < |words| && Alike(s, words[i]) }

  predicate Folded(words: seq<string>) { forall i :: 0 <= i < |words| ==> Lower(words[i]) == words[i] }

  lemma OneOfIff(s: string, words: seq<string>)
    requires Folded(words)
    ensures OneOf(s, words) <==> Lower(s) in words
  {
    hide Lower, Alike;
    forall i | 0 <= i < |words| ensures Alike(s, words[i]) <==> Lower(s) == words[i] {
      AlikeIff(s, words[i]);
    }
  }

  predicate Apart(a: seq<string>, b: seq<string>) { forall i :: 0 <= i < |a| ==> a[i] !in b }

  lemma ModeOfThree(s: string, a: Row, b: Row, c: Row, w: string)
    requires Folded(a.tokens) && Folded(b.tokens) && Folded(c.tokens)
    requires Apart(a.tokens, b.tokens) && Apart(a.tokens, c.tokens) && Apart(b.tokens, c.tokens)
    ensures Mode(s, [a, b, c]) == Some(w) <==>
      (w == a.canon && OneOf(s, a.tokens)) || (w == b.canon && OneOf(s, b.tokens)) || (w == c.canon && OneOf(s, c.tokens))
  {
    OneOfIff(s, a.tokens);
    OneOfIff(s, b.tokens);
    OneOfIff(s, c.tokens);
    assert [a, b, c][1..] == [b, c] && [b, c][1..] == [c] && [c][1..] == [];
    assert Mode(s, []) == None;
    assert Mode(s, [c]) == if Lower(s) in c.tokens then Some(c.canon) else None;
    assert Mode(s, [b, c]) == if Lower(s) in b.tokens then Some(b.canon) else Mode(s, [c]);
    hide Lower, OneOf, Folded;
  }

  // The three values of reasoning_echo and signature_echo.
  predicate EchoWord(s: string, w: string) {
    || (w == "off" && OneOf(s, ["off", "no", "false", "0"]))
    || (w == "tools" && OneOf(s, ["tools", "tool", "calls", "tool-calls", "tool_calls"]))
    || (w == "all" && OneOf(s, ["all", "on", "true", "yes", "1"]))
  }

  lemma EchoWords(s: string, w: string)
    ensures Mode(s, EchoRows()) == Some(w) <==> EchoWord(s, w)
  {
    hide Mode, OneOf;
    var a, b, c := EchoRows()[0], EchoRows()[1], EchoRows()[2];
    EchoFolded();
    EchoApart();
    hide Folded, Apart;
    ModeOfThree(s, a, b, c, w);
  }

  lemma EchoFolded()
    ensures Folded(["off", "no", "false", "0"]) && Folded(["tools", "tool", "calls", "tool-calls", "tool_calls"])
    ensures Folded(["all", "on", "true", "yes", "1"])
  {
  }

  lemma EchoApart()
    ensures Apart(["off", "no", "false", "0"], ["tools", "tool", "calls", "tool-calls", "tool_calls"])
    ensures Apart(["off", "no", "false", "0"], ["all", "on", "true", "yes", "1"])
    ensures Apart(["tools", "tool", "calls", "tool-calls", "tool_calls"], ["all", "on", "true", "yes", "1"])
  {
  }

  predicate KbdWord(s: string, w: string) {
    || (w == "auto" && OneOf(s, ["auto", "default"]))
    || (w == "on" && OneOf(s, ["on", "true", "yes", "1", "kitty"]))
    || (w == "off" && OneOf(s, ["off", "no", "false", "0", "legacy"]))
  }

  lemma KbdWords(s: string, w: string)
    ensures Mode(s, KbdRows()) == Some(w) <==> KbdWord(s, w)
  {
    hide Mode, OneOf;
    var a, b, c := KbdRows()[0], KbdRows()[1], KbdRows()[2];
    KbdFolded();
    KbdApart();
    hide Folded, Apart;
    ModeOfThree(s, a, b, c, w);
  }

  lemma KbdFolded()
    ensures Folded(["auto", "default"]) && Folded(["on", "true", "yes", "1", "kitty"]) && Folded(["off", "no", "false", "0", "legacy"])
  {
  }

  lemma KbdApart()
    ensures Apart(["auto", "default"], ["on", "true", "yes", "1", "kitty"])
    ensures Apart(["auto", "default"], ["off", "no", "false", "0", "legacy"])
    ensures Apart(["on", "true", "yes", "1", "kitty"], ["off", "no", "false", "0", "legacy"])
  {
  }

  predicate ColorWord(s: string, w: string) {
    || (w == "auto" && OneOf(s, ["auto", "default"]))
    || (w == "16" && OneOf(s, ["16", "ansi", "ansi16", "ansi-16"]))
    || (w == "rgb" && OneOf(s, ["rgb", "truecolor", "true-color", "24bit", "24-bit", "direct"]))
  }

  lemma ColorWords(s: string, w: string)
    ensures Mode(s, ColorRows()) == Some(w) <==> ColorWord(s, w)
  {
    hide Mode, OneOf;
    var a, b, c := ColorRows()[0], ColorRows()[1], ColorRows()[2];
    ColorFolded();
    RgbFolded();
    ColorApart();
    hide Folded, Apart;
    ModeOfThree(s, a, b, c, w);
  }

  lemma ColorFolded()
    ensures Folded(["auto", "default"]) && Folded(["16", "ansi", "ansi16", "ansi-16"])
  {
  }

  lemma RgbFolded()
    ensures Folded(["rgb", "truecolor", "true-color", "24bit", "24-bit", "direct"])
  {
  }

  lemma ColorApart()
    ensures Apart(["auto", "default"], ["16", "ansi", "ansi16", "ansi-16"])
    ensures Apart(["auto", "default"], ["rgb", "truecolor", "true-color", "24bit", "24-bit", "direct"])
    ensures Apart(["16", "ansi", "ansi16", "ansi-16"], ["rgb", "truecolor", "true-color", "24bit", "24-bit", "direct"])
  {
  }

  predicate FlagWord(s: string, w: string) {
    || (w == "on" && OneOf(s, ["1", "true", "on", "yes"]))
    || (w == "off" && OneOf(s, ["0", "false", "off", "no"]))
  }

  lemma FlagWords(s: string, w: string)
    ensures Mode(s, BoolRows()) == Some(w) <==> FlagWord(s, w)
  {
    hide Mode, OneOf;
    var yes, no := ["1", "true", "on", "yes"], ["0", "false", "off", "no"];
    FlagFolded();
    hide Folded, Apart, Lower;
    ModeOfTwo(s, BoolRows());
    OneOfIff(s, yes);
    OneOfIff(s, no);
    OnlyOne(Lower(s), yes, no);
  }

  lemma OnlyOne(x: string, a: seq<string>, b: seq<string>)
    requires Apart(a, b)
    ensures x in a ==> x !in b
  {
  }

  lemma FlagFolded()
    ensures Folded(["1", "true", "on", "yes"]) && Folded(["0", "false", "off", "no"])
    ensures Apart(["1", "true", "on", "yes"], ["0", "false", "off", "no"])
  {
  }

  predicate Off(s: string) { Alike(s, "off") }

  lemma OffIff(s: string)
    ensures IsOff(s) <==> Off(s)
  {
    OffIsOff();
    AlikeIff(s, "off");
  }

  // ---- Kinds. ----

  // A digit string whose number is in the range.
  predicate Counts(s: string, low: int, high: int) { s != "" && Digits(s) && low <= IntValue(s) <= high }

  // As much of the text as a slot holds.
  function Front(s: string): string { if |s| <= 1023 then s else s[..1023] }

  // A key of the kind takes `raw`, and holds it as `w`.
  predicate Takes(known: string -> bool, k: Kind, raw: string, w: string) {
    match k
    case Provider => raw != "" && known(raw) && w == Front(raw)
    case Positive => Counts(raw, 1, 1000009) && w == Front(raw)
    case ImageLive => (Off(raw) && w == "off") || (Counts(raw, 1, 1000009) && w == Front(raw))
    case Sampling => Temperature(raw) == Some(w)
    case Echo => EchoWord(raw, w)
    case Kbd => KbdWord(raw, w)
    case Color => ColorWord(raw, w)
    case Budget => (Off(raw) && w == "off") || (Counts(raw, 1, 2147483647) && w == Front(raw))
    case Ttl => (Off(raw) && w == "off") || (Counts(raw, 1, 2147483647) && Counts(Front(raw), 1000, 2147483647) && w == Front(raw))
    case Poll => Counts(raw, 1, 2147483647) && w == Front(raw)
    case Flag => FlagWord(raw, w)
    case Families => FamilySet(raw) == Some(w)
    case Endpoint => w == Front(raw)
  }

  lemma TakesIff(known: string -> bool, k: Kind, raw: string, w: string)
    ensures Normalize(known, k, raw) == Some(w) <==> Takes(known, k, raw, w)
  {
    hide IntValue, Mode, Temperature, FamilySet, IsOff, Off, EchoWord, KbdWord, ColorWord, FlagWord;
    OffIff(raw);
    EchoWords(raw, w);
    KbdWords(raw, w);
    ColorWords(raw, w);
    FlagWords(raw, w);
    if raw != "" && Digits(raw) {
      FitKeepsDigits(raw);
      DigitsAreNotOff(raw);
      DigitsAreNotOff(Fit(raw));
      OffIsOff();
    }
  }

  // ---- Names. ----

  // The keys of each kind, by name.
  function NamesOf(k: Kind): seq<string> {
    match k
    case Provider => ["provider"]
    case Positive => ["rounds", "connect_timeout", "searxng_timeout", "max_tokens"]
    case ImageLive => ["image_live"]
    case Sampling => ["temperature"]
    case Echo => ["reasoning_echo", "signature_echo"]
    case Kbd => ["kbd"]
    case Color => ["color"]
    case Budget => ["timeout", "handshake_timeout", "run_command_timeout"]
    case Ttl => ["credits_ttl"]
    case Poll => ["poll_timeout"]
    case Flag => ["family_skip", "reminders", "searxng_enabled", "login_shell", "spinner_ramp", "served_notice", "skills", "mentions"]
    case Families => ["skip_families"]
    case Endpoint => ["searxng"]
  }

  // Their places in the table.
  function PlacesOf(k: Kind): (p: seq<nat>)
    ensures forall i :: 0 <= i < |p| ==> p[i] < NKEYS
  {
    match k
    case Provider => [0]
    case Positive => [1, 5, 12, 22]
    case ImageLive => [23]
    case Sampling => [21]
    case Echo => [2, 3]
    case Kbd => [16]
    case Color => [17]
    case Budget => [4, 6, 13]
    case Ttl => [24]
    case Poll => [14]
    case Flag => [7, 9, 11, 15, 18, 19, 20, 25]
    case Families => [8]
    case Endpoint => [10]
  }

  predicate Placed(k: Kind) {
    |NamesOf(k)| == |PlacesOf(k)| && forall i :: 0 <= i < |PlacesOf(k)| ==> NamesOf(k)[i] == KeyName(PlacesOf(k)[i])
  }

  lemma FlagNames()
    ensures KeyName(7) == "family_skip" && KeyName(9) == "reminders" && KeyName(11) == "searxng_enabled" && KeyName(15) == "login_shell"
  {
  }

  lemma MoreFlagNames()
    ensures KeyName(18) == "spinner_ramp" && KeyName(19) == "served_notice" && KeyName(20) == "skills" && KeyName(25) == "mentions"
  {
  }

  lemma FlagsArePlaced()
    ensures Placed(Flag)
  {
    hide KeyName;
    FlagNames();
    MoreFlagNames();
  }

  lemma CountsArePlaced()
    ensures Placed(Positive)
  {
  }

  lemma BudgetsArePlaced()
    ensures Placed(Budget)
  {
  }

  lemma OthersArePlaced(k: Kind)
    requires k != Flag && k != Positive && k != Budget
    ensures Placed(k)
  {
  }

  lemma NamesAreThere(k: Kind)
    ensures Placed(k)
  {
    hide Placed;
    FlagsArePlaced();
    CountsArePlaced();
    BudgetsArePlaced();
    if k != Flag && k != Positive && k != Budget {
      OthersArePlaced(k);
    }
  }

  lemma PlacesAreOfKind(k: Kind, i: nat)
    requires i < NKEYS
    ensures KindOf(i) == k <==> i in PlacesOf(k)
  {
  }

  // By name: a key is of a kind exactly when its name is one of the kind's.
  lemma KeysByName(k: Kind, i: nat)
    requires i < NKEYS
    ensures KindOf(i) == k <==> KeyName(i) in NamesOf(k)
  {
    NamesAreThere(k);
    PlacesAreOfKind(k, i);
    hide KeyName, NamesOf, PlacesOf, KindOf;
    if KeyName(i) in NamesOf(k) {
      var j :| 0 <= j < |NamesOf(k)| && NamesOf(k)[j] == KeyName(i);
      NamesAreDistinct(i, PlacesOf(k)[j]);
    }
  }

  // What the key of a name takes, and what it then holds.
  lemma KeyTakesIff(known: string -> bool, i: nat, k: Kind, raw: string, w: string)
    requires i < NKEYS && KeyName(i) in NamesOf(k)
    ensures Normalize(known, KindOf(i), raw) == Some(w) <==> Takes(known, k, raw, w)
  {
    KeysByName(k, i);
    TakesIff(known, k, raw, w);
    hide KeyName, Normalize, Takes, NamesOf, KindOf;
  }
}
