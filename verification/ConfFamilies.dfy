// The skip_families value: a set of address families (src/conf.c). The program walks
// the value once, word by word; Words is that walk as a function, and SetText the
// canonical spelling of the set it finds. A list printed with any blanks and in any
// case reads back as the list, so the text depends on the set alone.
module ConfFamilies {
  import opened Common
  import opened ConfValues

  datatype Family = V4 | V6 | Neither

  predicate Blank(c: char) { c == ' ' || c == '\t' }

  predicate AllBlank(s: string) { forall i :: 0 <= i < |s| ==> Blank(s[i]) }

  predicate Ends(c: char) { c == '+' || Blank(c) }

  function FamilyOf(word: string): Option<Family> {
    var w := Lower(word);
    if w == "none" then Some(Neither) else if w == "ipv4" then Some(V4) else if w == "ipv6" then Some(V6) else None
  }

  function SkipBlanks(s: string, i: nat): (k: nat)
    requires i <= |s|
    ensures i <= k <= |s|
    ensures AllBlank(s[i..k])
    ensures k < |s| ==> !Blank(s[k])
    decreases |s| - i
  {
    if i < |s| && Blank(s[i]) then
      var k := SkipBlanks(s, i + 1);
      assert s[i..k] == [s[i]] + s[i + 1..k];
      k
    else i
  }

  function WordEnd(s: string, i: nat): (k: nat)
    requires i <= |s|
    ensures i <= k <= |s|
    decreases |s| - i
  {
    if i < |s| && !Ends(s[i]) then WordEnd(s, i + 1) else i
  }

  // The words of a value, in order; None for a missing word, an unknown one, or
  // anything but blanks and one '+' between two of them.
  function Words(s: string, i: nat): Option<seq<Family>>
    requires i <= |s|
    decreases |s| - i
  {
    if i == |s| then Some([])
    else
      var a := SkipBlanks(s, i);
      var e := WordEnd(s, a);
      if e == a then None
      else match FamilyOf(s[a..e])
        case None => None
        case Some(f) =>
          var b := SkipBlanks(s, e);
          if b == |s| then Some([f])
          else if s[b] != '+' || b + 1 == |s| then None
          else match Words(s, b + 1)
            case None => None
            case Some(rest) => Some([f] + rest)
  }

  // The text of a set of families.
  function SetText(words: seq<Family>): Option<string> {
    if Neither in words then (if |words| == 1 then Some("none") else None)
    else if V4 in words && V6 in words then Some("IPv4+IPv6")
    else if V4 in words then Some("IPv4")
    else if V6 in words then Some("IPv6")
    else None
  }

  function FamilySet(s: string): Option<string> {
    match Words(s, 0) case None => None case Some(words) => SetText(words)
  }

  // One word and the '+' after it; None when the value is refused here.
  method TakeWord(value: string, from: nat) returns (f: Option<Family>, p: nat)
    requires from < |value|
    ensures f.None? ==> Words(value, from) == None
    ensures f.Some? ==> from < p <= |value|
    ensures f.Some? && p == |value| ==> Words(value, from) == Some([f.value])
    ensures f.Some? && p < |value| ==> Words(value, from) == match Words(value, p) case None => None case Some(rest) => Some([f.value] + rest)
  {
    hide FamilyOf, SkipBlanks, WordEnd;
    p := SkipBlanks(value, from);
    var s := p;
    p := WordEnd(value, p);
    if p == s {
      return None, p;
    }
    f := FamilyOf(value[s..p]);
    if f.None? {
      return;
    }
    p := SkipBlanks(value, p);
    if p < |value| {
      if value[p] != '+' {
        return None, p;
      }
      p := p + 1;
      if p == |value| {
        return None, p;
      }
    }
  }

  // The words read so far, and what the rest of the value adds to them.
  predicate Reads(value: string, words: seq<Family>, p: nat)
    requires p <= |value|
  {
    if p == |value| then Words(value, 0) == Some(words)
    else match Words(value, p)
      case None => Words(value, 0).None?
      case Some(rest) => Words(value, 0) == Some(words + rest)
  }

  lemma ReadsOneMore(value: string, words: seq<Family>, p: nat, f: Family, next: nat)
    requires p < next <= |value| && Reads(value, words, p)
    requires next == |value| ==> Words(value, p) == Some([f])
    requires next < |value| ==> Words(value, p) == match Words(value, next) case None => None case Some(rest) => Some([f] + rest)
    ensures Reads(value, words + [f], next)
  {
    hide Words;
    if next < |value| && Words(value, next).Some? {
      Assoc(words, [f], Words(value, next).value);
    }
  }

  // nm_config_family_set_canon.
  method FamilySetCanon(value: string) returns (out: Option<string>)
    ensures out == FamilySet(value)
  {
    if value == [] {
      return None;
    }
    hide Words, SetText;
    var v4, v6, none, ntokens: nat := false, false, false, 0;
    var p := 0;
    ghost var words := [];
    assert Words(value, 0).Some? ==> [] + Words(value, 0).value == Words(value, 0).value;
    assert Reads(value, words, p);
    while p < |value|
      invariant p <= |value| && Reads(value, words, p)
      invariant ntokens == |words| && (v4 <==> V4 in words) && (v6 <==> V6 in words) && (none <==> Neither in words)
      decreases |value| - p
    {
      var f, next := TakeWord(value, p);
      if f.None? {
        assert FamilySet(value) == None;
        return None;
      }
      hide Reads;
      ReadsOneMore(value, words, p, f.value, next);
      match f.value {
        case Neither => none := true;
        case V4 => v4 := true;
        case V6 => v6 := true;
      }
      words := words + [f.value];
      ntokens := ntokens + 1;
      p := next;
    }
    out := Verdict(words, ntokens, v4, v6, none);
  }

  method Verdict(ghost words: seq<Family>, ntokens: nat, v4: bool, v6: bool, none: bool) returns (out: Option<string>)
    requires ntokens == |words| && (v4 <==> V4 in words) && (v6 <==> V6 in words) && (none <==> Neither in words)
    ensures out == SetText(words)
  {
    if none {
      if ntokens != 1 || v4 || v6 {
        return None;
      }
      return Some("none");
    }
    if !v4 && !v6 {
      return None;
    }
    out := Some(if v4 && v6 then "IPv4+IPv6" else if v4 then "IPv4" else "IPv6");
  }

  // ---- Printed sets read back. ----

  // A word as a user may type it.
  datatype Typed = Typed(before: string, word: string, after: string)

  function Print(ts: seq<Typed>): string
    requires ts != []
  {
    var one := ts[0].before + ts[0].word + ts[0].after;
    if |ts| == 1 then one else one + "+" + Print(ts[1..])
  }

  predicate Spelt(ts: seq<Typed>, words: seq<Family>) {
    |ts| == |words| && forall i :: 0 <= i < |ts| ==> AllBlank(ts[i].before) && AllBlank(ts[i].after) && FamilyOf(ts[i].word) == Some(words[i])
  }

  lemma {:induction false} SkipIsThere(s: string, i: nat, k: nat)
    requires i <= k <= |s| && AllBlank(s[i..k])
    requires k < |s| ==> !Blank(s[k])
    ensures SkipBlanks(s, i) == k
    decreases k - i
  {
    if i < k {
      assert s[i..k] == [s[i]] + s[i + 1..k];
      assert Blank(s[i..k][0]);
      SkipIsThere(s, i + 1, k);
    }
  }

  lemma {:induction false} WordEndIsThere(s: string, i: nat, k: nat)
    requires i <= k <= |s| && forall j :: i <= j < k ==> !Ends(s[j])
    requires k < |s| ==> Ends(s[k])
    ensures WordEnd(s, i) == k
    decreases k - i
  {
    if i < k {
      WordEndIsThere(s, i + 1, k);
    }
  }

  lemma FamilyWordsAreSolid(word: string)
    requires FamilyOf(word).Some?
    ensures |word| == 4 && forall i :: 0 <= i < |word| ==> !Ends(word[i])
  {
    var w := Lower(word);
    forall i | 0 <= i < |word| ensures !Ends(word[i]) {
      assert w[i] == LowerChar(word[i]);
      assert !Ends(w[i]);
    }
  }

  lemma Slice(s: string, i: nat, x: string)
    requires i + |x| <= |s| && s[i..i + |x|] == x
    ensures forall j :: i <= j < i + |x| ==> s[j] == x[j - i]
  {
    forall j | i <= j < i + |x| ensures s[j] == x[j - i] {
      assert s[i..i + |x|][j - i] == s[j];
    }
  }

  lemma SolidAt(s: string, a: nat, word: string)
    requires a + |word| <= |s| && s[a..a + |word|] == word && word != []
    requires forall j :: 0 <= j < |word| ==> !Ends(word[j])
    ensures !Blank(s[a]) && forall j :: a <= j < a + |word| ==> !Ends(s[j])
  {
    Slice(s, a, word);
    assert s[a] == word[0];
  }

  lemma AfterEnds(s: string, e: nat, after: string)
    requires e + |after| <= |s| && s[e..e + |after|] == after && AllBlank(after)
    requires e + |after| < |s| ==> s[e + |after|] == '+'
    ensures e < |s| ==> Ends(s[e])
    ensures e + |after| < |s| ==> !Blank(s[e + |after|])
  {
    Slice(s, e, after);
    if after != [] {
      assert s[e] == after[0];
    }
  }

  // One typed word at i, ended by the end of the value or by a '+'.
  lemma OneWord(s: string, i: nat, t: Typed)
    requires AllBlank(t.before) && AllBlank(t.after) && FamilyOf(t.word).Some?
    requires i + |t.before| + |t.word| + |t.after| <= |s|
    requires s[i..i + |t.before|] == t.before
    requires s[i + |t.before|..i + |t.before| + |t.word|] == t.word
    requires s[i + |t.before| + |t.word|..i + |t.before| + |t.word| + |t.after|] == t.after
    requires i + |t.before| + |t.word| + |t.after| < |s| ==> s[i + |t.before| + |t.word| + |t.after|] == '+'
    ensures SkipBlanks(s, i) == i + |t.before|
    ensures WordEnd(s, i + |t.before|) == i + |t.before| + |t.word| > i + |t.before|
    ensures SkipBlanks(s, i + |t.before| + |t.word|) == i + |t.before| + |t.word| + |t.after|
  {
    FamilyWordsAreSolid(t.word);
    hide FamilyOf, SkipBlanks, WordEnd;
    var a := i + |t.before|;
    var e := a + |t.word|;
    SolidAt(s, a, t.word);
    AfterEnds(s, e, t.after);
    hide Ends, AllBlank;
    SkipIsThere(s, i, a);
    WordEndIsThere(s, a, e);
    SkipIsThere(s, e, e + |t.after|);
  }

  lemma WordsStep(s: string, i: nat, a: nat, e: nat, b: nat)
    requires i <= a < e <= b <= |s| && i < |s|
    requires SkipBlanks(s, i) == a && WordEnd(s, a) == e && SkipBlanks(s, e) == b
    requires FamilyOf(s[a..e]).Some?
    ensures b == |s| ==> Words(s, i) == Some([FamilyOf(s[a..e]).value])
    ensures b + 1 < |s| && s[b] == '+' && Words(s, b + 1).Some? ==> Words(s, i) == Some([FamilyOf(s[a..e]).value] + Words(s, b + 1).value)
  {
    hide FamilyOf, SkipBlanks, WordEnd;
  }

  predicate TypedAt(s: string, i: nat, t: Typed) {
    && i + |t.before| + |t.word| + |t.after| <= |s|
    && s[i..i + |t.before|] == t.before
    && s[i + |t.before|..i + |t.before| + |t.word|] == t.word
    && s[i + |t.before| + |t.word|..i + |t.before| + |t.word| + |t.after|] == t.after
  }

  // One typed word, and what the rest of the value reads as.
  lemma TypedStep(s: string, i: nat, t: Typed, f: Family)
    requires AllBlank(t.before) && AllBlank(t.after) && FamilyOf(t.word) == Some(f) && TypedAt(s, i, t)
    ensures var b := i + |t.before| + |t.word| + |t.after|; b == |s| ==> Words(s, i) == Some([f])
    ensures var b := i + |t.before| + |t.word| + |t.after|;
      b + 1 < |s| && s[b] == '+' && Words(s, b + 1).Some? ==> Words(s, i) == Some([f] + Words(s, b + 1).value)
  {
    var b := i + |t.before| + |t.word| + |t.after|;
    FamilyWordsAreSolid(t.word);
    hide FamilyOf, SkipBlanks, WordEnd, Words;
    if b < |s| && s[b] != '+' {
      return;
    }
    OneWord(s, i, t);
    WordsStep(s, i, i + |t.before|, i + |t.before| + |t.word|, b);
  }

  lemma TypedIsThere(pre: string, t: Typed, rest: string)
    ensures TypedAt(pre + ((t.before + t.word + t.after) + rest), |pre|, t)
  {
    var one := t.before + t.word + t.after;
    var s := pre + (one + rest);
    Assoc(pre, one, rest);
  }

  // Whatever the blanks and the case, the words of a printed list are the list.
  lemma {:induction false} PrintedWords(pre: string, ts: seq<Typed>, words: seq<Family>)
    requires ts != [] && Spelt(ts, words)
    ensures Words(pre + Print(ts), |pre|) == Some(words)
    decreases |ts|
  {
    var t := ts[0];
    var one := t.before + t.word + t.after;
    SpeltParts(ts, words);
    hide FamilyOf, Words, Spelt, AllBlank;
    if |ts| == 1 {
      assert Print(ts) == one;
      LastPrint(pre, t, words[0]);
    } else {
      var rest := Print(ts[1..]);
      assert Print(ts) == one + "+" + rest;
      hide Print;
      LongerPrint(pre, t, words[0], rest);
      PrintedWords(pre + (one + "+"), ts[1..], words[1..]);
    }
  }

  lemma SpeltParts(ts: seq<Typed>, words: seq<Family>)
    requires ts != [] && Spelt(ts, words)
    ensures |ts| == |words| && words == [words[0]] + words[1..] && Spelt(ts[1..], words[1..])
    ensures |ts| == 1 ==> words == [words[0]]
    ensures AllBlank(ts[0].before) && AllBlank(ts[0].after) && FamilyOf(ts[0].word) == Some(words[0])
    ensures |ts| > 1 ==> Print(ts[1..]) != []
  {
  }

  lemma LastPrint(pre: string, t: Typed, f: Family)
    requires AllBlank(t.before) && AllBlank(t.after) && FamilyOf(t.word) == Some(f)
    ensures Words(pre + (t.before + t.word + t.after), |pre|) == Some([f])
  {
    hide FamilyOf, Words, AllBlank;
    var one := t.before + t.word + t.after;
    TypedIsThere(pre, t, []);
    assert one + [] == one;
    hide TypedAt;
    TypedStep(pre + one, |pre|, t, f);
  }

  lemma LongerPrint(pre: string, t: Typed, f: Family, rest: string)
    requires AllBlank(t.before) && AllBlank(t.after) && FamilyOf(t.word) == Some(f) && rest != []
    ensures var s := pre + ((t.before + t.word + t.after) + "+" + rest); var p := pre + ((t.before + t.word + t.after) + "+");
      s == p + rest && (Words(s, |p|).Some? ==> Words(s, |pre|) == Some([f] + Words(s, |p|).value))
  {
    hide FamilyOf, Words, AllBlank;
    var one := t.before + t.word + t.after;
    var s := pre + (one + "+" + rest);
    Assoc(one, "+", rest);
    TypedIsThere(pre, t, "+" + rest);
    Assoc(pre, one + "+", rest);
    hide TypedAt;
    assert s[|pre| + |one|] == '+';
    TypedStep(s, |pre|, t, f);
  }

  // The canonical text depends on the set of words alone.
  lemma FamilySetIsCanonical(ts: seq<Typed>, words: seq<Family>)
    requires ts != [] && Spelt(ts, words)
    ensures FamilySet(Print(ts)) == SetText(words)
  {
    PrintedWords([], ts, words);
    assert [] + Print(ts) == Print(ts);
  }

  lemma OneTyped(w: string)
    requires FamilyOf(w).Some?
    ensures FamilySet(w) == SetText([FamilyOf(w).value])
  {
    hide FamilyOf, SetText, FamilySet;
    var ts := [Typed([], w, [])];
    assert Print(ts) == [] + w + [] == w;
    FamilySetIsCanonical(ts, [FamilyOf(w).value]);
  }

  lemma TwoTyped(v: string, w: string)
    requires FamilyOf(v).Some? && FamilyOf(w).Some?
    ensures FamilySet(v + "+" + w) == SetText([FamilyOf(v).value, FamilyOf(w).value])
  {
    hide FamilyOf, SetText, FamilySet;
    var ts := [Typed([], v, []), Typed([], w, [])];
    assert ts[1..] == [Typed([], w, [])];
    assert Print(ts[1..]) == [] + w + [] == w;
    assert Print(ts) == [] + v + [] + "+" + w == v + "+" + w;
    FamilySetIsCanonical(ts, [FamilyOf(v).value, FamilyOf(w).value]);
  }

  lemma FamilyNames()
    ensures FamilyOf("none") == Some(Neither) && FamilyOf("IPv4") == Some(V4) && FamilyOf("IPv6") == Some(V6)
  {
    assert Lower("none") == "none";
    assert Lower("IPv4") == "ipv4";
    assert Lower("IPv6") == "ipv6";
  }

  // Four texts, and nothing else.
  lemma SetTexts(words: seq<Family>)
    requires SetText(words).Some?
    ensures var t := SetText(words);
      t == SetText([Neither]) || t == SetText([V4]) || t == SetText([V6]) || t == SetText([V4, V6])
  {
  }

  // The canonical text is its own canonical text.
  lemma FamilySetIsIdempotent(s: string)
    requires FamilySet(s).Some?
    ensures FamilySet(FamilySet(s).value) == FamilySet(s)
  {
    SetTexts(Words(s, 0).value);
    FamilyNames();
    TextsOfSets();
    OneTyped("none");
    OneTyped("IPv4");
    OneTyped("IPv6");
    TwoTyped("IPv4", "IPv6");
  }

  lemma TextsOfSets()
    ensures SetText([Neither]) == Some("none") && SetText([V4]) == Some("IPv4") && SetText([V6]) == Some("IPv6")
    ensures SetText([V4, V6]) == Some("IPv4" + "+" + "IPv6")
  {
    assert "IPv4" + "+" + "IPv6" == "IPv4+IPv6";
  }
}
