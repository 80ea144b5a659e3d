// The reminder boundary (src/reminder.c): text from outside has the opening bracket of
// every reminder tag escaped.
module Reminder {
  import opened Common

  const NAME := "system-reminder>"
  const ESCAPE := "&lt;"

  function Lower(c: char): char {
    if 'A' <= c <= 'Z' then (c as int - 'A' as int + 'a' as int) as char else c
  }

  // ci_prefix at i.
  predicate NameAt(s: string, i: nat) {
    i + |NAME| <= |s| && forall j :: 0 <= j < |NAME| ==> NAME[j] == Lower(s[i + j])
  }

  // tag_len_at: either spelling, in any case; 0 when no tag starts at i.
  function TagLen(s: string, i: nat): (n: nat)
    ensures n > 0 ==> i + n <= |s| && s[i] == '<' && 17 <= n <= 18
  {
    if i + 1 >= |s| || s[i] != '<' then 0
    else if s[i + 1] == '/' then (if NameAt(s, i + 2) then 18 else 0)
    else if NameAt(s, i + 1) then 17 else 0
  }

  // What nm_reminder_sanitize appends for the text from i on.
  function From(s: string, i: nat): string
    requires i <= |s|
    decreases |s| - i
  {
    if i == |s| then ""
    else
      var n := TagLen(s, i);
      if n > 0 then ESCAPE + s[i + 1..i + n] + From(s, i + n) else [s[i]] + From(s, i + 1)
  }

  function Hits(s: string, i: nat): nat
    requires i <= |s|
    decreases |s| - i
  {
    if i == |s| then 0
    else
      var n := TagLen(s, i);
      if n > 0 then 1 + Hits(s, i + n) else Hits(s, i + 1)
  }

  function Sanitized(s: string): string { From(s, 0) }

  predicate NoTag(s: string) { forall k :: 0 <= k < |s| ==> TagLen(s, k) == 0 }

  // The next bracket from i on; |s| when there is none.
  function BracketAt(s: string, i: nat): (q: nat)
    requires i <= |s|
    ensures i <= q <= |s| && (q < |s| ==> s[q] == '<')
    ensures forall k :: i <= k < q ==> s[k] != '<'
    decreases |s| - i
  {
    if i < |s| && s[i] != '<' then BracketAt(s, i + 1) else i
  }

  lemma PlainStep(s: string, i: nat)
    requires i < |s| && TagLen(s, i) == 0
    ensures From(s, i) == [s[i]] + From(s, i + 1) && Hits(s, i) == Hits(s, i + 1)
  {
  }

  lemma TagStep(s: string, i: nat)
    requires i < |s| && TagLen(s, i) > 0
    ensures From(s, i) == ESCAPE + s[i + 1..i + TagLen(s, i)] + From(s, i + TagLen(s, i)) && Hits(s, i) == 1 + Hits(s, i + TagLen(s, i))
  {
  }

  lemma Grow(s: string, i: nat, q: nat)
    requires i < q <= |s|
    ensures s[i..q] == [s[i]] + s[i + 1..q]
  {
  }

  // Up to the next bracket the text rides through unchanged.
  lemma {:induction false} RunIsKept(s: string, i: nat, q: nat)
    requires i <= q <= |s| && forall k :: i <= k < q ==> s[k] != '<'
    ensures From(s, i) == s[i..q] + From(s, q) && Hits(s, i) == Hits(s, q)
    decreases q - i
  {
    if i < q {
      PlainStep(s, i);
      hide From, Hits, TagLen;
      RunIsKept(s, i + 1, q);
      Grow(s, i, q);
      Assoc([s[i]], s[i + 1..q], From(s, q));
    } else {
      assert s[i..q] == "";
    }
  }

  // nm_reminder_sanitize, run by run; the number of tags it escaped.
  method Sanitize(text: string) returns (out: string, hits: nat)
    ensures out == Sanitized(text) && hits == Hits(text, 0)
  {
    hide From, Hits, TagLen;
    out, hits := "", 0;
    var i := 0;
    while i < |text|
      invariant i <= |text|
      invariant out + From(text, i) == From(text, 0) && hits + Hits(text, i) == Hits(text, 0)
      decreases |text| - i
    {
      if text[i] == '<' {
        var n := TagLen(text, i);
        if n > 0 {
          TagStep(text, i);
          Assoc(out, ESCAPE + text[i + 1..i + n], From(text, i + n));
          out := out + (ESCAPE + text[i + 1..i + n]);
          i := i + n;
          hits := hits + 1;
          continue;
        }
      }
      var j := BracketAt(text, i + 1);
      NoBracketNoTag(text, i);
      PlainStep(text, i);
      RunIsKept(text, i + 1, j);
      Grow(text, i, j);
      Assoc([text[i]], text[i + 1..j], From(text, j));
      Assoc(out, text[i..j], From(text, j));
      out := out + text[i..j];
      i := j;
    }
    TextEnds(text);
  }

  lemma NoBracketNoTag(s: string, i: nat)
    ensures TagLen(s, i) > 0 ==> i < |s| && s[i] == '<'
  {
  }

  lemma TextEnds(s: string)
    ensures From(s, |s|) == "" && Hits(s, |s|) == 0
  {
  }

  // nm_reminder_has_tag.
  method HasTag(text: string) returns (has: bool)
    ensures has <==> !NoTag(text)
  {
    for i := 0 to |text|
      invariant forall k :: 0 <= k < i ==> TagLen(text, k) == 0
    {
      if text[i] == '<' && TagLen(text, i) > 0 {
        return true;
      }
    }
    return false;
  }

  // ---- No tag is left. ----

  // The same text behind another start.
  lemma TagBehind(a: string, b: string, k: nat)
    ensures TagLen(a + b, |a| + k) == TagLen(b, k)
  {
    assert forall j :: 0 <= j < |b| ==> (a + b)[|a| + j] == b[j];
    NameBehind(a, b, k + 1);
    NameBehind(a, b, k + 2);
  }

  lemma NameBehind(a: string, b: string, k: nat)
    ensures NameAt(a + b, |a| + k) <==> NameAt(b, k)
  {
    assert |a + b| == |a| + |b|;
    assert k + |NAME| <= |b| ==> forall j :: 0 <= j < |NAME| ==> NAME[j] == NAME[j] && (a + b)[|a| + k + j] == b[k + j];
  }

  // A tag's own text after its bracket holds no bracket.
  lemma TagHasOneBracket(s: string, i: nat)
    ensures forall k :: i < k < i + TagLen(s, i) ==> s[k] != '<'
  {
    var n := TagLen(s, i);
    NameHasNone();
    forall k | i < k < i + n ensures s[k] != '<' {
      var from := if n == 18 then i + 2 else i + 1;
      assert k >= from ==> NAME[k - from] == Lower(s[from + (k - from)]);
    }
  }

  lemma NameHasNone()
    ensures |NAME| == 16 && forall j :: 0 <= j < |NAME| ==> NAME[j] != '<' && NAME[j] != '&' && NAME[j] != '/'
  {
  }

  // Where the text goes on plainly, what is appended starts with the same characters
  // up to the next bracket, and there with a bracket or its escape.
  lemma FromStarts(s: string, i: nat, q: nat)
    requires i <= |s| && q == BracketAt(s, i)
    ensures |From(s, i)| >= q - i && From(s, i)[..q - i] == s[i..q]
    ensures if q == |s| then |From(s, i)| == q - i else |From(s, i)| > q - i && From(s, i)[q - i] in {'<', '&'}
  {
    RunIsKept(s, i, q);
    hide TagLen;
  }

  lemma NoName(c: char, j: nat)
    requires j < |NAME| && (c == '<' || c == '&')
    ensures NAME[j] != Lower(c)
  {
    NameHasNone();
  }

  // A name in what is appended was a name in the text.
  lemma NameWasThere(s: string, i: nat, d: nat)
    requires i <= |s| && d <= 1 && NameAt(From(s, i), d) && (d == 1 ==> From(s, i)[0] == '/')
    ensures NameAt(s, i + d) && i < |s| && From(s, i)[0] == s[i]
  {
    var q := BracketAt(s, i);
    var t := From(s, i);
    FromStarts(s, i, q);
    NameHasNone();
    hide From;
    if q - i < d + 16 {
      assert q < |s| && q - i < |t|;
      if q - i >= d {
        NoName(t[q - i], q - i - d);
      }
      assert false;
    }
    assert t[0] == t[..q - i][0] == s[i];
    forall j | 0 <= j < |NAME| ensures NAME[j] == Lower(s[i + d + j]) {
      assert t[d + j] == t[..q - i][d + j] == s[i + d + j];
    }
  }

  // A bracket that opens no tag in the text opens none in what is appended.
  lemma BracketStays(s: string, i: nat)
    requires i < |s| && s[i] == '<' && TagLen(s, i) == 0
    ensures TagLen([s[i]] + From(s, i + 1), 0) == 0
  {
    var rest := From(s, i + 1);
    var t := [s[i]] + rest;
    assert |t| > 1 ==> t[1] == rest[0];
    NameBehind([s[i]], rest, 0);
    NameBehind([s[i]], rest, 1);
    NameHasNone();
    hide From;
    if NameAt(rest, 0) {
      NameWasThere(s, i + 1, 0);
      assert NAME[0] == Lower(rest[0 + 0]);
    }
    if |rest| > 0 && rest[0] == '/' && NameAt(rest, 1) {
      NameWasThere(s, i + 1, 1);
    }
  }

  // Text without a tag behind a start in which none begins.
  lemma NoTagJoins(head: string, rest: string)
    requires NoTag(rest) && forall k :: 0 <= k < |head| ==> TagLen(head + rest, k) == 0
    ensures NoTag(head + rest)
  {
    hide TagLen;
    forall k | 0 <= k < |head + rest| ensures TagLen(head + rest, k) == 0 {
      if k >= |head| {
        TagBehind(head, rest, k - |head|);
        assert |head| + (k - |head|) == k;
      }
    }
  }

  lemma NoBracketJoins(head: string, rest: string)
    requires NoTag(rest) && forall k :: 0 <= k < |head| ==> head[k] != '<'
    ensures NoTag(head + rest)
  {
    hide TagLen;
    forall k | 0 <= k < |head| ensures TagLen(head + rest, k) == 0 {
      assert (head + rest)[k] == head[k];
      NoBracketNoTag(head + rest, k);
    }
    NoTagJoins(head, rest);
  }

  // Sanitized text holds no tag, whatever the text was.
  lemma {:induction false} NoTagIsLeft(s: string, i: nat)
    requires i <= |s|
    ensures NoTag(From(s, i))
    decreases |s| - i
  {
    hide From, TagLen, NoTag;
    if i == |s| {
      NothingLeft(s);
    } else if TagLen(s, i) > 0 {
      var n := TagLen(s, i);
      TagStep(s, i);
      NoTagIsLeft(s, i + n);
      TagHasOneBracket(s, i);
      NoBracketJoins(ESCAPE + s[i + 1..i + n], From(s, i + n));
    } else {
      PlainStep(s, i);
      NoTagIsLeft(s, i + 1);
      if s[i] == '<' {
        BracketStays(s, i);
        NoTagJoins([s[i]], From(s, i + 1));
      } else {
        NoBracketJoins([s[i]], From(s, i + 1));
      }
    }
  }

  lemma NothingLeft(s: string)
    ensures NoTag(From(s, |s|))
  {
  }

  // Text without a tag is left as it is, and so sanitizing twice is sanitizing once.
  lemma {:induction false} CleanIsKept(s: string, i: nat)
    requires i <= |s| && NoTag(s)
    ensures From(s, i) == s[i..] && Hits(s, i) == 0
    decreases |s| - i
  {
    if i < |s| {
      CleanIsKept(s, i + 1);
    }
  }

  lemma SanitizeIsIdempotent(s: string)
    ensures NoTag(Sanitized(s)) && Sanitized(Sanitized(s)) == Sanitized(s)
  {
    NoTagIsLeft(s, 0);
    CleanIsKept(Sanitized(s), 0);
    hide From, TagLen;
  }

  // Each tag grows the text by the three characters its escape is longer.
  lemma {:induction false} EscapesAreCounted(s: string, i: nat)
    requires i <= |s|
    ensures |From(s, i)| == |s| - i + 3 * Hits(s, i)
    decreases |s| - i
  {
    if i < |s| {
      var n := TagLen(s, i);
      EscapesAreCounted(s, if n > 0 then i + n else i + 1);
    }
  }

  lemma {:induction false} TagIsCounted(s: string, i: nat, k: nat)
    requires i <= k < |s| && TagLen(s, k) > 0
    ensures Hits(s, i) > 0
    decreases k - i
  {
    if TagLen(s, i) == 0 {
      TagIsCounted(s, i + 1, k);
    }
  }

  // The text is unchanged exactly when it holds no tag.
  lemma SanitizeKeepsIff(s: string)
    ensures Sanitized(s) == s <==> NoTag(s)
    ensures Hits(s, 0) == 0 <==> NoTag(s)
  {
    EscapesAreCounted(s, 0);
    if NoTag(s) {
      CleanIsKept(s, 0);
      assert s[0..] == s;
    } else {
      var k :| 0 <= k < |s| && TagLen(s, k) != 0;
      TagIsCounted(s, 0, k);
    }
    hide From, Hits;
  }

  // The text reads `word` at i, in any case.
  predicate Spells(s: string, i: nat, word: string) {
    i + |word| <= |s| && forall j :: 0 <= j < |word| ==> SameLetter(s[i + j], word[j])
  }

  lemma LowerIff(c: char, d: char)
    requires !('A' <= c <= 'Z')
    ensures c == Lower(d) <==> SameLetter(d, c)
  {
  }

  lemma NameSpells(s: string, i: nat)
    ensures NameAt(s, i) <==> Spells(s, i, NAME)
  {
    forall j, d | 0 <= j < |NAME| ensures NAME[j] == Lower(d) <==> SameLetter(d, NAME[j]) {
      LowerIff(NAME[j], d);
    }
    hide Lower, SameLetter;
  }

  // A tag is exactly one of its two spellings, in any case.
  lemma TagIff(s: string, i: nat)
    ensures TagLen(s, i) == 17 <==> Spells(s, i, "<system-reminder>")
    ensures TagLen(s, i) == 18 <==> Spells(s, i, "</system-reminder>")
    ensures TagLen(s, i) == 0 || TagLen(s, i) == 17 || TagLen(s, i) == 18
  {
    NameSpells(s, i + 1);
    NameSpells(s, i + 2);
    SpellsAfter(s, i, "<", NAME);
    SpellsAfter(s, i, "</", NAME);
    assert "<" + NAME == "<system-reminder>" && "</" + NAME == "</system-reminder>";
    hide NameAt;
    OpenersSpell(s, i);
    SlashIsNoName(s, i + 1);
  }

  lemma OpenersSpell(s: string, i: nat)
    ensures Spells(s, i, "<") <==> i < |s| && s[i] == '<'
    ensures Spells(s, i, "</") <==> i + 1 < |s| && s[i] == '<' && s[i + 1] == '/'
  {
    if Spells(s, i, "<") {
      assert SameLetter(s[i + 0], "<"[0]);
    }
    if Spells(s, i, "</") {
      assert SameLetter(s[i + 0], "</"[0]) && SameLetter(s[i + 1], "</"[1]);
    }
  }

  lemma SpellsAfter(s: string, i: nat, a: string, b: string)
    ensures Spells(s, i, a + b) <==> Spells(s, i, a) && Spells(s, i + |a|, b)
  {
    hide SameLetter;
    var w := a + b;
    assert forall j :: 0 <= j < |a| ==> w[j] == a[j];
    assert forall j :: 0 <= j < |b| ==> w[|a| + j] == b[j];
    if Spells(s, i, w) {
      forall j | 0 <= j < |b| ensures SameLetter(s[i + |a| + j], b[j]) {
        assert SameLetter(s[i + (|a| + j)], w[|a| + j]);
      }
    }
    if Spells(s, i, a) && Spells(s, i + |a|, b) {
      forall j | 0 <= j < |w| ensures SameLetter(s[i + j], w[j]) {
        if j >= |a| {
          assert SameLetter(s[i + |a| + (j - |a|)], b[j - |a|]);
        }
      }
    }
  }

  lemma SlashIsNoName(s: string, i: nat)
    ensures i < |s| && s[i] == '/' ==> !Spells(s, i, NAME)
  {
    assert NAME[0] == 's';
  }
}
