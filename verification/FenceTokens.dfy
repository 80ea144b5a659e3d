// What stands at each place of a fence line, by the text alone (src/highlight.c):
// where a comment, a literal, a number or a word starts, how far it goes, and that a
// line reads in one way only.
module FenceTokens {
  import opened HighlightSpec

  datatype Span = Span(off: nat, len: nat, kind: Kind)

  // ---- Characters. ----

  predicate Digit(c: char) { '0' <= c <= '9' }
  predicate Letter(c: char) { 'a' <= c <= 'z' || 'A' <= c <= 'Z' }
  predicate WordStart(c: char) { Letter(c) || c == '_' }
  predicate WordChar(c: char) { Letter(c) || Digit(c) || c == '_' }
  predicate NumberChar(c: char) { WordChar(c) || c == '.' }

  predicate Is(s: string, i: nat, c: char) { i < |s| && s[i] == c }
  predicate DigitAt(s: string, i: nat) { i < |s| && Digit(s[i]) }

  // ---- Where a token starts. ----

  predicate OpensBlock(s: string, i: nat) { Is(s, i, '/') && Is(s, i + 1, '*') }
  predicate OpensLine(s: string, i: nat) { Is(s, i, '/') && Is(s, i + 1, '/') }

  // `inside`: a block comment is open at i.
  predicate CommentAt(lang: Lang, s: string, inside: bool, i: nat) {
    match lang
    case LangC => inside || OpensLine(s, i) || OpensBlock(s, i)
    case LangSh => Is(s, i, '#') && (i == 0 || Is(s, i - 1, ' ') || Is(s, i - 1, '\t'))
    case _ => false
  }

  predicate LiteralAt(lang: Lang, s: string, i: nat) {
    match lang
    case LangNone => false
    case LangJson => Is(s, i, '"')
    case _ => Is(s, i, '"') || Is(s, i, '\'')
  }

  predicate NumberAt(lang: Lang, s: string, i: nat) {
    match lang
    case LangNone => false
    case LangC => DigitAt(s, i) || (Is(s, i, '.') && DigitAt(s, i + 1))
    case LangSh => DigitAt(s, i)
    case LangJson => DigitAt(s, i) || (Is(s, i, '-') && DigitAt(s, i + 1))
  }

  // ---- How far a token goes. ----

  // A whole identifier.
  predicate Word(s: string, i: nat, j: nat) {
    && i < j <= |s| && WordStart(s[i]) && (forall k :: i <= k < j ==> WordChar(s[k]))
    && (j < |s| ==> !WordChar(s[j]))
  }

  predicate NumberRun(s: string, i: nat, j: nat) {
    i <= j <= |s| && (forall k :: i <= k < j ==> NumberChar(s[k])) && (j < |s| ==> !NumberChar(s[j]))
  }

  predicate DigitRun(s: string, i: nat, j: nat) {
    i <= j <= |s| && (forall k :: i <= k < j ==> Digit(s[k])) && !DigitAt(s, j)
  }

  // A number's digits end at d, its fraction at f and its exponent at j.
  predicate JsonParts(s: string, i: nat, d: nat, f: nat, j: nat) {
    && DigitRun(s, if Is(s, i, '-') then i + 1 else i, d)
    && (if Is(s, d, '.') then DigitRun(s, d + 1, f) else f == d)
    && (if Is(s, f, 'e') || Is(s, f, 'E') then
          DigitRun(s, if Is(s, f + 1, '+') || Is(s, f + 1, '-') then f + 2 else f + 1, j)
        else j == f)
  }

  ghost predicate JsonNumber(s: string, i: nat, j: nat) { exists d: nat, f: nat :: JsonParts(s, i, d, f, j) }

  // The backslashes right before k in a literal that opens at i.
  function Slashes(s: string, i: nat, k: nat): nat
    requires k <= |s|
    decreases k
  {
    if k <= i + 1 || s[k - 1] != '\\' then 0 else 1 + Slashes(s, i, k - 1)
  }

  // The literal that opens at i closes at k: its quote again, not behind an odd number
  // of backslashes where they escape.
  predicate Closes(s: string, i: nat, k: nat, escapes: bool) {
    i < k < |s| && s[k] == s[i] && !(escapes && Slashes(s, i, k) % 2 == 1)
  }

  // Through its first closing quote, or to the end of the line.
  predicate Literal(s: string, i: nat, j: nat, escapes: bool) {
    && i < j <= |s|
    && (forall k :: i < k < j - 1 ==> !Closes(s, i, k, escapes))
    && (Closes(s, i, j - 1, escapes) || j == |s|)
  }

  predicate ClosesBlock(s: string, k: nat) { Is(s, k, '*') && Is(s, k + 1, '/') }

  predicate NeverCloses(s: string, from: nat) { forall k :: from <= k < |s| ==> !ClosesBlock(s, k) }

  // Through the first close at or after `from`, or to the end of the line.
  predicate BlockTo(s: string, from: nat, j: nat) {
    if NeverCloses(s, from) then j == |s|
    else from + 2 <= j <= |s| && ClosesBlock(s, j - 2) && forall k :: from <= k < j - 2 ==> !ClosesBlock(s, k)
  }

  predicate CommentTo(lang: Lang, s: string, inside: bool, i: nat, j: nat) {
    if lang == LangC && inside then BlockTo(s, i, j)
    else if lang == LangC && OpensBlock(s, i) then BlockTo(s, i + 2, j)
    else j == |s|
  }

  // ---- A token. ----

  // s[i..j] is a token of class `kind`. Each class is told at its start: a comment, a
  // literal and a number by their openers, a keyword by the whole word.
  ghost predicate Stands(words: Words, lang: Lang, s: string, inside: bool, i: nat, j: nat, kind: Kind) {
    && i < j <= |s|
    && (kind == Comment <==> CommentAt(lang, s, inside, i))
    && (kind == Str <==> !inside && LiteralAt(lang, s, i))
    && (kind == Number <==> !inside && NumberAt(lang, s, i))
    && (kind == Keyword <==> !inside && lang != LangNone && Word(s, i, j) && words(lang, s[i..j]))
    && (kind == Comment ==> CommentTo(lang, s, inside, i, j))
    && (kind == Str ==> Literal(s, i, j, !(lang == LangSh && s[i] == '\'')))
    && (kind == Number ==> if lang == LangJson then JsonNumber(s, i, j) else NumberRun(s, i, j))
    && (kind == Plain ==>
        if lang == LangNone then j == |s| else if WordStart(s[i]) then Word(s, i, j) else j == i + 1)
  }

  function End(p: Span): nat { p.off + p.len }

  // A comment can be open only where the line starts.
  predicate Inside(lang: Lang, block: bool, i: nat) { lang == LangC && block && i == 0 }

  // The tokens of the first n characters of a line, in order and without a gap.
  ghost predicate Reading(words: Words, lang: Lang, s: string, block: bool, ps: seq<Span>, n: nat) {
    && n == (if ps == [] then 0 else End(ps[|ps| - 1]))
    && forall m: nat :: m < |ps| ==> Follows(words, lang, s, block, ps, m)
  }

  // A token starts where the one before it ends.
  ghost predicate Follows(words: Words, lang: Lang, s: string, block: bool, ps: seq<Span>, m: nat)
    requires m < |ps|
  {
    && ps[m].off == (if m == 0 then 0 else End(ps[m - 1]))
    && Stands(words, lang, s, Inside(lang, block, ps[m].off), ps[m].off, End(ps[m]), ps[m].kind)
  }

  // Whether a comment is open after the line: it was and nothing closed it, or the
  // last token opens one that nothing closes.
  predicate LeftOpen(lang: Lang, s: string, block: bool, ps: seq<Span>) {
    if lang != LangC || ps == [] then block
    else Unclosed(s, Inside(lang, block, ps[|ps| - 1].off), ps[|ps| - 1].off)
  }

  predicate Unclosed(s: string, inside: bool, i: nat) {
    if inside then NeverCloses(s, i) else OpensBlock(s, i) && NeverCloses(s, i + 2)
  }

  // ---- A line reads in one way. ----

  lemma DigitRunOnce(s: string, i: nat, j: nat, j': nat)
    requires DigitRun(s, i, j) && DigitRun(s, i, j')
    ensures j == j'
  {
  }

  lemma JsonOnce(s: string, i: nat, j: nat, j': nat)
    requires JsonNumber(s, i, j) && JsonNumber(s, i, j')
    ensures j == j'
  {
    var d: nat, f: nat :| JsonParts(s, i, d, f, j);
    var d': nat, f': nat :| JsonParts(s, i, d', f', j');
    hide DigitRun;
    DigitRunOnce(s, if Is(s, i, '-') then i + 1 else i, d, d');
    if Is(s, d, '.') {
      DigitRunOnce(s, d + 1, f, f');
    }
    if Is(s, f, 'e') || Is(s, f, 'E') {
      DigitRunOnce(s, if Is(s, f + 1, '+') || Is(s, f + 1, '-') then f + 2 else f + 1, j, j');
    }
  }

  lemma LiteralOnce(s: string, i: nat, j: nat, j': nat, escapes: bool)
    requires Literal(s, i, j, escapes) && Literal(s, i, j', escapes)
    ensures j == j'
  {
  }

  lemma BlockOnce(s: string, from: nat, j: nat, j': nat)
    requires BlockTo(s, from, j) && BlockTo(s, from, j')
    ensures j == j'
  {
    hide ClosesBlock;
  }

  lemma StandsOnce(words: Words, lang: Lang, s: string, inside: bool, i: nat, j: nat, kind: Kind, j': nat, kind': Kind)
    requires Stands(words, lang, s, inside, i, j, kind) && Stands(words, lang, s, inside, i, j', kind')
    requires inside ==> lang == LangC
    ensures j == j' && kind == kind'
  {
    hide CommentAt, LiteralAt, NumberAt, Literal, JsonNumber, BlockTo;
    assert kind == Comment <==> kind' == Comment;
    if kind == Comment {
      CommentOnce(lang, s, inside, i, j, j');
    } else if kind == Str {
      LiteralOnce(s, i, j, j', !(lang == LangSh && s[i] == '\''));
    } else if kind == Number && lang == LangJson {
      JsonOnce(s, i, j, j');
    }
  }

  lemma CommentOnce(lang: Lang, s: string, inside: bool, i: nat, j: nat, j': nat)
    requires CommentTo(lang, s, inside, i, j) && CommentTo(lang, s, inside, i, j')
    ensures j == j'
  {
    hide BlockTo;
    if lang == LangC && inside {
      BlockOnce(s, i, j, j');
    } else if lang == LangC && OpensBlock(s, i) {
      BlockOnce(s, i + 2, j, j');
    }
  }

  // Two readings of a line agree: a token starts where the one before it ends, and what
  // starts there is told by the text.
  lemma ReadingIsUnique(words: Words, lang: Lang, s: string, block: bool, ps: seq<Span>, qs: seq<Span>)
    requires Reading(words, lang, s, block, ps, |s|) && Reading(words, lang, s, block, qs, |s|)
    ensures ps == qs
  {
    hide Reading;
    AgreeTo(words, lang, s, block, ps, qs, if |ps| <= |qs| then |ps| else |qs|);
    NotShorter(words, lang, s, block, ps, qs);
    NotShorter(words, lang, s, block, qs, ps);
  }

  lemma {:induction false} AgreeTo(words: Words, lang: Lang, s: string, block: bool, ps: seq<Span>, qs: seq<Span>, m: nat)
    requires Reading(words, lang, s, block, ps, |s|) && Reading(words, lang, s, block, qs, |s|)
    requires m <= |ps| && m <= |qs|
    ensures ps[..m] == qs[..m]
  {
    hide Stands;
    if m > 0 {
      AgreeTo(words, lang, s, block, ps, qs, m - 1);
      var p, q := ps[m - 1], qs[m - 1];
      if m > 1 {
        assert ps[m - 2] == ps[..m - 1][m - 2] && qs[m - 2] == qs[..m - 1][m - 2];
      }
      assert Follows(words, lang, s, block, ps, m - 1) && Follows(words, lang, s, block, qs, m - 1);
      StandsOnce(words, lang, s, Inside(lang, block, p.off), p.off, End(p), p.kind, End(q), q.kind);
    }
  }

  lemma NotShorter(words: Words, lang: Lang, s: string, block: bool, ps: seq<Span>, qs: seq<Span>)
    requires Reading(words, lang, s, block, ps, |s|) && Reading(words, lang, s, block, qs, |s|)
    requires |ps| <= |qs| ==> qs[..|ps|] == ps
    ensures |ps| >= |qs|
  {
    var m := |ps|;
    assert 0 < m <= |qs| ==> ps[m - 1] == qs[..m][m - 1] == qs[m - 1];
    assert m < |qs| ==> Follows(words, lang, s, block, qs, m);
  }
}
