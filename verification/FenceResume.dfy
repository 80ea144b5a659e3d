// Scanning a fence line by line, with the one bit of comment state carried over,
// gives what the reference scan of the whole text gives (src/highlight.c).
module FenceResume {
  import opened Common
  import opened HighlightSpec

  // ---- a line's scans never look past its end ------------------------------

  // The rest of a text after a line: nothing, or a newline and more.
  predicate Beyond(x: string) { x == "" || x[0] == '\n' }

  lemma {:induction false} RunStaysInLine(r: Run, l: string, x: string)
    requires OneLine(l) && Beyond(x)
    ensures RunLen(r, l + x) == RunLen(r, l)
    decreases |l|
  {
    if l == "" {
      assert l + x == x;
    } else if InRun(r, l[0]) {
      RunStaysInLine(r, l[1..], x);
      assert (l + x)[1..] == l[1..] + x;
    }
  }

  lemma DigitsStayInLine(l: string, x: string, i: nat)
    requires OneLine(l) && Beyond(x) && i <= |l|
    ensures DigitsEnd(l + x, i) == DigitsEnd(l, i)
  {
    RunStaysInLine(Digits, l[i..], x);
    assert (l + x)[i..] == l[i..] + x;
  }

  lemma FractionStaysInLine(l: string, x: string, i: nat)
    requires OneLine(l) && Beyond(x) && i <= |l|
    ensures FractionEnd(l + x, i) == FractionEnd(l, i)
  {
    hide DigitsEnd;
    if i < |l| {
      DigitsStayInLine(l, x, i + 1);
    }
  }

  lemma ExponentStaysInLine(l: string, x: string, i: nat)
    requires OneLine(l) && Beyond(x) && i <= |l|
    ensures ExponentEnd(l + x, i) == ExponentEnd(l, i)
  {
    hide DigitsEnd;
    if i < |l| {
      DigitsStayInLine(l, x, i + 1);
      if i + 1 < |l| {
        DigitsStayInLine(l, x, i + 2);
      }
    }
  }

  lemma NumberJsonStaysInLine(l: string, x: string)
    requires OneLine(l) && Beyond(x) && l != ""
    ensures NumberJsonLen(l + x) == NumberJsonLen(l)
  {
    hide DigitsEnd, FractionEnd, ExponentEnd;
    var a := if l[0] == '-' then 1 else 0;
    DigitsStayInLine(l, x, a);
    FractionStaysInLine(l, x, DigitsEnd(l, a));
    ExponentStaysInLine(l, x, FractionEnd(l, DigitsEnd(l, a)));
  }

  lemma {:induction false} QuotedStaysInLine(l: string, x: string, quote: char, escapes: bool)
    requires OneLine(l) && Beyond(x)
    ensures TextQuotedLen(l + x, quote, escapes) == QuotedLen(l, quote, escapes)
    decreases |l|
  {
    var t := l + x;
    if l == "" {
      assert t == x;
    } else if escapes && l[0] == '\\' {
      if |l| > 1 {
        QuotedStaysInLine(l[2..], x, quote, escapes);
        assert t[2..] == l[2..] + x && t[1] == l[1];
      } else {
        assert x != "" ==> t[1] == '\n';
      }
    } else if l[0] != quote {
      QuotedStaysInLine(l[1..], x, quote, escapes);
      assert t[1..] == l[1..] + x;
    }
  }

  lemma {:induction false} LineLenIs(l: string, x: string)
    requires OneLine(l) && Beyond(x)
    ensures LineLen(l + x) == |l|
    decreases |l|
  {
    if l == "" {
      assert l + x == x;
    } else {
      LineLenIs(l[1..], x);
      assert (l + x)[1..] == l[1..] + x;
    }
  }

  // A close in the line is the close in the text; otherwise the search goes on
  // after the line, and no close straddles the line's end.
  lemma {:induction false} CloseInLine(l: string, x: string)
    requires OneLine(l) && Beyond(x)
    ensures CloseLen(l).Some? ==> CloseLen(l + x) == CloseLen(l)
    ensures CloseLen(l).None? ==>
      CloseLen(l + x) == if x != "" && CloseLen(x[1..]).Some? then Some(|l| + 1 + CloseLen(x[1..]).value) else None
    decreases |l|
  {
    var t := l + x;
    if l == "" {
      assert t == x;
    } else {
      assert t[1..] == l[1..] + x;
      assert |l| == 1 && x != "" ==> t[1] == '\n';
      CloseInLine(l[1..], x);
    }
  }

  predicate Spans(lang: Lang, s: string, block: bool, t: Token) {
    lang == LangC && t.block && t.kind == Comment && t.len == |s|
  }

  lemma WordStaysInLine(words: Words, lang: Lang, l: string, x: string)
    requires OneLine(l) && Beyond(x)
    ensures WordToken(words, lang, l + x) == WordToken(words, lang, l)
  {
    RunStaysInLine(Identifier, l, x);
    assert (l + x)[..RunLen(Identifier, l)] == l[..RunLen(Identifier, l)];
  }

  // A block comment the line closes is the same token in the text.
  lemma BlockStaysInLine(l: string, x: string, skip: nat)
    requires OneLine(l) && Beyond(x) && skip <= |l|
    ensures BlockToken(l, skip).block || BlockToken(l + x, skip) == BlockToken(l, skip)
  {
    CloseInLine(l[skip..], x);
    assert (l + x)[skip..] == l[skip..] + x;
  }

  // The character after the first, if any, is the line's or no part of a token.
  lemma Heads(l: string, x: string)
    requires OneLine(l) && l != "" && Beyond(x)
    ensures (l + x)[0] == l[0] && l[0] != '\n'
    ensures |l| > 1 ==> (l + x)[1] == l[1]
    ensures |l| == 1 && x != "" ==> (l + x)[1] == '\n'
    ensures (l + x)[1..] == l[1..] + x
  {
  }

  // On the first line of a text the reference takes the line's own token, unless
  // that is a block comment the line leaves open.
  lemma SameTokenC(words: Words, prev: char, l: string, x: string, block: bool)
    requires OneLine(l) && l != "" && Beyond(x)
    ensures var t := LineToken(words, LangC, prev, l, block);
      Spans(LangC, l, block, t) || TextToken(words, LangC, prev, l + x, block) == t
  {
    hide RunLen, QuotedLen, TextQuotedLen, CloseLen, LineLen, NumberJsonLen, WordToken, BlockToken;
    Heads(l, x);
    var c := l[0];
    if block {
      BlockStaysInLine(l, x, 0);
      OpenBlockSpans(l, 0);
    } else if c == '/' && |l| > 1 && l[1] == '/' {
      LineLenIs(l, x);
    } else if c == '/' && |l| > 1 && l[1] == '*' {
      BlockStaysInLine(l, x, 2);
      OpenBlockSpans(l, 2);
    } else if c == '"' || c == '\'' {
      QuotedStaysInLine(l[1..], x, c, true);
    } else {
      RunStaysInLine(NumberC, l, x);
      WordStaysInLine(words, LangC, l, x);
    }
  }

  // A comment left open is the whole rest of the line.
  lemma OpenBlockSpans(l: string, skip: nat)
    requires skip <= |l|
    ensures BlockToken(l, skip).block ==> BlockToken(l, skip) == Token(|l|, Comment, true)
  {
  }

  lemma SameTokenSh(words: Words, prev: char, l: string, x: string, block: bool)
    requires OneLine(l) && l != "" && Beyond(x)
    ensures TextToken(words, LangSh, prev, l + x, block) == LineToken(words, LangSh, prev, l, block)
  {
    hide RunLen, QuotedLen, TextQuotedLen, CloseLen, LineLen, NumberJsonLen, WordToken;
    Heads(l, x);
    LineLenIs(l, x);
    WordStaysInLine(words, LangSh, l, x);
    RunStaysInLine(NumberC, l, x);
    QuotedStaysInLine(l[1..], x, l[0], l[0] == '"');
  }

  lemma SameTokenJson(words: Words, prev: char, l: string, x: string, block: bool)
    requires OneLine(l) && l != "" && Beyond(x)
    ensures TextToken(words, LangJson, prev, l + x, block) == LineToken(words, LangJson, prev, l, block)
  {
    hide RunLen, QuotedLen, TextQuotedLen, CloseLen, LineLen, NumberJsonLen, WordToken;
    Heads(l, x);
    WordStaysInLine(words, LangJson, l, x);
    NumberJsonStaysInLine(l, x);
    QuotedStaysInLine(l[1..], x, l[0], true);
  }

  lemma SameToken(words: Words, lang: Lang, prev: char, l: string, x: string, block: bool)
    requires OneLine(l) && l != "" && Beyond(x)
    ensures var t := LineToken(words, lang, prev, l, block);
      Spans(lang, l, block, t) || TextToken(words, lang, prev, l + x, block) == t
  {
    match lang
    case LangNone =>
      Heads(l, x);
      LineLenIs(l, x);
    case LangC => SameTokenC(words, prev, l, x, block);
    case LangSh => SameTokenSh(words, prev, l, x, block);
    case LangJson => SameTokenJson(words, prev, l, x, block);
  }

  // ---- resumability --------------------------------------------------------

  // What the end of a line is classed as: part of an open block comment, or plain.
  function BreakKind(lang: Lang, block: bool): Kind {
    if lang == LangC && block then Comment else Plain
  }

  // A fence scanned line by line, the comment state carried over.
  function FenceScan(words: Words, lang: Lang, lines: seq<string>, block: bool): Scan
    decreases |lines|
  {
    if lines == [] then Scan([], block)
    else
      var a := LineScan(words, lang, '\n', lines[0], block);
      if |lines| == 1 then a
      else
        var rest := FenceScan(words, lang, lines[1..], a.block);
        Scan(a.classes + ([BreakKind(lang, a.block)] + rest.classes), rest.block)
  }

  function Joined(lines: seq<string>): string
    decreases |lines|
  {
    if lines == [] then "" else if |lines| == 1 then lines[0] else lines[0] + ("\n" + Joined(lines[1..]))
  }

  // The scan of the rest of a text after a line: its break, then the rest.
  function AfterLine(words: Words, lang: Lang, x: string, block: bool): Scan
    requires Beyond(x)
  {
    if x == "" then Scan([], block)
    else Then(1, BreakKind(lang, block), TextScan(words, lang, '\n', x[1..], block))
  }

  // One unfolding of the reference scan; at a comment that is open, its token.
  lemma TextScanStep(words: Words, lang: Lang, prev: char, s: string, block: bool, t: Token)
    requires s != "" && t == TextToken(words, lang, prev, s, block)
    ensures TextScan(words, lang, prev, s, block)
      == Then(t.len, t.kind, TextScan(words, lang, s[t.len - 1], s[t.len..], t.block))
  {
  }

  lemma OpenToken(words: Words, prev: char, s: string)
    requires s != ""
    ensures TextToken(words, LangC, prev, s, true) == BlockToken(s, 0)
    ensures LineToken(words, LangC, prev, s, true) == BlockToken(s, 0)
  {
  }

  // What follows a token of `n` characters.
  function Onwards(words: Words, s: string, n: nat, block: bool): Scan
    requires 1 <= n <= |s|
  {
    TextScan(words, LangC, s[n - 1], s[n..], block)
  }

  // An open block comment goes through the break and on to its close.
  lemma OpenBlockGoesOn(words: Words, l: string, x: string, skip: nat)
    requires Beyond(x) && OneLine(l) && skip <= |l| && l + x != ""
    requires CloseLen(l[skip..]).None?
    ensures var t := BlockToken(l + x, skip);
      && 1 <= t.len <= |l + x|
      && Then(t.len, Comment, Onwards(words, l + x, t.len, t.block))
        == Then(|l|, Comment, AfterLine(words, LangC, x, true))
  {
    hide TextToken, CloseLen;
    CloseInLine(l[skip..], x);
    var s := l + x;
    assert s[skip..] == l[skip..] + x;
    var t := BlockToken(s, skip);
    if x == "" {
      assert t == Token(|s|, Comment, true) && s == l;
      assert s[|s|..] == "";
    } else if x[1..] == "" {
      assert t == Token(|s|, Comment, true);
      assert s[|s|..] == "";
      assert Rep(|s|, Comment) == Rep(|l|, Comment) + (Rep(1, Comment) + []);
    } else {
      OpenBlockReachesNextLine(words, l, x, skip);
    }
  }

  lemma OpenBlockReachesNextLine(words: Words, l: string, x: string, skip: nat)
    requires Beyond(x) && OneLine(l) && skip <= |l| && |x| > 1
    requires CloseLen(l[skip..]).None?
    ensures var t := BlockToken(l + x, skip);
      && 1 <= t.len <= |l + x|
      && Then(t.len, Comment, Onwards(words, l + x, t.len, t.block))
        == Then(|l|, Comment, AfterLine(words, LangC, x, true))
  {
    hide TextToken, CloseLen, TextScan;
    var s, r := l + x, x[1..];
    CloseInLine(l[skip..], x);
    assert s[skip..] == l[skip..] + x && r[0..] == r;
    var t, u := BlockToken(s, skip), BlockToken(r, 0);
    assert t == Token(|l| + 1 + u.len, Comment, u.block);
    OpenToken(words, '\n', r);
    TextScanStep(words, LangC, '\n', r, true, u);
    assert s[t.len..] == r[u.len..] && s[t.len - 1] == r[u.len - 1];
  }

  // The reference scan of a text is the scan of its first line, the break, and the
  // reference scan of the rest in the state the line left.
  lemma {:induction false} LineThenRest(words: Words, lang: Lang, prev: char, l: string, x: string, block: bool)
    requires OneLine(l) && Beyond(x)
    ensures var a := LineScan(words, lang, prev, l, block);
      var r := AfterLine(words, lang, x, a.block);
      TextScan(words, lang, prev, l + x, block) == Scan(a.classes + r.classes, r.block)
    decreases |l|
  {
    hide LineToken, TextToken;
    if l == "" {
      assert l + x == x;
      BreakComesFirst(words, lang, prev, x, block);
      var r := AfterLine(words, lang, x, block);
      assert [] + r.classes == r.classes;
    } else {
      hide LineScan, TextScan;
      var t := LineToken(words, lang, prev, l, block);
      SameToken(words, lang, prev, l, x, block);
      if Spans(lang, l, block, t) {
        LineLeavesOpen(words, prev, l, x, block);
      } else {
        var rest, last := l[t.len..], l[t.len - 1];
        LineThenRest(words, lang, last, rest, x, t.block);
        assert (l + x)[t.len..] == rest + x && (l + x)[t.len - 1] == last;
        LineScanStep(words, lang, prev, l, block, t);
        TextScanStep(words, lang, prev, l + x, block, t);
        var a := LineScan(words, lang, last, rest, t.block);
        Assoc(Rep(t.len, t.kind), a.classes, AfterLine(words, lang, x, a.block).classes);
      }
    }
  }

  lemma NothingCloses()
    ensures CloseLen("").None?
  {
  }

  lemma BreakOutside(words: Words, lang: Lang, prev: char, x: string, block: bool)
    requires Beyond(x) && x != "" && !(lang == LangC && block)
    ensures TextToken(words, lang, prev, x, block) == Token(1, Plain, block) && BreakKind(lang, block) == Plain
  {
  }

  lemma BreakInside(words: Words, prev: char, x: string)
    requires Beyond(x) && x != ""
    ensures TextScan(words, LangC, prev, x, true) == AfterLine(words, LangC, x, true)
  {
    NothingCloses();
    hide TextToken, CloseLen, TextScan;
    assert "" + x == x && ""[0..] == "";
    OpenBlockGoesOn(words, "", x, 0);
    OpenToken(words, prev, x);
    TextScanStep(words, LangC, prev, x, true, BlockToken(x, 0));
    assert Rep(0, Comment) + AfterLine(words, LangC, x, true).classes == AfterLine(words, LangC, x, true).classes;
  }

  lemma BreakComesFirst(words: Words, lang: Lang, prev: char, x: string, block: bool)
    requires Beyond(x)
    ensures TextScan(words, lang, prev, x, block) == AfterLine(words, lang, x, block)
  {
    hide TextScan, TextToken;
    if x == "" {
      TextScanEnd(words, lang, prev, block);
    } else if lang == LangC && block {
      BreakInside(words, prev, x);
    } else {
      BreakOutside(words, lang, prev, x, block);
      TextScanStep(words, lang, prev, x, block, Token(1, Plain, block));
    }
  }

  lemma TextScanEnd(words: Words, lang: Lang, prev: char, block: bool)
    ensures TextScan(words, lang, prev, "", block) == Scan([], block)
  {
  }

  lemma LineLeavesOpen(words: Words, prev: char, l: string, x: string, block: bool)
    requires OneLine(l) && l != "" && Beyond(x)
    requires Spans(LangC, l, block, LineToken(words, LangC, prev, l, block))
    ensures var a := LineScan(words, LangC, prev, l, block);
      var r := AfterLine(words, LangC, x, a.block);
      TextScan(words, LangC, prev, l + x, block) == Scan(a.classes + r.classes, r.block)
  {
    hide TextToken, LineToken, CloseLen, TextScan, LineScan, AfterLine, Rep;
    var skip := if block then 0 else 2;
    OpenTokens(words, prev, l, x, block, skip);
    OpenBlockGoesOn(words, l, x, skip);
    TextScanStep(words, LangC, prev, l + x, block, BlockToken(l + x, skip));
    OpenLineScan(words, prev, l, block);
  }

  // The scan of a line that one open comment fills.
  lemma OpenLineScan(words: Words, prev: char, l: string, block: bool)
    requires l != "" && Spans(LangC, l, block, LineToken(words, LangC, prev, l, block))
    ensures LineScan(words, LangC, prev, l, block) == Scan(Rep(|l|, Comment), true)
  {
    hide LineToken, LineScan;
    LineScanStep(words, LangC, prev, l, block, LineToken(words, LangC, prev, l, block));
    assert l[|l|..] == "" && Rep(|l|, Comment) + [] == Rep(|l|, Comment);
    EmptyLineScan(words, l[|l| - 1]);
  }

  lemma EmptyLineScan(words: Words, prev: char)
    ensures LineScan(words, LangC, prev, "", true) == Scan([], true)
  {
  }

  // A token that leaves a comment open at the line's end starts the text's token.
  lemma OpenTokens(words: Words, prev: char, l: string, x: string, block: bool, skip: nat)
    requires OneLine(l) && l != "" && Beyond(x) && skip == if block then 0 else 2
    requires Spans(LangC, l, block, LineToken(words, LangC, prev, l, block))
    ensures skip <= |l| && CloseLen(l[skip..]).None?
    ensures LineToken(words, LangC, prev, l, block) == BlockToken(l, skip)
    ensures TextToken(words, LangC, prev, l + x, block) == BlockToken(l + x, skip)
  {
    hide CloseLen, RunLen, QuotedLen, TextQuotedLen, LineLen;
    Heads(l, x);
  }

  // Scanning a fence line by line gives the classes and the final comment state of
  // one scan of the whole text.
  lemma {:induction false} FenceIsResumable(words: Words, lang: Lang, lines: seq<string>, block: bool)
    requires forall i :: 0 <= i < |lines| ==> OneLine(lines[i])
    ensures FenceScan(words, lang, lines, block) == TextScan(words, lang, '\n', Joined(lines), block)
    decreases |lines|
  {
    if lines != [] {
      var a := LineScan(words, lang, '\n', lines[0], block);
      if |lines| == 1 {
        LineThenRest(words, lang, '\n', lines[0], "", block);
        assert lines[0] + "" == lines[0] && a.classes + [] == a.classes;
      } else {
        var x := "\n" + Joined(lines[1..]);
        LineThenRest(words, lang, '\n', lines[0], x, block);
        FenceIsResumable(words, lang, lines[1..], a.block);
        assert x[1..] == Joined(lines[1..]);
        assert Rep(1, BreakKind(lang, a.block)) == [BreakKind(lang, a.block)];
      }
    }
  }
}
