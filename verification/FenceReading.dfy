// The scan of a fence line (src/highlight.c) gives its tokens: each is what stands
// there by the text alone.
module FenceReading {
  import opened Common
  import opened FenceTokens
  import opened HighlightSpec

  // ---- How far the scans go. ----

  lemma {:induction false} RunReaches(r: Run, s: string, i: nat)
    requires i <= |s|
    ensures var j := i + RunLen(r, s[i..]);
      j <= |s| && (forall k :: i <= k < j ==> InRun(r, s[k])) && (j < |s| ==> !InRun(r, s[j]))
    decreases |s| - i
  {
    hide InRun;
    if i < |s| && InRun(r, s[i]) {
      RunReaches(r, s, i + 1);
      assert s[i..][1..] == s[i + 1..];
    }
  }

  lemma SlashesStep(s: string, i: nat, k: nat)
    requires i < k < |s|
    ensures Slashes(s, i, k + 1) == if s[k] == '\\' then 1 + Slashes(s, i, k) else 0
  {
  }

  lemma {:induction false} LiteralReaches(s: string, i: nat, k: nat, escapes: bool)
    requires i < k <= |s| && s[i] != '\\' && (escapes ==> Slashes(s, i, k) % 2 == 0)
    requires forall m :: i < m < k ==> !Closes(s, i, m, escapes)
    ensures Literal(s, i, k + QuotedLen(s[k..], s[i], escapes), escapes)
    decreases |s| - k
  {
    if k < |s| {
      hide Slashes;
      assert s[k..][0] == s[k] && s[k..][1..] == s[k + 1..] && (k + 1 < |s| ==> s[k..][2..] == s[k + 2..]);
      SlashesStep(s, i, k);
      if escapes && s[k] == '\\' {
        if k + 1 < |s| {
          SlashesStep(s, i, k + 1);
          LiteralReaches(s, i, k + 2, escapes);
        }
      } else if s[k] != s[i] {
        LiteralReaches(s, i, k + 1, escapes);
      }
    }
  }

  lemma {:induction false} BlockReaches(s: string, from: nat)
    requires from <= |s|
    ensures var close := CloseLen(s[from..]);
      (close.None? <==> NeverCloses(s, from)) && BlockTo(s, from, if close.Some? then from + close.value else |s|)
    decreases |s| - from
  {
    if |s| - from >= 2 {
      assert s[from..][0] == s[from] && s[from..][1] == s[from + 1] && s[from..][1..] == s[from + 1..];
      if !ClosesBlock(s, from) {
        BlockReaches(s, from + 1);
      }
    }
  }

  // The parts of a number, `n` characters after its start.
  lemma DigitsReach(s: string, i: nat, n: nat)
    requires i + n <= |s|
    ensures DigitRun(s, i + n, i + DigitsEnd(s[i..], n))
  {
    assert s[i..][n..] == s[i + n..];
    RunReaches(Digits, s, i + n);
    hide RunLen;
  }

  lemma FractionReaches(s: string, i: nat, n: nat)
    requires i + n <= |s|
    ensures var f := i + FractionEnd(s[i..], n);
      f <= |s| && if Is(s, i + n, '.') then DigitRun(s, i + n + 1, f) else f == i + n
  {
    hide DigitsEnd, DigitRun;
    if Is(s, i + n, '.') {
      DigitsReach(s, i, n + 1);
    }
  }

  lemma ExponentReaches(s: string, i: nat, n: nat)
    requires i + n <= |s|
    ensures var f, j := i + n, i + ExponentEnd(s[i..], n);
      if Is(s, f, 'e') || Is(s, f, 'E') then
        DigitRun(s, if Is(s, f + 1, '+') || Is(s, f + 1, '-') then f + 2 else f + 1, j)
      else j == f
  {
    hide DigitsEnd, DigitRun;
    if Is(s, i + n, 'e') || Is(s, i + n, 'E') {
      DigitsReach(s, i, if Is(s, i + n + 1, '+') || Is(s, i + n + 1, '-') then n + 2 else n + 1);
    }
  }

  lemma JsonReaches(s: string, i: nat)
    requires i < |s|
    ensures JsonNumber(s, i, i + NumberJsonLen(s[i..]))
  {
    hide DigitsEnd, FractionEnd, ExponentEnd, DigitRun;
    var rest := s[i..];
    var a := if rest[0] == '-' then 1 else 0;
    var d := DigitsEnd(rest, a);
    var f := FractionEnd(rest, d);
    DigitsReach(s, i, a);
    FractionReaches(s, i, d);
    ExponentReaches(s, i, f);
    assert JsonParts(s, i, i + d, i + f, i + ExponentEnd(rest, f));
  }

  // ---- Tokens. ----

  lemma WordStands(words: Words, lang: Lang, s: string, i: nat)
    requires i < |s| && WordStart(s[i]) && lang != LangNone
    ensures var t := WordToken(words, lang, s[i..]);
      && i < i + t.len <= |s| && Word(s, i, i + t.len) && s[i..i + t.len] == s[i..][..t.len]
      && !t.block && t.kind == if words(lang, s[i..i + t.len]) then Keyword else Plain
  {
    RunReaches(Identifier, s, i);
    var n := RunLen(Identifier, s[i..]);
    hide RunLen;
    assert s[i..][..n] == s[i..i + n];
  }

  // What the character before a place is, to the scan.
  predicate Before(s: string, i: nat, prev: char)
    requires i <= |s|
  {
    if i == 0 then prev == '\n' else prev == s[i - 1] != '\n'
  }

  lemma BlockStands(words: Words, s: string, i: nat, prev: char, block: bool)
    requires i < |s| && (block || OpensBlock(s, i))
    ensures var t := LineToken(words, LangC, prev, s[i..], block);
      Stands(words, LangC, s, block, i, i + t.len, t.kind) && t.block == Unclosed(s, block, i)
  {
    hide CloseLen, RunLen, QuotedLen, WordToken;
    assert s[i..][0] == s[i] && s[i..][0..] == s[i..];
    if block {
      BlockReaches(s, i);
    } else {
      assert s[i..][1] == s[i + 1] && s[i..][2..] == s[i + 2..];
      BlockReaches(s, i + 2);
    }
  }

  lemma TokenStandsC(words: Words, s: string, i: nat, prev: char)
    requires i < |s| && !OpensBlock(s, i)
    ensures var t := LineToken(words, LangC, prev, s[i..], false);
      Stands(words, LangC, s, false, i, i + t.len, t.kind) && !t.block
  {
    hide RunLen, QuotedLen, CloseLen, WordToken, NumberJsonLen, Literal;
    var c := s[i];
    assert s[i..][0] == c && (i + 1 < |s| ==> s[i..][1] == s[i + 1]) && s[i..][1..] == s[i + 1..];
    if c == '"' || c == '\'' {
      LiteralReaches(s, i, i + 1, true);
    } else if NumberAt(LangC, s, i) {
      RunReaches(NumberC, s, i);
    } else if WordStart(c) {
      WordStands(words, LangC, s, i);
    }
  }

  lemma TokenStandsSh(words: Words, s: string, i: nat, prev: char, block: bool)
    requires i < |s| && Before(s, i, prev)
    ensures var t := LineToken(words, LangSh, prev, s[i..], block);
      Stands(words, LangSh, s, false, i, i + t.len, t.kind) && t.block == block
  {
    hide RunLen, QuotedLen, CloseLen, WordToken, NumberJsonLen, Literal;
    var c := s[i];
    assert s[i..][0] == c && s[i..][1..] == s[i + 1..];
    if c == '"' || c == '\'' {
      LiteralReaches(s, i, i + 1, c == '"');
    } else if Digit(c) {
      RunReaches(NumberC, s, i);
    } else if WordStart(c) {
      WordStands(words, LangSh, s, i);
    }
  }

  lemma TokenStandsJson(words: Words, s: string, i: nat, prev: char, block: bool)
    requires i < |s|
    ensures var t := LineToken(words, LangJson, prev, s[i..], block);
      Stands(words, LangJson, s, false, i, i + t.len, t.kind) && t.block == block
  {
    hide RunLen, QuotedLen, CloseLen, WordToken, NumberJsonLen, Literal, JsonNumber;
    var c := s[i];
    assert s[i..][0] == c && (i + 1 < |s| ==> s[i..][1] == s[i + 1]) && s[i..][1..] == s[i + 1..];
    if c == '"' {
      LiteralReaches(s, i, i + 1, true);
    } else if NumberAt(LangJson, s, i) {
      JsonReaches(s, i);
    } else if WordStart(c) {
      WordStands(words, LangJson, s, i);
    }
  }

  // The scan's token is what stands there, and a comment it leaves open is one that
  // nothing closes.
  lemma TokenStands(words: Words, lang: Lang, s: string, i: nat, prev: char, block: bool)
    requires i < |s| && Before(s, i, prev)
    ensures var t := LineToken(words, lang, prev, s[i..], block);
      && Stands(words, lang, s, lang == LangC && block, i, i + t.len, t.kind)
      && t.block == if lang == LangC then Unclosed(s, block, i) else block
  {
    hide Stands, Unclosed;
    match lang
    case LangNone => NoneStands(words, s, i, prev, block);
    case LangC =>
      if block || OpensBlock(s, i) {
        BlockStands(words, s, i, prev, block);
      } else {
        TokenStandsC(words, s, i, prev);
        NeverOpened(s, i);
      }
    case LangSh => TokenStandsSh(words, s, i, prev, block);
    case LangJson => TokenStandsJson(words, s, i, prev, block);
  }

  lemma NeverOpened(s: string, i: nat)
    requires !OpensBlock(s, i)
    ensures !Unclosed(s, false, i)
  {
  }

  lemma NoneStands(words: Words, s: string, i: nat, prev: char, block: bool)
    requires i < |s|
    ensures LineToken(words, LangNone, prev, s[i..], block) == Token(|s| - i, Plain, block)
    ensures Stands(words, LangNone, s, false, i, |s|, Plain)
  {
  }

  // A comment left open goes to the end of its line.
  lemma UnclosedEndsLine(words: Words, s: string, inside: bool, i: nat, j: nat, kind: Kind)
    requires Stands(words, LangC, s, inside, i, j, kind) && Unclosed(s, inside, i)
    ensures j == |s|
  {
    hide NeverCloses;
  }

  // ---- Lines. ----

  // One more token.
  lemma ReadOn(words: Words, lang: Lang, s: string, block: bool, ps: seq<Span>, n: nat, t: Token)
    requires Reading(words, lang, s, block, ps, n) && Stands(words, lang, s, Inside(lang, block, n), n, n + t.len, t.kind)
    ensures Reading(words, lang, s, block, ps + [Span(n, t.len, t.kind)], n + t.len)
  {
    hide Stands;
    var more := ps + [Span(n, t.len, t.kind)];
    forall m: nat | m < |more| ensures Follows(words, lang, s, block, more, m) {
      assert m < |ps| ==> Follows(words, lang, s, block, ps, m) && more[m] == ps[m] && (m > 0 ==> more[m - 1] == ps[m - 1]);
      assert m == |ps| ==> more[m].off == n;
    }
  }

  function Classes(ps: seq<Span>): seq<Kind> {
    if ps == [] then [] else Classes(ps[..|ps| - 1]) + Rep(ps[|ps| - 1].len, ps[|ps| - 1].kind)
  }

  lemma ClassesMore(ps: seq<Span>, p: Span)
    ensures Classes(ps + [p]) == Classes(ps) + Rep(p.len, p.kind)
  {
    assert (ps + [p])[..|ps|] == ps;
  }

  // Where a scan of line `s` stands that began with `block`: after the tokens `ps`, at n,
  // with `now` for the comment state.
  ghost predicate Stage(words: Words, lang: Lang, s: string, block: bool, ps: seq<Span>, n: nat, now: bool) {
    && n <= |s| && Reading(words, lang, s, block, ps, n)
    && now == LeftOpen(lang, s, block, ps)
    && (n < |s| ==> (lang == LangC && now) == Inside(lang, block, n))
  }

  lemma StageStarts(words: Words, lang: Lang, s: string, block: bool)
    ensures Stage(words, lang, s, block, [], 0, block)
  {
  }

  lemma StageMoves(words: Words, lang: Lang, s: string, block: bool, ps: seq<Span>, n: nat, now: bool, prev: char)
    requires Stage(words, lang, s, block, ps, n, now) && n < |s| && Before(s, n, prev)
    ensures var t := LineToken(words, lang, prev, s[n..], now);
      Stage(words, lang, s, block, ps + [Span(n, t.len, t.kind)], n + t.len, t.block)
  {
    var t := LineToken(words, lang, prev, s[n..], now);
    TokenStands(words, lang, s, n, prev, now);
    hide LineToken, Stands, Unclosed;
    ReadOn(words, lang, s, block, ps, n, t);
    if lang == LangC && Unclosed(s, now, n) {
      UnclosedEndsLine(words, s, now, n, n + t.len, t.kind);
    }
  }

  // One step of a line's scan, at n.
  lemma ScanAt(words: Words, lang: Lang, s: string, n: nat, prev: char, now: bool, t: Token, next: nat)
    requires n < |s| && t == LineToken(words, lang, prev, s[n..], now) && next == n + t.len
    ensures n < next <= |s|
    ensures LineScan(words, lang, prev, s[n..], now) == Then(t.len, t.kind, LineScan(words, lang, s[next - 1], s[next..], t.block))
  {
    hide LineToken, LineScan;
    LineScanStep(words, lang, prev, s[n..], now, t);
    assert s[n..][t.len..] == s[next..] && s[n..][t.len - 1] == s[next - 1];
  }

  lemma Regroup(done: seq<Kind>, t: Token, rest: Scan)
    ensures done + Then(t.len, t.kind, rest).classes == done + Rep(t.len, t.kind) + rest.classes
    ensures Then(t.len, t.kind, rest).block == rest.block
  {
    Assoc(done, Rep(t.len, t.kind), rest.classes);
  }

  lemma NothingRead(words: Words, lang: Lang, prev: char, now: bool)
    ensures LineScan(words, lang, prev, "", now) == Scan([], now)
  {
  }

  lemma {:induction false} RestIsRead(words: Words, lang: Lang, s: string, block: bool, ps: seq<Span>, n: nat, now: bool, prev: char)
    returns (qs: seq<Span>)
    requires OneLine(s) && n <= |s| && Stage(words, lang, s, block, ps, n, now) && Before(s, n, prev)
    ensures var r := LineScan(words, lang, prev, s[n..], now);
      Stage(words, lang, s, block, qs, |s|, r.block) && Classes(qs) == Classes(ps) + r.classes
    decreases |s| - n
  {
    hide LineToken, LineScan, Stage, Classes, Then;
    if n == |s| {
      qs := ps;
      assert s[n..] == "";
      NothingRead(words, lang, prev, now);
    } else {
      var t := LineToken(words, lang, prev, s[n..], now);
      var next := n + t.len;
      ScanAt(words, lang, s, n, prev, now, t, next);
      StageMoves(words, lang, s, block, ps, n, now, prev);
      var p := Span(n, t.len, t.kind);
      ClassesMore(ps, p);
      qs := RestIsRead(words, lang, s, block, ps + [p], next, t.block, s[next - 1]);
      Regroup(Classes(ps), t, LineScan(words, lang, s[next - 1], s[next..], t.block));
    }
  }

  // The scan of a line is its one reading: the tokens, each of the class and the extent
  // the text gives it, and the comment state after them.
  lemma LineIsRead(words: Words, lang: Lang, s: string, block: bool) returns (ps: seq<Span>)
    requires OneLine(s)
    ensures Reading(words, lang, s, block, ps, |s|)
    ensures LineScan(words, lang, '\n', s, block) == Scan(Classes(ps), LeftOpen(lang, s, block, ps))
    ensures forall qs :: Reading(words, lang, s, block, qs, |s|) ==> qs == ps
  {
    StageStarts(words, lang, s, block);
    assert s[0..] == s;
    ps := RestIsRead(words, lang, s, block, [], 0, block, '\n');
    hide Reading, LineScan, LeftOpen;
    forall qs | Reading(words, lang, s, block, qs, |s|) ensures qs == ps {
      ReadingIsUnique(words, lang, s, block, ps, qs);
    }
  }

  // ---- Runs. ----

  // The runs a line is reported in: each token that is not plain is one, plain tokens
  // next to each other make one together.
  function Merged(ps: seq<Span>): seq<Span> {
    if ps == [] then [] else Join(Merged(ps[..|ps| - 1]), ps[|ps| - 1])
  }

  predicate EndsPlain(runs: seq<Span>) { runs != [] && runs[|runs| - 1].kind == Plain }

  function Join(runs: seq<Span>, p: Span): seq<Span> {
    if p.kind == Plain && EndsPlain(runs) then
      runs[..|runs| - 1] + [Span(runs[|runs| - 1].off, runs[|runs| - 1].len + p.len, Plain)]
    else runs + [p]
  }

  lemma MergedMore(ps: seq<Span>, p: Span)
    ensures Merged(ps + [p]) == Join(Merged(ps), p)
  {
    assert (ps + [p])[..|ps|] == ps;
  }

  function Marked(ps: seq<Span>): seq<Span> {
    if ps == [] then [] else Marked(ps[..|ps| - 1]) + if ps[|ps| - 1].kind == Plain then [] else [ps[|ps| - 1]]
  }

  lemma MarkedMore(ps: seq<Span>, p: Span)
    ensures Marked(ps + [p]) == Marked(ps) + if p.kind == Plain then [] else [p]
  {
    assert (ps + [p])[..|ps|] == ps;
  }

  // Joining a token to the runs adds it where it is not plain, and leaves no two plain
  // neighbours.
  lemma JoinIs(runs: seq<Span>, p: Span)
    ensures Marked(Join(runs, p)) == Marked(runs) + if p.kind == Plain then [] else [p]
    ensures EndsPlain(Join(runs, p)) <==> p.kind == Plain
    ensures Apart(runs) ==> Apart(Join(runs, p))
  {
    MarkedMore(runs, p);
    if p.kind == Plain && EndsPlain(runs) {
      var init, last := runs[..|runs| - 1], runs[|runs| - 1];
      assert init + [last] == runs;
      MarkedMore(init, last);
      MarkedMore(init, Span(last.off, last.len + p.len, Plain));
    }
    hide Marked;
  }

  predicate Apart(runs: seq<Span>) {
    forall k :: 0 < k < |runs| ==> runs[k - 1].kind != Plain || runs[k].kind != Plain
  }

  // The runs that are not plain are the tokens that are not, and no two plain runs are
  // neighbours.
  lemma {:induction false} RunsAreTokens(ps: seq<Span>)
    ensures Marked(Merged(ps)) == Marked(ps) && Apart(Merged(ps))
  {
    if ps != [] {
      RunsAreTokens(ps[..|ps| - 1]);
      JoinIs(Merged(ps[..|ps| - 1]), ps[|ps| - 1]);
      hide Join, EndsPlain, Apart;
    }
  }

  lemma {:induction false} MarkedIff(ps: seq<Span>, p: Span)
    ensures p in Marked(ps) <==> p in ps && p.kind != Plain
  {
    if ps != [] {
      MarkedIff(ps[..|ps| - 1], p);
      assert ps == ps[..|ps| - 1] + [ps[|ps| - 1]];
    }
  }

  // The marks of a line, by its text: a run that is not plain is what stands at its
  // place, and each token that is not plain is a run.
  lemma RunsAreMarks(words: Words, lang: Lang, s: string, block: bool, ps: seq<Span>, p: Span)
    requires Reading(words, lang, s, block, ps, |s|) && p.kind != Plain
    ensures p in Merged(ps) <==> p in ps
    ensures p in Merged(ps) ==> Stands(words, lang, s, Inside(lang, block, p.off), p.off, End(p), p.kind)
  {
    RunsAreTokens(ps);
    MarkedIff(ps, p);
    MarkedIff(Merged(ps), p);
    hide Stands, Merged, Marked;
    if p in ps {
      var m: nat :| m < |ps| && ps[m] == p;
      assert Follows(words, lang, s, block, ps, m);
    }
  }
}
