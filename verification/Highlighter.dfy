// The fence highlighter of src/highlight.c: a scan of one line in place that
// reports contiguous runs, carrying only `in_block_comment` to the next line. Each
// method computes a token of HighlightSpec at its position in the line; what the tokens
// are by the text is in FenceTokens and FenceReading, and that the lines of a fence add
// up to one scan of the whole text in FenceResume.
module Highlighter {
  import opened Common
  import opened FenceReading
  import opened FenceTokens
  import opened HighlightSpec

  // The runs are non-empty, in order and without a gap, and cover [0, n) exactly.
  predicate Tiles(runs: seq<Span>, n: nat)
    decreases |runs|
  {
    if runs == [] then n == 0
    else
      var last := runs[|runs| - 1];
      0 < last.len && last.off + last.len == n && Tiles(runs[..|runs| - 1], last.off)
  }

  // A tiling says the class of every position of the line, once.
  lemma {:induction false} TilesCoverEveryPosition(runs: seq<Span>, n: nat, p: nat) returns (k: nat)
    requires Tiles(runs, n) && p < n
    ensures |Classes(runs)| == n
    ensures k < |runs| && runs[k].off <= p < runs[k].off + runs[k].len && Classes(runs)[p] == runs[k].kind
    ensures forall j :: 0 <= j < |runs| && runs[j].off <= p < runs[j].off + runs[j].len ==> j == k
    decreases |runs|
  {
    var i := |runs| - 1;
    TilesCount(runs[..i], runs[i].off);
    if p >= runs[i].off {
      k := i;
      TilesStayBelow(runs[..i], runs[i].off);
    } else {
      k := TilesCoverEveryPosition(runs[..i], runs[i].off, p);
    }
  }

  lemma {:induction false} TilesCount(runs: seq<Span>, n: nat)
    requires Tiles(runs, n)
    ensures |Classes(runs)| == n
    decreases |runs|
  {
    if runs != [] {
      TilesCount(runs[..|runs| - 1], runs[|runs| - 1].off);
    }
  }

  lemma {:induction false} TilesStayBelow(runs: seq<Span>, n: nat)
    requires Tiles(runs, n)
    ensures forall j :: 0 <= j < |runs| ==> runs[j].off + runs[j].len <= n
    decreases |runs|
  {
    if runs != [] {
      TilesStayBelow(runs[..|runs| - 1], runs[|runs| - 1].off);
    }
  }

  lemma LastToken(words: Words, lang: Lang, s: string, block: bool, ps: seq<Span>, n: nat)
    requires Reading(words, lang, s, block, ps, n) && ps != []
    ensures var p := ps[|ps| - 1];
      Reading(words, lang, s, block, ps[..|ps| - 1], p.off) && p.len > 0 && End(p) == n
  {
    hide Stands;
    var init, p := ps[..|ps| - 1], ps[|ps| - 1];
    assert Follows(words, lang, s, block, ps, |init|);
    LastAdvances(words, lang, s, block, ps);
    forall m: nat | m < |init| ensures Follows(words, lang, s, block, init, m) {
      assert Follows(words, lang, s, block, ps, m);
    }
  }

  lemma LastAdvances(words: Words, lang: Lang, s: string, block: bool, ps: seq<Span>)
    requires ps != [] && Follows(words, lang, s, block, ps, |ps| - 1)
    ensures ps[|ps| - 1].len > 0
  {
  }

  // Merging plain tokens moves no class.
  lemma {:induction false} RunsTile(words: Words, lang: Lang, s: string, block: bool, ps: seq<Span>, n: nat)
    requires Reading(words, lang, s, block, ps, n)
    ensures Tiles(Merged(ps), n) && Classes(Merged(ps)) == Classes(ps)
  {
    if ps != [] {
      var init, p := ps[..|ps| - 1], ps[|ps| - 1];
      LastToken(words, lang, s, block, ps, n);
      RunsTile(words, lang, s, block, init, p.off);
      hide Reading;
      JoinTiles(Merged(init), p);
    }
  }

  lemma JoinTiles(runs: seq<Span>, p: Span)
    requires Tiles(runs, p.off) && p.len > 0
    ensures Tiles(Join(runs, p), End(p)) && Classes(Join(runs, p)) == Classes(runs) + Rep(p.len, p.kind)
  {
    if p.kind == Plain && EndsPlain(runs) {
      var init, last := runs[..|runs| - 1], runs[|runs| - 1];
      var grown := Span(last.off, last.len + p.len, Plain);
      ClassesMore(init, grown);
      ClassesMore(init, last);
      assert init + [last] == runs;
      assert (init + [grown])[..|init|] == init;
      assert Rep(last.len + p.len, Plain) == Rep(last.len, Plain) + Rep(p.len, Plain);
      Assoc(Classes(init), Rep(last.len, Plain), Rep(p.len, Plain));
    } else {
      ClassesMore(runs, p);
      assert (runs + [p])[..|runs|] == runs;
    }
    hide Classes;
  }

  // What has been reported with the plain stretch that has not been.
  function Flushed(runs: seq<Span>, plain: nat, i: nat): seq<Span> {
    if plain < i then runs + [Span(plain, i - plain, Plain)] else runs
  }

  // emit: an empty run is not reported.
  method Emit(runs: seq<Span>, off: nat, len: nat, kind: Kind) returns (more: seq<Span>)
    ensures more == if len > 0 then runs + [Span(off, len, kind)] else runs
  {
    more := if len > 0 then runs + [Span(off, len, kind)] else runs;
  }

  // The character runs: identifiers, digits, C-family numbers.
  method RunEnd(r: Run, s: string, i: nat) returns (end: nat)
    requires i <= |s|
    ensures end == i + RunLen(r, s[i..])
  {
    end := i;
    while end < |s| && InRun(r, s[end])
      invariant i <= end <= |s|
      invariant i + RunLen(r, s[i..]) == end + RunLen(r, s[end..])
    {
      assert s[end..][1..] == s[end + 1..];
      end := end + 1;
    }
  }

  // scan_number_json, part by part.
  method FractionAt(s: string, i: nat, k: nat) returns (end: nat)
    requires i <= k <= |s|
    ensures end == i + FractionEnd(s[i..], k - i)
  {
    hide RunLen;
    end := k;
    if k < |s| && s[k] == '.' {
      assert s[i..][k + 1 - i..] == s[k + 1..];
      end := RunEnd(Digits, s, k + 1);
    }
  }

  method ExponentAt(s: string, i: nat, k: nat) returns (end: nat)
    requires i <= k <= |s|
    ensures end == i + ExponentEnd(s[i..], k - i)
  {
    hide RunLen;
    end := k;
    if k < |s| && (s[k] == 'e' || s[k] == 'E') {
      end := k + 1;
      if end < |s| && (s[end] == '+' || s[end] == '-') {
        end := end + 1;
      }
      assert s[i..][end - i..] == s[end..];
      end := RunEnd(Digits, s, end);
    }
  }

  method NumberJsonEnd(s: string, i: nat) returns (end: nat)
    requires i <= |s|
    ensures end == i + NumberJsonLen(s[i..])
  {
    hide RunLen, FractionEnd, ExponentEnd;
    var k := if i < |s| && s[i] == '-' then i + 1 else i;
    assert s[i..][k - i..] == s[k..];
    k := RunEnd(Digits, s, k);
    k := FractionAt(s, i, k);
    end := ExponentAt(s, i, k);
  }

  // scan_quoted: the offset after the literal that opens at i.
  method QuotedEnd(s: string, i: nat, quote: char, escapes: bool) returns (end: nat)
    requires i < |s|
    ensures end == i + 1 + QuotedLen(s[i + 1..], quote, escapes)
  {
    var k := i + 1;
    while k < |s|
      invariant i < k <= |s| + 1
      invariant i + 1 + QuotedLen(s[i + 1..], quote, escapes)
        == if k <= |s| then k + QuotedLen(s[k..], quote, escapes) else |s|
    {
      assert s[k..][1..] == s[k + 1..] && (k + 2 <= |s| ==> s[k..][2..] == s[k + 2..]);
      if escapes && s[k] == '\\' {
        k := k + 2;
        continue;
      }
      if s[k] == quote {
        return k + 1;
      }
      k := k + 1;
    }
    return |s|;
  }

  // A token the scan has recognized: a plain one only grows the pending stretch.
  method Report(runs: seq<Span>, plain: nat, i: nat, t: Token, ghost ps: seq<Span>) returns (more: seq<Span>, still: nat)
    requires plain <= i && t.len > 0 && Merged(ps) == Flushed(runs, plain, i) && !EndsPlain(runs)
    ensures still <= i + t.len && !EndsPlain(more)
    ensures Merged(ps + [Span(i, t.len, t.kind)]) == Flushed(more, still, i + t.len)
  {
    hide Merged;
    MergedMore(ps, Span(i, t.len, t.kind));
    more, still := runs, plain;
    if t.kind != Plain {
      more := Emit(more, plain, i - plain, Plain);
      more := Emit(more, i, t.len, t.kind);
      still := i + t.len;
    }
  }

  // find_block_close, then the end of the comment.
  method BlockEnd(s: string, i: nat, skip: nat) returns (t: Token)
    requires i + skip <= |s|
    ensures t == BlockToken(s[i..], skip)
  {
    var from := i + skip;
    assert s[i..][skip..] == s[from..];
    var k := from;
    while k + 1 < |s|
      invariant from <= k
      invariant k <= |s|
      invariant CloseLen(s[from..]) == match CloseLen(s[k..])
                                        case Some(n) => Some(k - from + n)
                                        case None => None
    {
      assert s[k..][1..] == s[k + 1..];
      if s[k] == '*' && s[k + 1] == '/' {
        return Token(k + 2 - i, Comment, false);
      }
      k := k + 1;
    }
    return Token(|s| - i, Comment, true);
  }

  method WordAt(words: Words, lang: Lang, s: string, i: nat) returns (t: Token)
    requires i < |s|
    ensures t == WordToken(words, lang, s[i..])
  {
    var end := RunEnd(Identifier, s, i);
    assert s[i..][..end - i] == s[i..end];
    t := Token(end - i, if words(lang, s[i..end]) then Keyword else Plain, false);
  }

  class Highlight {
    const words: Words
    var lang: Lang
    var inBlock: bool

    constructor (words: Words)
      ensures this.words == words && lang == LangNone && !inBlock
    {
      this.words := words;
      lang, inBlock := LangNone, false;
    }

    // nm_highlight_begin, once the info string has named the language.
    method Begin(lang: Lang)
      modifies this
      ensures this.lang == lang && !inBlock
    {
      this.lang, inBlock := lang, false;
    }

    // The branches of scan_c, at one position.
    method TokenC(s: string, i: nat, prev: char) returns (t: Token)
      requires lang == LangC && i < |s|
      ensures t == LineToken(words, LangC, prev, s[i..], inBlock)
    {
      hide RunLen, QuotedLen, CloseLen, BlockToken, WordToken;
      assert s[i..][0] == s[i] && s[i..][1..] == s[i + 1..] && (i + 1 < |s| ==> s[i..][1] == s[i + 1]);
      var c := s[i];
      if inBlock {
        t := BlockEnd(s, i, 0);
      } else if c == '/' && i + 1 < |s| && s[i + 1] == '/' {
        t := Token(|s| - i, Comment, false);
      } else if c == '/' && i + 1 < |s| && s[i + 1] == '*' {
        t := BlockEnd(s, i, 2);
      } else if c == '"' || c == '\'' {
        var end := QuotedEnd(s, i, c, true);
        t := Token(end - i, Str, false);
      } else if IsDigit(c) || (c == '.' && i + 1 < |s| && IsDigit(s[i + 1])) {
        var end := RunEnd(NumberC, s, i);
        t := Token(end - i, Number, false);
      } else if IsIdentStart(c) {
        t := WordAt(words, lang, s, i);
      } else {
        t := Token(1, Plain, false);
      }
    }

    // The branches of scan_sh.
    method TokenSh(s: string, i: nat, prev: char) returns (t: Token)
      requires lang == LangSh && i < |s| && (i == 0 ==> prev == '\n') && (i > 0 ==> prev == s[i - 1] != '\n')
      ensures t == LineToken(words, LangSh, prev, s[i..], inBlock)
    {
      hide RunLen, QuotedLen, CloseLen, BlockToken, WordToken;
      assert s[i..][0] == s[i] && s[i..][1..] == s[i + 1..];
      var c := s[i];
      if c == '#' && (i == 0 || IsSpace(s[i - 1])) {
        t := Token(|s| - i, Comment, inBlock);
      } else if c == '"' || c == '\'' {
        var end := QuotedEnd(s, i, c, c == '"');
        t := Token(end - i, Str, inBlock);
      } else if IsDigit(c) {
        var end := RunEnd(NumberC, s, i);
        t := Token(end - i, Number, inBlock);
      } else if IsIdentStart(c) {
        t := WordAt(words, lang, s, i);
        t := t.(block := inBlock);
      } else {
        t := Token(1, Plain, inBlock);
      }
    }

    // The branches of scan_json.
    method TokenJson(s: string, i: nat, prev: char) returns (t: Token)
      requires lang == LangJson && i < |s|
      ensures t == LineToken(words, LangJson, prev, s[i..], inBlock)
    {
      hide RunLen, QuotedLen, CloseLen, BlockToken, WordToken, NumberJsonLen;
      assert s[i..][0] == s[i] && s[i..][1..] == s[i + 1..] && (i + 1 < |s| ==> s[i..][1] == s[i + 1]);
      var c := s[i];
      if c == '"' {
        var end := QuotedEnd(s, i, '"', true);
        t := Token(end - i, Str, inBlock);
      } else if IsDigit(c) || (c == '-' && i + 1 < |s| && IsDigit(s[i + 1])) {
        var end := NumberJsonEnd(s, i);
        t := Token(end - i, Number, inBlock);
      } else if IsIdentStart(c) {
        t := WordAt(words, lang, s, i);
        t := t.(block := inBlock);
      } else {
        t := Token(1, Plain, inBlock);
      }
    }

    // Where the scan of a line stands: at i, after the tokens `ps`; what was reported and
    // the pending plain stretch are their runs.
    ghost predicate At(s: string, block: bool, ps: seq<Span>, runs: seq<Span>, plain: nat, i: nat)
      reads this
    {
      && plain <= i && Stage(words, lang, s, block, ps, i, inBlock)
      && Merged(ps) == Flushed(runs, plain, i) && !EndsPlain(runs)
    }

    // One pass of the scanning loops.
    method Advance(s: string, runs: seq<Span>, plain: nat, i: nat, ghost block: bool, ghost ps: seq<Span>)
      returns (more: seq<Span>, still: nat, next: nat, ghost qs: seq<Span>)
      requires OneLine(s) && i < |s| && At(s, block, ps, runs, plain, i)
      modifies this`inBlock
      ensures i < next <= |s| && At(s, block, qs, more, still, next)
    {
      hide LineToken, Stage, OneLine, Merged, Flushed;
      var prev := if i == 0 then '\n' else s[i - 1];
      LineHasNoBreak(s, i, prev);
      var t := TokenAt(s, i, prev);
      StageMoves(words, lang, s, block, ps, i, inBlock, prev);
      qs := ps + [Span(i, t.len, t.kind)];
      next := i + t.len;
      more, still := Report(runs, plain, i, t, ps);
      inBlock := t.block;
    }

    // nm_highlight_line: the runs are those of the line's one reading, and the comment
    // state is what the line leaves; with the class of each character as the line's scan
    // has it.
    method Line(s: string) returns (runs: seq<Span>, ghost ps: seq<Span>)
      requires OneLine(s)
      modifies this`inBlock
      ensures Reading(words, lang, s, old(inBlock), ps, |s|) && runs == Merged(ps)
      ensures inBlock == LeftOpen(lang, s, old(inBlock), ps)
      ensures Tiles(runs, |s|)
      ensures Scan(Classes(runs), inBlock) == LineScan(words, lang, '\n', s, old(inBlock))
    {
      hide LineToken, LineScan, OneLine, Reading, LeftOpen;
      runs, ps := [], [];
      ghost var block := inBlock;
      StageStarts(words, lang, s, block);
      var i: nat, plain: nat := 0, 0;
      hide Merged, Flushed;
      NothingYet();
      while i < |s|
        invariant At(s, block, ps, runs, plain, i)
      {
        runs, plain, i, ps := Advance(s, runs, plain, i, block, ps);
      }
      StageEnds(words, lang, s, block, ps, i, inBlock);
      runs := Emit(runs, plain, |s| - plain, Plain);
      RunsTile(words, lang, s, block, ps, |s|);
      ghost var qs := LineIsRead(words, lang, s, block);
    }

    // One position, by the language's own branches.
    method TokenAt(s: string, i: nat, prev: char) returns (t: Token)
      requires i < |s| && Before(s, i, prev)
      ensures t == LineToken(words, lang, prev, s[i..], inBlock) && 1 <= t.len <= |s| - i
    {
      hide LineToken;
      match lang {
        case LangNone => t := NoneToken(s, i, prev);
        case LangC => t := TokenC(s, i, prev);
        case LangSh => t := TokenSh(s, i, prev);
        case LangJson => t := TokenJson(s, i, prev);
      }
    }

    method NoneToken(s: string, i: nat, prev: char) returns (t: Token)
      requires lang == LangNone && i < |s|
      ensures t == LineToken(words, LangNone, prev, s[i..], inBlock)
    {
      t := Token(|s| - i, Plain, inBlock);
    }
  }

  lemma NothingYet()
    ensures Merged([]) == Flushed([], 0, 0)
  {
  }

  lemma LineHasNoBreak(s: string, i: nat, prev: char)
    requires OneLine(s) && i < |s| && prev == if i == 0 then '\n' else s[i - 1]
    ensures Before(s, i, prev)
  {
  }

  lemma StageEnds(words: Words, lang: Lang, s: string, block: bool, ps: seq<Span>, n: nat, now: bool)
    requires Stage(words, lang, s, block, ps, n, now) && n >= |s|
    ensures n == |s| && Reading(words, lang, s, block, ps, |s|) && now == LeftOpen(lang, s, block, ps)
  {
  }
}
