// What the fence highlighter of src/highlight.c computes: the class of every
// character of a line, given the one piece of state that crosses lines. Beside it
// stands a reference scan of a whole text, in which a newline ends strings and
// line comments; the two agree line by line (see FenceResume).
module HighlightSpec {
  import opened Common

  datatype Lang = LangNone | LangC | LangSh | LangJson

  datatype Kind = Plain | Comment | Str | Number | Keyword

  // The reserved words of a language: the scan is the same for any table.
  type Words = (Lang, string) -> bool

  predicate IsDigit(c: char) { '0' <= c <= '9' }
  predicate IsAlpha(c: char) { 'a' <= c <= 'z' || 'A' <= c <= 'Z' }
  predicate IsIdentStart(c: char) { IsAlpha(c) || c == '_' }
  predicate IsIdent(c: char) { IsAlpha(c) || IsDigit(c) || c == '_' }
  predicate IsSpace(c: char) { c == ' ' || c == '\t' }
  predicate IsNumberC(c: char) { IsDigit(c) || c == '.' || c == '_' || IsAlpha(c) }

  datatype Run = Digits | Identifier | NumberC

  predicate InRun(r: Run, c: char) {
    match r
    case Digits => IsDigit(c)
    case Identifier => IsIdent(c)
    case NumberC => IsNumberC(c)
  }

  // The length of the leading run.
  function RunLen(r: Run, s: string): (n: nat)
    ensures n <= |s|
  {
    if s == "" || !InRun(r, s[0]) then 0 else 1 + RunLen(r, s[1..])
  }

  // scan_number_json: -?digits(.digits)?([eE][+-]?digits)?, part by part.
  function DigitsEnd(s: string, i: nat): (n: nat)
    requires i <= |s|
    ensures i <= n <= |s|
  {
    i + RunLen(Digits, s[i..])
  }

  function FractionEnd(s: string, i: nat): (n: nat)
    requires i <= |s|
    ensures i <= n <= |s|
  {
    if i < |s| && s[i] == '.' then DigitsEnd(s, i + 1) else i
  }

  function ExponentEnd(s: string, i: nat): (n: nat)
    requires i <= |s|
    ensures i <= n <= |s|
  {
    if i < |s| && (s[i] == 'e' || s[i] == 'E') then
      DigitsEnd(s, if i + 1 < |s| && (s[i + 1] == '+' || s[i + 1] == '-') then i + 2 else i + 1)
    else i
  }

  function NumberJsonLen(s: string): (n: nat)
    ensures n <= |s|
  {
    ExponentEnd(s, FractionEnd(s, DigitsEnd(s, if s != "" && s[0] == '-' then 1 else 0)))
  }

  // scan_quoted past the opening quote: through the closing one, or to the end.
  function QuotedLen(s: string, quote: char, escapes: bool): (n: nat)
    ensures n <= |s|
  {
    if s == "" then 0
    else if escapes && s[0] == '\\' then (if |s| == 1 then 1 else 2 + QuotedLen(s[2..], quote, escapes))
    else if s[0] == quote then 1
    else 1 + QuotedLen(s[1..], quote, escapes)
  }

  // find_block_close: the length through the first "*/", None when there is none.
  function CloseLen(s: string): (n: Option<nat>)
    ensures n.Some? ==> 2 <= n.value <= |s|
  {
    if |s| < 2 then None
    else if s[0] == '*' && s[1] == '/' then Some(2)
    else
      var rest := CloseLen(s[1..]);
      if rest.Some? then Some(1 + rest.value) else None
  }

  // A token: its length, its class, and whether a block comment is open after it.
  datatype Token = Token(len: nat, kind: Kind, block: bool)

  function BlockToken(s: string, skip: nat): Token
    requires skip <= |s|
  {
    var close := CloseLen(s[skip..]);
    if close.Some? then Token(skip + close.value, Comment, false) else Token(|s|, Comment, true)
  }

  // Whether a '#' after this character opens a shell comment; a line is preceded
  // by a newline.
  predicate HashOpens(prev: char) { prev == '\n' || IsSpace(prev) }

  function WordToken(words: Words, lang: Lang, s: string): Token {
    var n := RunLen(Identifier, s);
    Token(n, if words(lang, s[..n]) then Keyword else Plain, false)
  }

  // The token at the head of the rest of a line.
  function LineToken(words: Words, lang: Lang, prev: char, s: string, block: bool): (t: Token)
    requires s != ""
    ensures 1 <= t.len <= |s|
  {
    var c := s[0];
    match lang
    case LangNone => Token(|s|, Plain, block)
    case LangC =>
      if block then BlockToken(s, 0)
      else if c == '/' && |s| > 1 && s[1] == '/' then Token(|s|, Comment, false)
      else if c == '/' && |s| > 1 && s[1] == '*' then BlockToken(s, 2)
      else if c == '"' || c == '\'' then Token(1 + QuotedLen(s[1..], c, true), Str, false)
      else if IsDigit(c) || (c == '.' && |s| > 1 && IsDigit(s[1])) then Token(RunLen(NumberC, s), Number, false)
      else if IsIdentStart(c) then WordToken(words, lang, s)
      else Token(1, Plain, false)
    case LangSh =>
      if c == '#' && HashOpens(prev) then Token(|s|, Comment, block)
      else if c == '"' || c == '\'' then Token(1 + QuotedLen(s[1..], c, c == '"'), Str, block)
      else if IsDigit(c) then Token(RunLen(NumberC, s), Number, block)
      else if IsIdentStart(c) then WordToken(words, lang, s).(block := block)
      else Token(1, Plain, block)
    case LangJson =>
      if c == '"' then Token(1 + QuotedLen(s[1..], c, true), Str, block)
      else if IsDigit(c) || (c == '-' && |s| > 1 && IsDigit(s[1])) then Token(NumberJsonLen(s), Number, block)
      else if IsIdentStart(c) then WordToken(words, lang, s).(block := block)
      else Token(1, Plain, block)
  }

  // The classes of a stretch of text, and the comment state after it.
  datatype Scan = Scan(classes: seq<Kind>, block: bool)

  function Rep(n: nat, k: Kind): (r: seq<Kind>)
    ensures |r| == n
  {
    seq(n, _ => k)
  }

  function Then(n: nat, k: Kind, rest: Scan): Scan {
    Scan(Rep(n, k) + rest.classes, rest.block)
  }

  function LineScan(words: Words, lang: Lang, prev: char, s: string, block: bool): (r: Scan)
    ensures |r.classes| == |s|
    decreases |s|
  {
    if s == "" then Scan([], block)
    else
      var t := LineToken(words, lang, prev, s, block);
      Then(t.len, t.kind, LineScan(words, lang, s[t.len - 1], s[t.len..], t.block))
  }

  // ---- the reference: one scan of a whole text -----------------------------

  function LineLen(s: string): (n: nat)
    ensures n <= |s|
  {
    if s == "" || s[0] == '\n' then 0 else 1 + LineLen(s[1..])
  }

  function TextQuotedLen(s: string, quote: char, escapes: bool): (n: nat)
    ensures n <= |s|
  {
    if s == "" || s[0] == '\n' then 0
    else if escapes && s[0] == '\\' then
      (if |s| == 1 || s[1] == '\n' then 1 else 2 + TextQuotedLen(s[2..], quote, escapes))
    else if s[0] == quote then 1
    else 1 + TextQuotedLen(s[1..], quote, escapes)
  }

  function TextToken(words: Words, lang: Lang, prev: char, s: string, block: bool): (t: Token)
    requires s != ""
    ensures 1 <= t.len <= |s|
  {
    var c := s[0];
    if lang == LangC && block then BlockToken(s, 0)
    else if c == '\n' then Token(1, Plain, block)
    else
    match lang
    case LangNone => Token(LineLen(s), Plain, block)
    case LangC =>
      if c == '/' && |s| > 1 && s[1] == '/' then Token(LineLen(s), Comment, false)
      else if c == '/' && |s| > 1 && s[1] == '*' then BlockToken(s, 2)
      else if c == '"' || c == '\'' then Token(1 + TextQuotedLen(s[1..], c, true), Str, false)
      else if IsDigit(c) || (c == '.' && |s| > 1 && IsDigit(s[1])) then Token(RunLen(NumberC, s), Number, false)
      else if IsIdentStart(c) then WordToken(words, lang, s)
      else Token(1, Plain, false)
    case LangSh =>
      if c == '#' && HashOpens(prev) then Token(LineLen(s), Comment, block)
      else if c == '"' || c == '\'' then Token(1 + TextQuotedLen(s[1..], c, c == '"'), Str, block)
      else if IsDigit(c) then Token(RunLen(NumberC, s), Number, block)
      else if IsIdentStart(c) then WordToken(words, lang, s).(block := block)
      else Token(1, Plain, block)
    case LangJson =>
      if c == '"' then Token(1 + TextQuotedLen(s[1..], c, true), Str, block)
      else if IsDigit(c) || (c == '-' && |s| > 1 && IsDigit(s[1])) then Token(NumberJsonLen(s), Number, block)
      else if IsIdentStart(c) then WordToken(words, lang, s).(block := block)
      else Token(1, Plain, block)
  }

  function TextScan(words: Words, lang: Lang, prev: char, s: string, block: bool): (r: Scan)
    ensures |r.classes| == |s|
    decreases |s|
  {
    if s == "" then Scan([], block)
    else
      var t := TextToken(words, lang, prev, s, block);
      Then(t.len, t.kind, TextScan(words, lang, s[t.len - 1], s[t.len..], t.block))
  }

  predicate OneLine(s: string) { '\n' !in s }

  // A line's scan, one token at a time.
  lemma LineScanStep(words: Words, lang: Lang, prev: char, s: string, block: bool, t: Token)
    requires s != "" && t == LineToken(words, lang, prev, s, block)
    ensures LineScan(words, lang, prev, s, block)
      == Then(t.len, t.kind, LineScan(words, lang, s[t.len - 1], s[t.len..], t.block))
  {
  }
}
