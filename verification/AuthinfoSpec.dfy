// The key file dialect of src/authinfo.c as functions on the text that is left:
// the tokenizer, the entry parser, and the printer the parser undoes. A printed file
// may have any gaps between its tokens, comments among them, and its values are
// quoted; the program's own loops are proved against these functions in Authinfo.
module AuthinfoSpec {
  import opened Common

  const FILE_MAX: nat := 65536
  const SLOTS: nat := 64
  const MACHINE_MAX: nat := 256
  const SECRET_MAX: nat := 1024
  const TOKEN_MAX: nat := 1024

  predicate Blank(c: char) { c == ' ' || c == '\t' || c == '\r' || c == '\n' }

  predicate EndsRun(c: char) { Blank(c) || c == '#' }

  // ---- the tokenizer -------------------------------------------------------

  // The length of a comment, its newline not included.
  function CommentLen(s: string): (n: nat)
    ensures n <= |s|
  {
    if s == "" || s[0] == '\n' then 0 else 1 + CommentLen(s[1..])
  }

  // Leading whitespace and comments.
  function SkipLen(s: string): (n: nat)
    ensures n <= |s|
    ensures n < |s| ==> !EndsRun(s[n])
    decreases |s|
  {
    if s == "" then 0
    else if Blank(s[0]) then 1 + SkipLen(s[1..])
    else if s[0] == '#' then CommentLen(s) + SkipLen(s[CommentLen(s)..])
    else 0
  }

  // The bytes before the closing quote, or all that is left.
  function QuotedLen(s: string, quote: char): (n: nat)
    ensures n <= |s|
  {
    if s == "" || s[0] == quote then 0 else 1 + QuotedLen(s[1..], quote)
  }

  function RunLen(s: string): (n: nat)
    ensures n <= |s|
    ensures s != "" && !EndsRun(s[0]) ==> n > 0
  {
    if s == "" || EndsRun(s[0]) then 0 else 1 + RunLen(s[1..])
  }

  // The three ways a scan over blanks goes on, and one step of each run.
  lemma BlanksStep(s: string)
    requires s != ""
    ensures Blank(s[0]) ==> SkipLen(s) == 1 + SkipLen(s[1..])
    ensures s[0] == '#' ==> CommentLen(s) > 0 && SkipLen(s) == CommentLen(s) + SkipLen(s[CommentLen(s)..])
    ensures !EndsRun(s[0]) ==> SkipLen(s) == 0
  {
  }

  lemma RunsStep(s: string, quote: char)
    requires s != ""
    ensures QuotedLen(s, quote) == if s[0] == quote then 0 else 1 + QuotedLen(s[1..], quote)
    ensures RunLen(s) == if EndsRun(s[0]) then 0 else 1 + RunLen(s[1..])
  {
  }

  // What fits a buffer of `cap` bytes with its NUL.
  function Clip(t: string, cap: nat): string
    requires cap > 0
  {
    if |t| < cap then t else t[..cap - 1]
  }

  // A token and how much of the text it used.
  datatype Token = Token(text: string, used: nat)

  function HeadToken(s: string, cap: nat): (t: Token)
    requires s != "" && !EndsRun(s[0]) && cap > 0
    ensures 1 <= t.used <= |s|
  {
    if s[0] == '\'' || s[0] == '"' then
      var n := QuotedLen(s[1..], s[0]);
      Token(Clip(s[1..1 + n], cap), if 1 + n < |s| then n + 2 else n + 1)
    else Token(Clip(s[..RunLen(s)], cap), RunLen(s))
  }

  // next_token: every success uses at least one byte.
  function Next(s: string, cap: nat): (t: Option<Token>)
    requires cap > 0
    ensures t.Some? ==> 1 <= t.value.used <= |s|
  {
    var k := SkipLen(s);
    if k == |s| then None
    else
      var h := HeadToken(s[k..], cap);
      Some(Token(h.text, k + h.used))
  }

  // ---- the parser ----------------------------------------------------------

  datatype Entry = Entry(name: string, open: bool, pending: string, havePending: bool)
  const CLOSED := Entry("", false, "", false)

  datatype Slot = Slot(machine: string, secret: string)

  // entry_flush.
  function Flush(e: Entry, slots: seq<Slot>): seq<Slot> {
    if e.open && e.havePending && |slots| < SLOTS then slots + [Slot(e.name, e.pending)] else slots
  }

  // The position of the first '=', or the length.
  function EqualsAt(t: string): (n: nat)
    ensures n <= |t|
  {
    if t == "" || t[0] == '=' then 0 else 1 + EqualsAt(t[1..])
  }

  datatype Parsed = Parsed(entry: Entry, slots: seq<Slot>)

  // One key with its value.
  function Pair(p: Parsed, key: string, val: string): Parsed {
    if key == "machine" || key == "default" then
      Parsed(Entry(if key == "machine" && |val| < MACHINE_MAX then val else "", true, p.entry.pending, false),
             Flush(p.entry, p.slots))
    else if key == "password" && p.entry.open && val != "" && |val| < SECRET_MAX then
      p.(entry := p.entry.(pending := val, havePending := true))
    else p
  }

  // slots_rebuild over the text that is left.
  function Parse(s: string, p: Parsed): seq<Slot>
    decreases |s|
  {
    var t := Next(s, TOKEN_MAX + 1);
    if t.None? then Flush(p.entry, p.slots)
    else
      var tok, rest := t.value.text, s[t.value.used..];
      var eq := EqualsAt(tok);
      if eq < |tok| then
        if eq < TOKEN_MAX then Parse(rest, Pair(p, tok[..eq], tok[eq + 1..])) else Parse(rest, p)
      else if |tok| >= TOKEN_MAX then Parse(rest, p)
      else if tok == "default" then Parse(rest, Pair(p, tok, ""))
      else
        var v := Next(rest, TOKEN_MAX);
        if v.None? then Flush(p.entry, p.slots)
        else Parse(rest[v.value.used..], Pair(p, tok, v.value.text))
  }

  function SlotsOf(text: string): seq<Slot> {
    Parse(if |text| <= FILE_MAX then text else text[..FILE_MAX], Parsed(CLOSED, []))
  }

  // The first slot of the machine.
  function Lookup(slots: seq<Slot>, machine: string): Option<string>
    decreases |slots|
  {
    if slots == [] then None
    else if slots[0].machine == machine then Some(slots[0].secret)
    else Lookup(slots[1..], machine)
  }

  // ---- the printer ---------------------------------------------------------

  // What may stand between two tokens: blanks, and comments with their newline.
  datatype Piece = Space(c: char) | Note(body: string)

  predicate PieceOk(p: Piece) {
    match p
    case Space(c) => Blank(c)
    case Note(body) => '\n' !in body
  }

  function PieceText(p: Piece): string {
    match p
    case Space(c) => [c]
    case Note(body) => "#" + body + "\n"
  }

  type Gap = seq<Piece>

  predicate GapOk(g: Gap) { forall i :: 0 <= i < |g| ==> PieceOk(g[i]) }

  function GapText(g: Gap): string
    decreases |g|
  {
    if g == [] then "" else PieceText(g[0]) + GapText(g[1..])
  }

  // A token as a user may write it: bare, or in quotes of either kind.
  datatype Tok = Bare(text: string) | In(text: string, quote: char)

  predicate TokOk(t: Tok) {
    match t
    case Bare(text) => Word(text) && text[0] != '\'' && text[0] != '"'
    case In(text, quote) => (quote == '\'' || quote == '"') && quote !in text
  }

  function TokText(t: Tok): string {
    match t
    case Bare(text) => text
    case In(text, quote) => [quote] + text + [quote]
  }

  // A piece of a file: a key and its value, a key=value in one token, or the bare
  // keyword of the default entry; with what follows it.
  datatype Item =
    | Two(key: Tok, between: Gap, val: Tok, after: Gap)
    | Joined(tok: Tok, eq: nat, after: Gap)
    | Default(tok: Tok, after: Gap)

  predicate ItemOk(x: Item) {
    && GapOk(x.after)
    && match x
       case Two(key, between, val, _) =>
         && TokOk(key) && '=' !in key.text && |key.text| < TOKEN_MAX && key.text != "default"
         && GapOk(between) && (key.Bare? ==> between != []) && TokOk(val) && |val.text| < TOKEN_MAX
       case Joined(tok, eq, _) =>
         && TokOk(tok) && eq < |tok.text| <= TOKEN_MAX && tok.text[eq] == '=' && '=' !in tok.text[..eq]
       case Default(tok, _) => TokOk(tok) && tok.text == "default"
  }

  // A bare token at the end of a piece needs a gap before the next.
  predicate EndsBare(x: Item) { if x.Two? then x.val.Bare? else x.tok.Bare? }

  predicate ItemsOk(xs: seq<Item>) {
    forall i :: 0 <= i < |xs| ==> ItemOk(xs[i]) && (i < |xs| - 1 && EndsBare(xs[i]) ==> xs[i].after != [])
  }

  function ItemText(x: Item): string {
    match x
    case Two(key, between, val, after) => TokText(key) + (GapText(between) + (TokText(val) + GapText(after)))
    case Joined(tok, _, after) => TokText(tok) + GapText(after)
    case Default(tok, after) => TokText(tok) + GapText(after)
  }

  function ItemsText(xs: seq<Item>): string
    decreases |xs|
  {
    if xs == [] then "" else ItemText(xs[0]) + ItemsText(xs[1..])
  }

  function FileText(leading: Gap, xs: seq<Item>): string { GapText(leading) + ItemsText(xs) }

  // What a piece says.
  datatype Said = Said(key: string, val: string)

  function SaidBy(x: Item): Said
    requires ItemOk(x)
  {
    match x
    case Two(key, _, val, _) => Said(key.text, val.text)
    case Joined(tok, eq, _) => Said(tok.text[..eq], tok.text[eq + 1..])
    case Default(_, _) => Said("default", "")
  }

  function SaidBies(xs: seq<Item>): (ss: seq<Said>)
    requires forall i :: 0 <= i < |xs| ==> ItemOk(xs[i])
    ensures |ss| == |xs|
  {
    seq(|xs|, i requires 0 <= i < |xs| => SaidBy(xs[i]))
  }

  // ---- what a file says ----------------------------------------------------

  predicate Opens(s: Said) { s.key == "machine" || s.key == "default" }

  predicate GivesSecret(s: Said) { s.key == "password" && 0 < |s.val| < SECRET_MAX }

  // How many come before the next entry opens.
  function UpTo(ss: seq<Said>): (n: nat)
    ensures n <= |ss| && (n < |ss| ==> Opens(ss[n])) && forall i :: 0 <= i < n ==> !Opens(ss[i])
  {
    if ss == [] || Opens(ss[0]) then 0 else 1 + UpTo(ss[1..])
  }

  // The last password of an entry, if it has one.
  function LastSecret(ss: seq<Said>): Option<string> {
    if ss == [] then None
    else if GivesSecret(ss[|ss| - 1]) then Some(ss[|ss| - 1].val)
    else LastSecret(ss[..|ss| - 1])
  }

  function SlotOf(name: string, secret: Option<string>): seq<Slot> {
    if secret.Some? then [Slot(name, secret.value)] else []
  }

  // The machine an entry is for; the default entry and an over-long name match nothing.
  function NameOf(s: Said): string { if s.key == "machine" && |s.val| < MACHINE_MAX then s.val else "" }

  // Every entry's machine and its secret, in order, for the entries that have one.
  function Secrets(ss: seq<Said>): seq<Slot>
    decreases |ss|
  {
    if ss == [] then []
    else if !Opens(ss[0]) then Secrets(ss[1..])
    else
      var n := UpTo(ss[1..]);
      SlotOf(NameOf(ss[0]), LastSecret(ss[1..][..n])) + Secrets(ss[1..][n..])
  }

  // ---- the tokenizer undoes the printer ------------------------------------

  // A text that starts a token, or is over.
  predicate Starts(s: string) { s == "" || !EndsRun(s[0]) }

  lemma {:induction false} CommentIs(body: string, rest: string)
    requires '\n' !in body
    ensures CommentLen(body + ("\n" + rest)) == |body|
    decreases |body|
  {
    var s := body + ("\n" + rest);
    if body != "" {
      CommentIs(body[1..], rest);
      assert s[1..] == body[1..] + ("\n" + rest);
    }
  }

  lemma PieceIsSkipped(p: Piece, rest: string)
    requires PieceOk(p)
    ensures SkipLen(PieceText(p) + rest) == |PieceText(p)| + SkipLen(rest)
  {
    var s := PieceText(p) + rest;
    match p {
      case Space(c) =>
        assert s[1..] == rest;
      case Note(body) =>
        CommentIs("#" + body, rest);
        var n := |body| + 1;
        assert s == ("#" + body) + ("\n" + rest);
        assert CommentLen(s) == n && s[n..] == "\n" + rest;
        assert (("\n" + rest)[1..]) == rest;
    }
  }

  lemma {:induction false} GapIsSkipped(g: Gap, rest: string)
    requires GapOk(g) && Starts(rest)
    ensures SkipLen(GapText(g) + rest) == |GapText(g)|
    decreases |g|
  {
    if g == [] {
      assert GapText(g) + rest == rest;
    } else {
      GapIsSkipped(g[1..], rest);
      PieceIsSkipped(g[0], GapText(g[1..]) + rest);
      Assoc(PieceText(g[0]), GapText(g[1..]), rest);
    }
  }

  lemma {:induction false} QuotedIs(t: string, quote: char, rest: string)
    requires quote !in t
    ensures QuotedLen(t + ([quote] + rest), quote) == |t|
    decreases |t|
  {
    var s := t + ([quote] + rest);
    if t != "" {
      QuotedIs(t[1..], quote, rest);
      assert s[1..] == t[1..] + ([quote] + rest);
    }
  }

  predicate Word(t: string) { t != "" && forall i :: 0 <= i < |t| ==> !EndsRun(t[i]) }

  lemma {:induction false} RunIs(t: string, rest: string)
    requires (forall i :: 0 <= i < |t| ==> !EndsRun(t[i])) && (rest == "" || EndsRun(rest[0]))
    ensures RunLen(t + rest) == |t|
    decreases |t|
  {
    var s := t + rest;
    if t == "" {
      assert s == rest;
    } else {
      RunIs(t[1..], rest);
      assert s[1..] == t[1..] + rest;
    }
  }

  // After a gap comes the token that starts the rest.
  lemma NextAfterGap(g: Gap, body: string, cap: nat)
    requires GapOk(g) && body != "" && !EndsRun(body[0]) && cap > 0
    ensures Next(GapText(g) + body, cap)
      == Some(Token(HeadToken(body, cap).text, |GapText(g)| + HeadToken(body, cap).used))
  {
    hide HeadToken, GapText, SkipLen;
    GapIsSkipped(g, body);
    assert (GapText(g) + body)[|GapText(g)|..] == body;
  }

  // A bare word, when something that ends a run follows it.
  lemma NextIsWord(g: Gap, t: string, rest: string, cap: nat)
    requires GapOk(g) && Word(t) && t[0] != '\'' && t[0] != '"' && |t| < cap
    requires rest == "" || EndsRun(rest[0])
    ensures Next(GapText(g) + (t + rest), cap) == Some(Token(t, |GapText(g)| + |t|))
  {
    hide Next, SkipLen, GapText;
    RunIs(t, rest);
    assert (t + rest)[..|t|] == t;
    NextAfterGap(g, t + rest, cap);
  }

  lemma HeadIsQuoted(t: string, quote: char, rest: string, cap: nat)
    requires quote !in t && |t| < cap && (quote == '\'' || quote == '"')
    ensures HeadToken([quote] + t + [quote] + rest, cap) == Token(t, |t| + 2)
  {
    var q := [quote] + t + [quote] + rest;
    assert q[0] == quote && q[1..] == t + ([quote] + rest);
    QuotedIs(t, quote, rest);
    assert q[1..1 + |t|] == t;
  }

  // A quoted value, whatever follows it.
  lemma NextIsQuoted(g: Gap, t: string, quote: char, rest: string, cap: nat)
    requires GapOk(g) && quote !in t && |t| < cap && (quote == '\'' || quote == '"')
    ensures Next(GapText(g) + ([quote] + t + [quote] + rest), cap) == Some(Token(t, |GapText(g)| + |t| + 2))
  {
    hide HeadToken, Next, SkipLen, GapText;
    HeadIsQuoted(t, quote, rest, cap);
    NextAfterGap(g, [quote] + t + [quote] + rest, cap);
  }

  // A printed token is the next token, and is used up.
  lemma NextIsTok(g: Gap, t: Tok, rest: string, cap: nat)
    requires GapOk(g) && TokOk(t) && |t.text| < cap && (t.Bare? ==> rest == "" || EndsRun(rest[0]))
    ensures Next(GapText(g) + (TokText(t) + rest), cap) == Some(Token(t.text, |GapText(g)| + |TokText(t)|))
  {
    hide Next, GapText;
    match t
    case Bare(text) => NextIsWord(g, text, rest, cap);
    case In(text, quote) => NextIsQuoted(g, text, quote, rest, cap);
  }

  lemma GapEndsRun(g: Gap, rest: string)
    requires GapOk(g) && g != []
    ensures GapText(g) + rest != "" && EndsRun((GapText(g) + rest)[0])
  {
    assert (GapText(g) + rest)[0] == PieceText(g[0])[0];
  }

  lemma {:induction false} NoEquals(t: string)
    requires '=' !in t
    ensures EqualsAt(t) == |t|
    decreases |t|
  {
    if t != "" {
      NoEquals(t[1..]);
    }
  }

  lemma {:induction false} FirstEquals(t: string, eq: nat)
    requires eq < |t| && t[eq] == '=' && '=' !in t[..eq]
    ensures EqualsAt(t) == eq
  {
    if eq > 0 {
      assert t[0] in t[..eq];
      assert t[1..][..eq - 1] == t[..eq][1..];
      FirstEquals(t[1..], eq - 1);
    }
  }

  // One step of the parser, by the token it meets.
  lemma ParseStep(s: string, p: Parsed, tok: string, used: nat, eq: nat)
    requires Next(s, TOKEN_MAX + 1) == Some(Token(tok, used)) && EqualsAt(tok) == eq
    ensures used <= |s|
    ensures eq < |tok| && eq < TOKEN_MAX ==> Parse(s, p) == Parse(s[used..], Pair(p, tok[..eq], tok[eq + 1..]))
    ensures eq == |tok| && tok == "default" ==> Parse(s, p) == Parse(s[used..], Pair(p, tok, ""))
    ensures eq == |tok| >= TOKEN_MAX ==> Parse(s, p) == Parse(s[used..], p)
    ensures eq == |tok| < TOKEN_MAX && tok != "default" ==>
      match Next(s[used..], TOKEN_MAX)
      case None => true
      case Some(v) => v.used <= |s| - used && Parse(s, p) == Parse(s[used..][v.used..], Pair(p, tok, v.text))
  {
    hide Next, EqualsAt, Pair;
  }

  lemma NextIsLongWord(g: Gap, t: string, rest: string, cap: nat)
    requires GapOk(g) && Word(t) && t[0] != '\'' && t[0] != '"' && cap > 0 && (rest == "" || EndsRun(rest[0]))
    ensures Next(GapText(g) + (t + rest), cap) == Some(Token(Clip(t, cap), |GapText(g)| + |t|))
  {
    hide Next, SkipLen, GapText;
    RunIs(t, rest);
    assert (t + rest)[..|t|] == t;
    NextAfterGap(g, t + rest, cap);
  }

  // A word too long for a key is skipped by itself: what follows it is the next key, and
  // not its value.
  lemma LongKeyIsSkippedAlone(g: Gap, t: string, rest: string, p: Parsed)
    requires GapOk(g) && Word(t) && t[0] != '\'' && t[0] != '"' && '=' !in t && |t| >= TOKEN_MAX
    requires rest == "" || EndsRun(rest[0])
    ensures Parse(GapText(g) + (t + rest), p) == Parse(rest, p)
  {
    hide Next, SkipLen, GapText, Pair, Parse;
    var s, used := GapText(g) + (t + rest), |GapText(g)| + |t|;
    NextIsLongWord(g, t, rest, TOKEN_MAX + 1);
    var tok := Clip(t, TOKEN_MAX + 1);
    assert '=' !in tok;
    NoEquals(tok);
    ParseStep(s, p, tok, used, |tok|);
    assert s[used..] == rest;
  }

  lemma OneTokParses(before: Gap, tok: Tok, rest: string, p: Parsed, x: Said)
    requires GapOk(before) && TokOk(tok) && (tok.Bare? ==> rest == "" || EndsRun(rest[0]))
    requires (tok.text == "default" && x == Said("default", ""))
      || exists eq :: 0 <= eq < |tok.text| <= TOKEN_MAX && tok.text[eq] == '=' && '=' !in tok.text[..eq] && x == Said(tok.text[..eq], tok.text[eq + 1..])
    ensures Parse(GapText(before) + (TokText(tok) + rest), p) == Parse(rest, Pair(p, x.key, x.val))
  {
    hide Next, Pair, Parse, EqualsAt, TokText, GapText;
    var s := GapText(before) + (TokText(tok) + rest);
    NextIsTok(before, tok, rest, TOKEN_MAX + 1);
    var used := |GapText(before)| + |TokText(tok)|;
    assert s[used..] == rest;
    if tok.text == "default" && x == Said("default", "") {
      NoEquals(tok.text);
      ParseStep(s, p, tok.text, used, |tok.text|);
    } else {
      var eq :| 0 <= eq < |tok.text| <= TOKEN_MAX && tok.text[eq] == '=' && '=' !in tok.text[..eq] && x == Said(tok.text[..eq], tok.text[eq + 1..]);
      FirstEquals(tok.text, eq);
      ParseStep(s, p, tok.text, used, eq);
    }
  }

  // A key, its gap and its value are one step.
  lemma PairParses(before: Gap, key: Tok, between: Gap, val: Tok, rest: string, p: Parsed)
    requires GapOk(before) && GapOk(between) && (key.Bare? ==> between != []) && TokOk(key) && TokOk(val)
    requires '=' !in key.text && |key.text| < TOKEN_MAX && key.text != "default" && |val.text| < TOKEN_MAX
    requires val.Bare? ==> rest == "" || EndsRun(rest[0])
    ensures Parse(GapText(before) + (TokText(key) + (GapText(between) + (TokText(val) + rest))), p) == Parse(rest, Pair(p, key.text, val.text))
  {
    hide Next, GapText, TokText, Pair, EqualsAt, Parse;
    var v := GapText(between) + (TokText(val) + rest);
    var s := GapText(before) + (TokText(key) + v);
    if key.Bare? {
      GapEndsRun(between, TokText(val) + rest);
    }
    NextIsTok(before, key, v, TOKEN_MAX + 1);
    NextIsTok(between, val, rest, TOKEN_MAX);
    NoEquals(key.text);
    var used := |GapText(before)| + |TokText(key)|;
    assert s[used..] == v;
    ParseStep(s, p, key.text, used, |key.text|);
    assert v[|GapText(between)| + |TokText(val)|..] == rest;
  }

  // A printed piece is one step, and leaves its gap before the next.
  lemma ItemParses(before: Gap, x: Item, rest: string, p: Parsed)
    requires GapOk(before) && ItemOk(x) && (EndsBare(x) ==> x.after != [] || rest == "")
    ensures Parse(GapText(before) + (ItemText(x) + rest), p) == Parse(GapText(x.after) + rest, Pair(p, SaidBy(x).key, SaidBy(x).val))
  {
    hide Next, GapText, TokText, Pair, EqualsAt, Parse;
    var left := GapText(x.after) + rest;
    if x.after != [] {
      GapEndsRun(x.after, rest);
    } else {
      NoGap(rest);
    }
    match x {
      case Two(key, between, val, after) =>
        PairParses(before, key, between, val, left, p);
        Regroup(TokText(key), GapText(between), TokText(val), GapText(after), rest);
      case Joined(tok, eq, after) =>
        OneTokParses(before, tok, left, p, SaidBy(x));
        Assoc(TokText(tok), GapText(after), rest);
      case Default(tok, after) =>
        OneTokParses(before, tok, left, p, SaidBy(x));
        Assoc(TokText(tok), GapText(after), rest);
    }
  }

  lemma NoGap(rest: string)
    ensures GapText([]) + rest == rest
  {
  }

  lemma Regroup(a: string, b: string, c: string, d: string, e: string)
    ensures a + (b + (c + d)) + e == a + (b + (c + (d + e)))
  {
    Assoc(a, b + (c + d), e);
    Assoc(b, c + d, e);
    Assoc(c, d, e);
  }

  // The slots a parser in state `p` collects from what is said.
  function Collected(p: Parsed, ss: seq<Said>): seq<Slot>
    decreases |ss|
  {
    if ss == [] then Flush(p.entry, p.slots) else Collected(Pair(p, ss[0].key, ss[0].val), ss[1..])
  }

  lemma {:induction false} FileParses(before: Gap, xs: seq<Item>, p: Parsed)
    requires GapOk(before) && ItemsOk(xs)
    ensures Parse(GapText(before) + ItemsText(xs), p) == Collected(p, SaidBies(xs))
    decreases |xs|
  {
    if xs == [] {
      GapIsSkipped(before, "");
      assert GapText(before) + "" == GapText(before);
    } else {
      hide Parse, ItemText, ItemOk, GapText, Pair, EndsBare, SaidBy, SaidBies, GapOk;
      var x, rest := xs[0], ItemsText(xs[1..]);
      TailOk(xs);
      ItemParses(before, x, rest, p);
      FileParses(x.after, xs[1..], Pair(p, SaidBy(x).key, SaidBy(x).val));
      SaidBiesStep(xs);
    }
  }

  lemma SaidBiesStep(xs: seq<Item>)
    requires xs != [] && forall i :: 0 <= i < |xs| ==> ItemOk(xs[i])
    ensures SaidBies(xs)[0] == SaidBy(xs[0]) && SaidBies(xs)[1..] == SaidBies(xs[1..])
  {
    hide ItemOk, SaidBy;
  }

  lemma TailOk(xs: seq<Item>)
    requires xs != [] && ItemsOk(xs)
    ensures ItemsOk(xs[1..]) && ItemOk(xs[0]) && GapOk(xs[0].after)
    ensures EndsBare(xs[0]) ==> xs[0].after != [] || ItemsText(xs[1..]) == ""
  {
    hide EndsBare;
  }

  // ---- The parser collects what the file says. ----

  // What the entry that is open gets, and the entries after it.
  function Ongoing(e: Entry, ss: seq<Said>): seq<Slot> {
    var n := UpTo(ss);
    var secret := LastSecret(ss[..n]);
    (if e.open then SlotOf(e.name, if secret.Some? then secret else if e.havePending then Some(e.pending) else None) else [])
    + Secrets(ss[n..])
  }

  function Capped(slots: seq<Slot>): seq<Slot> { if |slots| <= SLOTS then slots else slots[..SLOTS] }

  lemma {:induction false} LastOfMore(s: Said, ss: seq<Said>)
    ensures LastSecret([s] + ss) == if LastSecret(ss).Some? then LastSecret(ss) else if GivesSecret(s) then Some(s.val) else None
  {
    var all := [s] + ss;
    if ss == [] {
      assert all[..0] == [] && all[0] == s;
    } else {
      LastOfMore(s, ss[..|ss| - 1]);
      assert all[..|all| - 1] == [s] + ss[..|ss| - 1];
    }
  }

  lemma KeyGoesOn(p: Parsed, ss: seq<Said>)
    requires ss != [] && !Opens(ss[0])
    ensures var q := Pair(p, ss[0].key, ss[0].val); q.slots == p.slots && Ongoing(q.entry, ss[1..]) == Ongoing(p.entry, ss)
  {
    var n := UpTo(ss[1..]);
    assert UpTo(ss) == n + 1;
    assert ss[..n + 1] == [ss[0]] + ss[1..][..n] && ss[n + 1..] == ss[1..][n..];
    LastOfMore(ss[0], ss[1..][..n]);
    hide LastSecret, Secrets, UpTo;
  }

  lemma EntryOpens(p: Parsed, ss: seq<Said>)
    requires ss != [] && Opens(ss[0]) && |p.slots| <= SLOTS
    ensures var q := Pair(p, ss[0].key, ss[0].val);
      |q.slots| <= SLOTS && Capped(q.slots + Ongoing(q.entry, ss[1..])) == Capped(p.slots + Ongoing(p.entry, ss))
  {
    var q := Pair(p, ss[0].key, ss[0].val);
    var own := if p.entry.open && p.entry.havePending then [Slot(p.entry.name, p.entry.pending)] else [];
    assert UpTo(ss) == 0 && ss[0..] == ss && ss[..0] == [];
    assert Ongoing(p.entry, ss) == own + Secrets(ss);
    assert Secrets(ss) == Ongoing(q.entry, ss[1..]);
    hide Secrets, Ongoing, UpTo;
    Assoc(p.slots, own, Ongoing(q.entry, ss[1..]));
    assert q.slots == Capped(p.slots + own);
    CappedFirst(p.slots + own, Ongoing(q.entry, ss[1..]));
  }

  lemma CappedFirst(a: seq<Slot>, b: seq<Slot>)
    ensures Capped(Capped(a) + b) == Capped(a + b)
  {
    if |a| > SLOTS {
      assert (a[..SLOTS] + b)[..SLOTS] == a[..SLOTS] == (a + b)[..SLOTS];
    }
  }

  lemma {:induction false} CollectedIsSaid(p: Parsed, ss: seq<Said>)
    requires |p.slots| <= SLOTS
    ensures Collected(p, ss) == Capped(p.slots + Ongoing(p.entry, ss))
    decreases |ss|
  {
    if ss == [] {
      NothingSaid(p);
    } else if Opens(ss[0]) {
      EntryOpens(p, ss);
      hide Ongoing, Capped, Pair;
      CollectedIsSaid(Pair(p, ss[0].key, ss[0].val), ss[1..]);
    } else {
      KeyGoesOn(p, ss);
      hide Ongoing, Capped, Pair;
      CollectedIsSaid(Pair(p, ss[0].key, ss[0].val), ss[1..]);
    }
  }

  lemma NothingSaid(p: Parsed)
    requires |p.slots| <= SLOTS
    ensures Flush(p.entry, p.slots) == Capped(p.slots + Ongoing(p.entry, []))
  {
    var none: seq<Said> := [];
    assert none[..0] == [] && none[0..] == [];
    if |p.slots| == SLOTS {
      assert (p.slots + Ongoing(p.entry, none))[..SLOTS] == p.slots;
    }
  }

  // Round trip: the slots of a printed file are the machines and the secrets its entries
  // give, in order, up to the capacity of the table, whatever else the entries say, in
  // whichever spelling, and whatever comments and blanks lie between.
  lemma PrintedFileParses(leading: Gap, xs: seq<Item>)
    requires GapOk(leading) && ItemsOk(xs) && |FileText(leading, xs)| <= FILE_MAX
    ensures SlotsOf(FileText(leading, xs)) == Capped(Secrets(SaidBies(xs)))
  {
    hide Parse, ItemsText, GapText, ItemOk, Secrets;
    var p, ss := Parsed(CLOSED, []), SaidBies(xs);
    FileParses(leading, xs, p);
    CollectedIsSaid(p, ss);
    BeforeAnyEntry(ss);
    assert [] + Ongoing(CLOSED, ss) == Ongoing(CLOSED, ss);
  }

  // What comes before the first entry says nothing.
  lemma {:induction false} BeforeAnyEntry(ss: seq<Said>)
    ensures Ongoing(CLOSED, ss) == Secrets(ss)
  {
    if ss == [] || Opens(ss[0]) {
      assert ss[0..] == ss;
    } else {
      BeforeAnyEntry(ss[1..]);
      assert ss[1..][UpTo(ss[1..])..] == ss[UpTo(ss)..];
    }
  }

  // The secret of a machine's first slot.
  lemma {:induction false} LookupIsFirst(slots: seq<Slot>, machine: string, secret: string)
    ensures Lookup(slots, machine) == Some(secret) <==>
      exists k: nat :: k < |slots| && slots[k] == Slot(machine, secret) && forall j :: 0 <= j < k ==> slots[j].machine != machine
    decreases |slots|
  {
    if slots != [] && slots[0].machine != machine {
      LookupIsFirst(slots[1..], machine, secret);
      if Lookup(slots, machine) == Some(secret) {
        var k: nat :| k < |slots| - 1 && slots[1..][k] == Slot(machine, secret) && forall j :: 0 <= j < k ==> slots[1..][j].machine != machine;
        assert slots[k + 1] == Slot(machine, secret) && forall j :: 0 < j < k + 1 ==> slots[j] == slots[1..][j - 1];
      }
      if k: nat :| k < |slots| && slots[k] == Slot(machine, secret) && forall j :: 0 <= j < k ==> slots[j].machine != machine {
        assert slots[1..][k - 1] == Slot(machine, secret) && forall j :: 0 <= j < k - 1 ==> slots[1..][j] == slots[j + 1];
      }
    } else if slots != [] && slots[0] == Slot(machine, secret) {
      assert slots[0] == Slot(machine, secret);
    }
  }

  // So looking a machine up in a printed file with up to 64 secrets finds the one of its
  // first entry that has one, or nothing.
  lemma PrintedFileAnswers(leading: Gap, xs: seq<Item>, machine: string, secret: string)
    requires GapOk(leading) && ItemsOk(xs) && |FileText(leading, xs)| <= FILE_MAX && |Secrets(SaidBies(xs))| <= SLOTS
    ensures var slots := Secrets(SaidBies(xs));
      Lookup(SlotsOf(FileText(leading, xs)), machine) == Some(secret) <==>
        exists k: nat :: k < |slots| && slots[k] == Slot(machine, secret) && forall j :: 0 <= j < k ==> slots[j].machine != machine
  {
    PrintedFileParses(leading, xs);
    LookupIsFirst(Secrets(SaidBies(xs)), machine, secret);
    hide Secrets, FileText, SlotsOf, ItemOk;
  }
}
