// What each configuration key accepts, and its canonical text (src/conf.c): durations,
// counts and the word tables. Numbers with a fraction are in Decimal, lists of families
// in ConfFamilies, and ConfKeys says which key takes which kind.
module ConfValues {
  import opened Common
  import opened Decimal

  const VAL: nat := 1024
  const INT_MAX: nat := 0x7FFF_FFFF

  // ---- Integers and durations. ----

  lemma {:induction false} PrefixIsSmaller(s: DigitString, i: nat)
    requires i <= |s|
    ensures IntValue(s[..i]) <= IntValue(s)
    ensures i < |s| ==> IntValue(s[..i]) * 10 <= IntValue(s)
  {
    if i < |s| {
      var init := s[..|s| - 1];
      assert init[..i] == s[..i];
      PrefixIsSmaller(init, i);
    } else {
      assert s[..i] == s;
    }
  }

  // duration_parse: exactly the digit strings that denote 1 .. 2^31 - 1.
  function Duration(s: string): int {
    if s != [] && Digits(s) && 1 <= IntValue(s) <= INT_MAX then IntValue(s) else -1
  }

  // Every value the accumulator takes, and every product it forms, fits a 32-bit
  // long: `peak` is the largest of them.
  method DurationParse(value: string) returns (v: int, ghost peak: nat)
    ensures v == Duration(value)
    ensures peak <= INT_MAX
  {
    v, peak := 0, 0;
    if value == [] {
      return -1, peak;
    }
    for i := 0 to |value|
      invariant Digits(value[..i]) && v == IntValue(value[..i])
      invariant 0 <= v <= peak <= INT_MAX
    {
      if value[i] < '0' || value[i] > '9' {
        return -1, peak;
      }
      var d := DigitOf(value[i]);
      assert value[..i + 1][..i] == value[..i];
      if v > (INT_MAX - d) / 10 {
        if Digits(value) {
          PrefixIsSmaller(value, i + 1);
        }
        return -1, peak;
      }
      v := v * 10 + d;
      peak := if v > peak then v else peak;
    }
    assert value[..|value|] == value;
    v := if v > 0 then v else -1;
  }

  // nm_config_valid_positive_int: exactly the digit strings that denote
  // 1 .. 1000009.
  predicate PositiveInt(s: string) { s != [] && Digits(s) && 1 <= IntValue(s) <= 1000009 }

  method ValidPositiveInt(value: string) returns (ok: bool)
    ensures ok <==> PositiveInt(value)
  {
    if value == [] {
      return false;
    }
    var v := 0;
    for i := 0 to |value|
      invariant Digits(value[..i]) && v == IntValue(value[..i]) <= 1000009
    {
      if value[i] < '0' || value[i] > '9' || v > 100000 {
        if Digits(value) {
          PrefixIsSmaller(value, i);
        }
        return false;
      }
      assert value[..i + 1][..i] == value[..i];
      v := v * 10 + DigitOf(value[i]);
    }
    assert value[..|value|] == value;
    ok := v > 0;
  }

  // ---- Words. ----

  function LowerChar(c: char): char {
    if 'A' <= c <= 'Z' then (c as int - 'A' as int + 'a' as int) as char else c
  }

  // ASCII case folding, character by character.
  function Lower(s: string): string {
    seq(|s|, i requires 0 <= i < |s| => LowerChar(s[i]))
  }

  datatype Row = Row(canon: string, tokens: seq<string>)

  // The first row that lists the word, whatever its case.
  function Mode(value: string, rows: seq<Row>): Option<string> {
    if rows == [] then None
    else if Lower(value) in rows[0].tokens then Some(rows[0].canon)
    else Mode(value, rows[1..])
  }

  // Every row lists its own canonical word, and no earlier row does.
  predicate Settled(rows: seq<Row>) {
    && (forall i :: 0 <= i < |rows| ==> Lower(rows[i].canon) == rows[i].canon && rows[i].canon in rows[i].tokens)
    && (forall i, j :: 0 <= j < i < |rows| ==> rows[i].canon !in rows[j].tokens)
  }

  lemma {:induction false} ModeIsARow(value: string, rows: seq<Row>)
    requires Mode(value, rows).Some?
    ensures exists i :: 0 <= i < |rows| && Mode(value, rows) == Some(rows[i].canon)
  {
    if Lower(value) in rows[0].tokens {
      assert Mode(value, rows) == Some(rows[0].canon);
    } else {
      ModeIsARow(value, rows[1..]);
      var i :| 0 <= i < |rows[1..]| && Mode(value, rows[1..]) == Some(rows[1..][i].canon);
      assert rows[1..][i] == rows[i + 1];
    }
  }

  lemma {:induction false} RowIsItsOwnMode(rows: seq<Row>, k: nat)
    requires k < |rows| && Lower(rows[k].canon) == rows[k].canon && rows[k].canon in rows[k].tokens
    requires forall j :: 0 <= j < k ==> rows[k].canon !in rows[j].tokens
    ensures Mode(rows[k].canon, rows) == Some(rows[k].canon)
  {
    if k > 0 {
      assert rows[1..][k - 1] == rows[k];
      assert forall j :: 0 <= j < k - 1 ==> rows[1..][j] == rows[j + 1];
      RowIsItsOwnMode(rows[1..], k - 1);
    }
  }

  // The canonical word is its own canonical word.
  lemma ModeIsIdempotent(value: string, rows: seq<Row>)
    requires Settled(rows) && Mode(value, rows).Some?
    ensures Mode(Mode(value, rows).value, rows) == Mode(value, rows)
  {
    ModeIsARow(value, rows);
    var i :| 0 <= i < |rows| && Mode(value, rows) == Some(rows[i].canon);
    RowIsItsOwnMode(rows, i);
  }

  // reasoning_echo and signature_echo.
  function EchoRows(): seq<Row> {
    [Row("off", ["off", "no", "false", "0"]),
     Row("tools", ["tools", "tool", "calls", "tool-calls", "tool_calls"]),
     Row("all", ["all", "on", "true", "yes", "1"])]
  }

  function KbdRows(): seq<Row> {
    [Row("auto", ["auto", "default"]),
     Row("on", ["on", "true", "yes", "1", "kitty"]),
     Row("off", ["off", "no", "false", "0", "legacy"])]
  }

  function ColorRows(): seq<Row> {
    [Row("auto", ["auto", "default"]),
     Row("16", ["16", "ansi", "ansi16", "ansi-16"]),
     Row("rgb", ["rgb", "truecolor", "true-color", "24bit", "24-bit", "direct"])]
  }

  function BoolRows(): seq<Row> {
    [Row("on", ["1", "true", "on", "yes"]), Row("off", ["0", "false", "off", "no"])]
  }

  // The canonical words are in lower case.
  lemma WordsAreFolded()
    ensures Lower("off") == "off" && Lower("tools") == "tools" && Lower("all") == "all" && Lower("auto") == "auto"
    ensures Lower("on") == "on" && Lower("16") == "16" && Lower("rgb") == "rgb"
  {
  }

  // Three rows whose canonical words are apart.
  lemma ThreeRows(a: Row, b: Row, c: Row)
    requires forall r :: r in [a, b, c] ==> Lower(r.canon) == r.canon && r.canon in r.tokens
    requires b.canon !in a.tokens && c.canon !in a.tokens && c.canon !in b.tokens
    ensures Settled([a, b, c])
  {
    hide Lower;
  }

  lemma EchoIsSettled()
    ensures Settled(EchoRows())
  {
    var r := EchoRows();
    WordsAreFolded();
    hide Lower, Settled;
    ThreeRows(r[0], r[1], r[2]);
  }

  lemma KbdIsSettled()
    ensures Settled(KbdRows())
  {
    var r := KbdRows();
    WordsAreFolded();
    hide Lower, Settled;
    ThreeRows(r[0], r[1], r[2]);
  }

  lemma ColorIsSettled()
    ensures Settled(ColorRows())
  {
    var r := ColorRows();
    WordsAreFolded();
    hide Lower, Settled;
    ThreeRows(r[0], r[1], r[2]);
  }

  lemma BoolIsSettled()
    ensures Settled(BoolRows())
  {
  }

  // The table walk of token_in, row by row.
  method TokenCanon(value: string, rows: seq<Row>) returns (out: Option<string>)
    ensures out == Mode(value, rows)
  {
    for i := 0 to |rows|
      invariant Mode(value, rows) == Mode(value, rows[i..])
    {
      var tokens := rows[i].tokens;
      assert rows[i..][1..] == rows[i + 1..];
      var hit := false;
      for k := 0 to |tokens|
        invariant hit <==> Lower(value) in tokens[..k]
      {
        assert tokens[..k + 1] == tokens[..k] + [tokens[k]];
        if Lower(value) == tokens[k] {
          hit := true;
        }
      }
      assert tokens[..|tokens|] == tokens;
      if hit {
        return Some(rows[i].canon);
      }
    }
    out := None;
  }

  // normalize_bool over a validated spelling: the first letter, and the second one
  // after an o, decide.
  function ByLetter(value: string): string
    requires value != []
  {
    if value[0] in {'1', 't', 'T', 'y', 'Y'} then "on"
    else if value[0] in {'o', 'O'} then (if |value| > 1 && value[1] in {'n', 'N'} then "on" else "off")
    else "off"
  }

  // The letters give the row the whole word is in.
  lemma ByLetterIsTheMode(value: string)
    requires Mode(value, BoolRows()).Some?
    ensures value != [] && Mode(value, BoolRows()) == Some(ByLetter(value))
  {
    var w := Lower(value);
    var rows := BoolRows();
    ModeOfTwo(value, rows);
    assert w in rows[0].tokens || w in rows[1].tokens;
    assert w == "1" || w == "true" || w == "on" || w == "yes" || w == "0" || w == "false" || w == "off" || w == "no";
    assert |w| > 0;
    assert w[0] == LowerChar(value[0]);
    if |value| > 1 {
      assert w[1] == LowerChar(value[1]);
    }
    if w in rows[0].tokens {
      assert w == "1" || w == "true" || w == "on" || w == "yes";
    } else {
      assert w == "0" || w == "false" || w == "off" || w == "no";
    }
  }

  lemma ModeOfTwo(value: string, rows: seq<Row>)
    requires |rows| == 2
    ensures Mode(value, rows) ==
      if Lower(value) in rows[0].tokens then Some(rows[0].canon)
      else if Lower(value) in rows[1].tokens then Some(rows[1].canon) else None
  {
    assert rows[1..][0] == rows[1];
    assert rows[1..][1..] == [];
    assert Mode(value, rows[1..][1..]) == None;
  }

  method BoolCanon(value: string) returns (out: Option<string>)
    ensures out == Mode(value, BoolRows())
  {
    var listed := TokenCanon(value, BoolRows());
    if listed.None? {
      return None;
    }
    ByLetterIsTheMode(value);
    out := Some(ByLetter(value));
  }
}
