// The text of a UTC timestamp (src/credit.c): the scan of its six fields, and the
// printed form it reads back. The scan is that of a format string with six numbers and
// literal separators, blanks and a sign allowed before each number; what the numbers
// come to is in Calendar.
module Timestamps {
  import opened Common

  predicate IsSpace(c: char) { c == ' ' || 9 <= c as int <= 13 }

  predicate IsDigit(c: char) { '0' <= c <= '9' }

  function SpacesEnd(s: string, i: nat): (j: nat)
    requires i <= |s|
    ensures i <= j <= |s|
    decreases |s| - i
  {
    if i < |s| && IsSpace(s[i]) then SpacesEnd(s, i + 1) else i
  }

  function DigitsEnd(s: string, i: nat): (j: nat)
    requires i <= |s|
    ensures i <= j <= |s|
    decreases |s| - i
  {
    if i < |s| && IsDigit(s[i]) then DigitsEnd(s, i + 1) else i
  }

  // The number the characters from i to j spell.
  function Number(s: string, i: nat, j: nat): int
    requires i <= j <= |s|
    decreases j
  {
    if i == j then 0 else 10 * Number(s, i, j - 1) + (s[j - 1] as int - '0' as int)
  }

  // A scanned number, and where the scan goes on.
  datatype Scanned = Scanned(value: int, next: nat)

  // "%d": blanks, a sign, digits.
  function ScanInt(s: string, i: nat): (r: Option<Scanned>)
    requires i <= |s|
    ensures r.Some? ==> i < r.value.next <= |s|
  {
    var j := SpacesEnd(s, i);
    var signed := j < |s| && (s[j] == '-' || s[j] == '+');
    var from := if signed then j + 1 else j;
    var end := DigitsEnd(s, from);
    if end == from then None
    else Some(Scanned(if signed && s[j] == '-' then -Number(s, from, end) else Number(s, from, end), end))
  }

  // A literal character of the format, and then "%d".
  function ScanNext(s: string, i: nat, c: char): (r: Option<Scanned>)
    requires i <= |s|
    ensures r.Some? ==> r.value.next <= |s|
  {
    if i < |s| && s[i] == c then ScanInt(s, i + 1) else None
  }

  datatype Fields = Fields(y: int, m: int, d: int, h: int, min: int, sec: int)

  // sscanf with "%d-%d-%dT%d:%d:%d"; None for fewer than six conversions.
  function ScanFields(s: string): Option<Fields> {
    var y := ScanInt(s, 0);
    if y.None? then None else
    var m := ScanNext(s, y.value.next, '-');
    if m.None? then None else
    var d := ScanNext(s, m.value.next, '-');
    if d.None? then None else
    var h := ScanNext(s, d.value.next, 'T');
    if h.None? then None else
    var min := ScanNext(s, h.value.next, ':');
    if min.None? then None else
    var sec := ScanNext(s, min.value.next, ':');
    if sec.None? then None else
    Some(Fields(y.value.value, m.value.value, d.value.value, h.value.value, min.value.value, sec.value.value))
  }

  // ---- Printed and read back. ----

  predicate Digits(t: string) { t != "" && forall i :: 0 <= i < |t| ==> IsDigit(t[i]) }

  predicate At(s: string, p: nat, t: string) { p + |t| <= |s| && forall j :: 0 <= j < |t| ==> t[j] == s[p + j] }

  lemma {:induction false} DigitsEndIs(s: string, i: nat, j: nat)
    requires i <= j <= |s| && (forall k :: i <= k < j ==> IsDigit(s[k])) && (j < |s| ==> !IsDigit(s[j]))
    ensures DigitsEnd(s, i) == j
    decreases j - i
  {
    if i < j {
      DigitsEndIs(s, i + 1, j);
    }
  }

  lemma {:induction false} NumberAt(s: string, p: nat, t: string, n: nat)
    requires At(s, p, t) && n <= |t|
    ensures Number(s, p, p + n) == Number(t, 0, n)
  {
    if n > 0 {
      NumberAt(s, p, t, n - 1);
      assert s[p + (n - 1)] == t[n - 1];
    }
  }

  // A field of digits is read whole and for its value.
  lemma FieldIsRead(s: string, p: nat, t: string, q: nat)
    requires At(s, p, t) && Digits(t) && q == p + |t| && Stops(s, q)
    ensures ScanInt(s, p) == Some(Scanned(Number(t, 0, |t|), q))
  {
    forall k | p <= k < q ensures IsDigit(s[k]) {
      assert t[k - p] == s[p + (k - p)];
    }
    DigitsEndIs(s, p, q);
    NumberAt(s, p, t, |t|);
  }

  // A separator, and a field of digits after it.
  lemma NextIsRead(s: string, p: nat, c: char, t: string, q: nat)
    requires At(s, p, [c] + t) && Digits(t) && q == p + 1 + |t| && Stops(s, q)
    ensures ScanNext(s, p, c) == Some(Scanned(Number(t, 0, |t|), q))
  {
    var ct := [c] + t;
    assert ct[0] == s[p + 0];
    forall j | 0 <= j < |t| ensures t[j] == s[p + 1 + j] {
      assert ct[j + 1] == s[p + (j + 1)];
    }
    FieldIsRead(s, p + 1, t, q);
  }

  function Concat(ts: seq<string>): string { if ts == [] then "" else Concat(ts[..|ts| - 1]) + ts[|ts| - 1] }

  function Offset(ts: seq<string>, k: nat): nat
    requires k <= |ts|
  {
    if k == 0 then 0 else Offset(ts, k - 1) + |ts[k - 1]|
  }

  lemma {:induction false} OffsetBefore(ts: seq<string>, k: nat)
    requires k < |ts|
    ensures Offset(ts[..|ts| - 1], k) == Offset(ts, k)
  {
    if k > 0 {
      OffsetBefore(ts, k - 1);
    }
  }

  lemma {:induction false} LengthIs(ts: seq<string>)
    ensures |Concat(ts)| == Offset(ts, |ts|)
  {
    if ts != [] {
      LengthIs(ts[..|ts| - 1]);
      OffsetBefore(ts, |ts| - 1);
    }
  }

  // Each piece stands where the pieces before it end.
  lemma {:induction false} PieceIsAt(ts: seq<string>, k: nat)
    requires k < |ts|
    ensures At(Concat(ts), Offset(ts, k), ts[k])
  {
    var before := ts[..|ts| - 1];
    OffsetBefore(ts, k);
    if k < |before| {
      PieceIsAt(before, k);
    } else {
      LengthIs(before);
    }
  }

  // The six fields as text.
  datatype Texts = Texts(y: string, m: string, d: string, h: string, min: string, sec: string)

  predicate AllDigits(t: Texts) {
    Digits(t.y) && Digits(t.m) && Digits(t.d) && Digits(t.h) && Digits(t.min) && Digits(t.sec)
  }

  function Value(t: string): int { Number(t, 0, |t|) }

  function Values(t: Texts): Fields {
    Fields(Value(t.y), Value(t.m), Value(t.d), Value(t.h), Value(t.min), Value(t.sec))
  }

  // The fields with their separators, and whatever follows.
  function Pieces(t: Texts, tail: string): seq<string> {
    [t.y, "-" + t.m, "-" + t.d, "T" + t.h, ":" + t.min, ":" + t.sec, tail]
  }

  function Printed(t: Texts, tail: string): string { Concat(Pieces(t, tail)) }

  // What follows a field is no digit.
  predicate Stops(s: string, q: nat) { q < |s| ==> !IsDigit(s[q]) }

  lemma SeparatorStops(s: string, p: nat, c: char, t: string)
    requires At(s, p, [c] + t) && !IsDigit(c)
    ensures Stops(s, p)
  {
    assert ([c] + t)[0] == s[p + 0];
  }

  // Any digits in the six places are read back for their values, and a tail that does
  // not go on with a digit is ignored, a zone offset among them.
  lemma PrintedIsRead(t: Texts, tail: string)
    requires AllDigits(t) && (tail != "" ==> !IsDigit(tail[0]))
    ensures ScanFields(Printed(t, tail)) == Some(Values(t))
  {
    var s := Printed(t, tail);
    var p1 := |t.y|;
    var p2 := p1 + 1 + |t.m|;
    var p3 := p2 + 1 + |t.d|;
    var p4 := p3 + 1 + |t.h|;
    var p5 := p4 + 1 + |t.min|;
    var p6 := p5 + 1 + |t.sec|;
    PiecesAreAt(t, tail, s, p1, p2, p3, p4, p5, p6);
    hide Concat, Offset, Pieces, At, Digits, Stops, Number, ScanInt, ScanNext, Printed;
    SeparatorStops(s, p1, '-', t.m);
    SeparatorStops(s, p2, '-', t.d);
    SeparatorStops(s, p3, 'T', t.h);
    SeparatorStops(s, p4, ':', t.min);
    SeparatorStops(s, p5, ':', t.sec);
    FieldIsRead(s, 0, t.y, p1);
    NextIsRead(s, p1, '-', t.m, p2);
    NextIsRead(s, p2, '-', t.d, p3);
    NextIsRead(s, p3, 'T', t.h, p4);
    NextIsRead(s, p4, ':', t.min, p5);
    NextIsRead(s, p5, ':', t.sec, p6);
  }

  lemma PiecesAreAt(t: Texts, tail: string, s: string, p1: nat, p2: nat, p3: nat, p4: nat, p5: nat, p6: nat)
    requires s == Printed(t, tail) && (tail != "" ==> !IsDigit(tail[0]))
    requires p1 == |t.y| && p2 == p1 + 1 + |t.m| && p3 == p2 + 1 + |t.d| && p4 == p3 + 1 + |t.h| && p5 == p4 + 1 + |t.min| && p6 == p5 + 1 + |t.sec|
    ensures At(s, 0, t.y) && At(s, p1, ['-'] + t.m) && At(s, p2, ['-'] + t.d) && At(s, p3, ['T'] + t.h) && At(s, p4, [':'] + t.min) && At(s, p5, [':'] + t.sec)
    ensures Stops(s, p6)
  {
    var ts := Pieces(t, tail);
    assert "-" == ['-'] && "T" == ['T'] && ":" == [':'];
    assert Offset(ts, 0) == 0;
    assert Offset(ts, 1) == p1;
    assert Offset(ts, 2) == p2;
    assert Offset(ts, 3) == p3;
    assert Offset(ts, 4) == p4;
    assert Offset(ts, 5) == p5;
    assert Offset(ts, 6) == p6;
    assert Offset(ts, 7) == p6 + |tail|;
    LengthIs(ts);
    hide Concat, Offset, At;
    PieceIsAt(ts, 0);
    PieceIsAt(ts, 1);
    PieceIsAt(ts, 2);
    PieceIsAt(ts, 3);
    PieceIsAt(ts, 4);
    PieceIsAt(ts, 5);
    PieceIsAt(ts, 6);
    TailStops(s, p6, tail);
  }

  lemma TailStops(s: string, p: nat, tail: string)
    requires At(s, p, tail) && (tail != "" ==> !IsDigit(tail[0])) && |s| == p + |tail|
    ensures Stops(s, p)
  {
    assert tail != "" ==> tail[0] == s[p + 0];
  }
}
