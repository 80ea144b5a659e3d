// What any configuration file says, line by line (src/conf.c).
module ConfLines {
  import opened Common
  import opened ConfFamilies
  import opened ConfFile
  import opened ConfKeys
  import opened ConfValues

  // ---- One line. ----

  // A space, or one of the tab, newline, vertical tab, form feed and return.
  predicate White(c: char) { c == ' ' || 9 <= c as int <= 13 }

  predicate Whites(s: string, i: nat, j: nat)
    requires j <= |s|
  {
    forall k :: i <= k < j ==> White(s[k])
  }

  // Spaces and tabs.
  predicate Gap(s: string, i: nat, j: nat)
    requires j <= |s|
  {
    forall k :: i <= k < j ==> s[k] == ' ' || s[k] == '\t'
  }

  // Line `s` assigns s[b..v] to s[a..k]: the '=' at e is its first, the key has no
  // blanks around it and opens no comment, spaces and tabs before the value and all
  // blanks after it are dropped.
  predicate At(s: string, a: nat, k: nat, e: nat, b: nat, v: nat) {
    && a <= k <= e < b <= v <= |s|
    && s[e] == '=' && (forall i :: 0 <= i < e ==> s[i] != '=')
    && Whites(s, 0, a) && Whites(s, k, e) && Whites(s, v, |s|)
    && Gap(s, e + 1, b)
    && (a < k ==> !White(s[a]) && s[a] != '#' && !White(s[k - 1]))
    && (b < v ==> s[b] != ' ' && s[b] != '\t' && !White(s[v - 1]))
  }

  ghost predicate Assigns(s: string, key: string, val: string) {
    exists a: nat, k: nat, e: nat, b: nat, v: nat :: At(s, a, k, e, b, v) && key == s[a..k] && val == s[b..v]
  }

  // A line assigns at most one value, to one key.
  lemma AssignsOnce(s: string, key: string, val: string, key': string, val': string)
    requires Assigns(s, key, val) && Assigns(s, key', val')
    ensures key == key' && val == val'
  {
    var a: nat, k: nat, e: nat, b: nat, v: nat :| At(s, a, k, e, b, v) && key == s[a..k] && val == s[b..v];
    var a': nat, k': nat, e': nat, b': nat, v': nat :| At(s, a', k', e', b', v') && key' == s[a'..k'] && val' == s[b'..v'];
    ReadOnce(s, a, k, e, b, v, a', k', e', b', v');
    hide At;
  }

  lemma ReadOnce(s: string, a: nat, k: nat, e: nat, b: nat, v: nat, a': nat, k': nat, e': nat, b': nat, v': nat)
    requires At(s, a, k, e, b, v) && At(s, a', k', e', b', v')
    ensures s[a..k] == s[a'..k'] && s[b..v] == s[b'..v']
  {
    assert e == e';
    SameKey(s, e, a, k, a', k');
    SameValue(s, e + 1, b, v, b', v');
    hide White, Whites, Gap;
  }

  // The key is what is left of the '=' without the blanks around it.
  lemma SameKey(s: string, e: nat, a: nat, k: nat, a': nat, k': nat)
    requires a <= k <= e <= |s| && Whites(s, 0, a) && Whites(s, k, e) && (a < k ==> !White(s[a]) && !White(s[k - 1]))
    requires a' <= k' <= e && Whites(s, 0, a') && Whites(s, k', e) && (a' < k' ==> !White(s[a']) && !White(s[k' - 1]))
    ensures s[a..k] == s[a'..k']
  {
    if a < k {
      assert !White(s[a]) && !White(s[k - 1]);
    }
    if a' < k' {
      assert !White(s[a']) && !White(s[k' - 1]);
    }
    hide White;
  }

  // The value is what follows the gap, without the blanks at its end.
  lemma SameValue(s: string, e: nat, b: nat, v: nat, b': nat, v': nat)
    requires e <= b <= v <= |s| && Gap(s, e, b) && Whites(s, v, |s|) && (b < v ==> s[b] != ' ' && s[b] != '\t' && !White(s[v - 1]))
    requires e <= b' <= v' <= |s| && Gap(s, e, b') && Whites(s, v', |s|) && (b' < v' ==> s[b'] != ' ' && s[b'] != '\t' && !White(s[v' - 1]))
    ensures s[b..v] == s[b'..v']
  {
    if b < v {
      assert !White(s[v - 1]) && s[b] != ' ' && s[b] != '\t';
    }
    if b' < v' {
      assert !White(s[v' - 1]) && s[b'] != ' ' && s[b'] != '\t';
    }
  }

  // ---- What a line gives. ----

  ghost predicate IsScoped(r: Registry, key: string, b: string, p: string) {
    IsBase(b) && p != [] && r.known(p) && key == b + "." + p
  }

  // The canonical text `w` of value `val` of a key.
  ghost predicate CanonicalPlain(r: Registry, key: string, val: string, w: string) {
    exists i: nat :: i < NKEYS && key == KeyName(i) && Normalize(r.known, KindOf(i), val) == Some(w)
  }

  ghost predicate CanonicalScoped(r: Registry, key: string, val: string, w: string) {
    |key| < SCOPED_KEY && exists b, p :: IsScoped(r, key, b, p) && NormalizeScoped(r, b, p, val) == Some(w)
  }

  // Line `s` gives a plain key, or a scoped one, the value `w`.
  ghost predicate GivesPlain(r: Registry, s: string, key: string, w: string) {
    exists val :: Assigns(s, key, val) && |val| < VAL && CanonicalPlain(r, key, val, w)
  }

  ghost predicate GivesScoped(r: Registry, s: string, key: string, w: string) {
    exists val :: Assigns(s, key, val) && |val| < VAL && CanonicalScoped(r, key, val, w)
  }

  ghost predicate Gives(r: Registry, s: string, key: string, w: string) {
    GivesPlain(r, s, key, w) || GivesScoped(r, s, key, w)
  }

  // What the last line that gives the key a value gives it; nothing when none does.
  ghost predicate IsLast(r: Registry, ls: seq<string>, key: string, w: string) {
    || (w == [] && forall n, x :: 0 <= n < |ls| ==> !Gives(r, ls[n], key, x))
    || (exists n :: 0 <= n < |ls| && Gives(r, ls[n], key, w) && forall m, x :: n < m < |ls| ==> !Gives(r, ls[m], key, x))
  }

  // The scoped names in the order the lines first give them a value, as many as the
  // pool has room for.
  ghost function Pool(r: Registry, ls: seq<string>): seq<string> {
    if ls == [] then []
    else
      var pool, s := Pool(r, ls[..|ls| - 1]), ls[|ls| - 1];
      if |pool| < NSCOPED && exists key, w :: GivesScoped(r, s, key, w) && key !in pool then
        var key, w :| GivesScoped(r, s, key, w) && key !in pool;
        pool + [key]
      else pool
  }

  // The number of lines that give a plain key, or a scoped one in the pool, a value.
  ghost function Counted(r: Registry, ls: seq<string>): nat {
    if ls == [] then 0
    else Counted(r, ls[..|ls| - 1]) + if Counts(r, ls[|ls| - 1], Pool(r, ls)) then 1 else 0
  }

  ghost predicate Counts(r: Registry, s: string, pool: seq<string>) {
    exists key, w :: GivesPlain(r, s, key, w) || (GivesScoped(r, s, key, w) && key in pool)
  }

  // ---- The lines of a text. ----

  function Lines(s: string): (ls: seq<string>)
    ensures ls != []
  {
    if s == [] then [[]]
    else
      var rest := Lines(s[1..]);
      if s[0] == '\n' then [[]] + rest else [[s[0]] + rest[0]] + rest[1..]
  }

  lemma {:induction false} FirstLine(s: string, n: nat)
    requires n <= |s| && (forall i :: 0 <= i < n ==> s[i] != '\n') && (n < |s| ==> s[n] == '\n')
    ensures Lines(s) == if n == |s| then [s] else [s[..n]] + Lines(s[n + 1..])
  {
    if n > 0 {
      FirstLine(s[1..], n - 1);
      assert [s[0]] + s[1..][..n - 1] == s[..n];
      if n < |s| {
        assert s[1..][n..] == s[n + 1..];
      } else {
        assert s[..n] == s;
      }
    }
  }

  // ---- The scan reads a line as the line reads. ----

  // What a line does to what is loaded.
  ghost function Take(r: Registry, l: Loaded, s: string): Loaded {
    if exists key, val :: Assigns(s, key, val) then
      var key, val :| Assigns(s, key, val);
      Accept(r, l, key, val)
    else l
  }

  lemma TakeIs(r: Registry, l: Loaded, s: string, key: string, val: string)
    requires Assigns(s, key, val)
    ensures Take(r, l, s) == Accept(r, l, key, val)
  {
    var key', val' :| Assigns(s, key', val') && Take(r, l, s) == Accept(r, l, key', val');
    AssignsOnce(s, key, val, key', val');
    hide Assigns, Accept;
  }

  lemma {:induction false} DropSpaceAt(s: string) returns (d: nat)
    ensures d <= |s| && DropSpace(s) == s[d..] && Whites(s, 0, d) && (d < |s| ==> !White(s[d]))
  {
    if s == [] || !IsSpace(s[0]) {
      assert s[0..] == s;
      return 0;
    }
    d := DropSpaceAt(s[1..]);
    assert s[1..][d..] == s[d + 1..];
    assert forall i :: 0 <= i < d ==> White(s[1..][i]);
    forall i | 0 <= i < d + 1 ensures White(s[i]) {
      assert i == 0 || s[i] == s[1..][i - 1];
    }
    d := d + 1;
  }

  lemma {:induction false} DropBlanksAt(s: string) returns (d: nat)
    ensures d <= |s| && DropBlanks(s) == s[d..] && Gap(s, 0, d)
    ensures d < |s| ==> s[d] != ' ' && s[d] != '\t'
  {
    if s == [] || !Blank(s[0]) {
      assert s[0..] == s;
      return 0;
    }
    d := DropBlanksAt(s[1..]);
    assert s[1..][d..] == s[d + 1..];
    forall i | 0 <= i < d + 1 ensures s[i] == ' ' || s[i] == '\t' {
      assert i == 0 || s[i] == s[1..][i - 1];
    }
    d := d + 1;
  }

  lemma {:induction false} TrimEndAt(s: string)
    ensures var t := |TrimEnd(s)|; TrimEnd(s) == s[..t] && Whites(s, t, |s|) && (t > 0 ==> !White(s[t - 1]))
  {
    if s != [] && IsSpace(s[|s| - 1]) {
      TrimEndAt(s[..|s| - 1]);
      var t := |TrimEnd(s)|;
      assert s[..|s| - 1][..t] == s[..t];
      forall i | t <= i < |s| ensures White(s[i]) {
        assert i == |s| - 1 || s[i] == s[..|s| - 1][i];
      }
    }
  }

  lemma {:induction false} WhitesAreSkipped(s: string, m: nat)
    requires m <= |s| && Whites(s, 0, m)
    ensures DropSpace(s[m..]) == DropSpace(s)
  {
    if m > 0 {
      assert White(s[0]) && forall i :: 0 <= i < m - 1 ==> s[1..][i] == s[i + 1];
      WhitesAreSkipped(s[1..], m - 1);
      assert s[1..][m - 1..] == s[m..];
    } else {
      assert s[0..] == s;
    }
  }

  // The text after a line, without its break.
  function After(s: string, n: nat): string
    requires n <= |s|
  {
    if n < |s| then s[n + 1..] else []
  }

  predicate IsLine(s: string, n: nat) {
    n <= |s| && (forall i :: 0 <= i < n ==> s[i] != '\n') && (n < |s| ==> s[n] == '\n')
  }

  lemma FromTheBreak(r: Registry, l: Loaded, s: string, n: nat)
    requires IsLine(s, n)
    ensures Scan(r, l, s[n..]) == Scan(r, l, After(s, n))
  {
    if n < |s| {
      assert s[n..] == "\n" + s[n + 1..];
      NewlineIsSkipped(r, l, s[n + 1..]);
      hide Scan;
    }
  }

  lemma BlankLine(r: Registry, l: Loaded, s: string, n: nat)
    requires IsLine(s, n) && Whites(s, 0, n)
    ensures Scan(r, l, s) == Scan(r, l, After(s, n)) && Take(r, l, s[..n]) == l
  {
    hide Scan, Accept;
    if n < |s| {
      WhitesAreSkipped(s, n + 1);
    } else {
      WhitesAreSkipped(s, n);
      assert s[n..] == [];
    }
    OnlyWhatFollowsCounts(r, l, s, After(s, n));
    hide DropSpace, After;
    assert forall i :: 0 <= i < n ==> s[..n][i] == s[i];
    assert forall a: nat, k: nat, e: nat, b: nat, v: nat :: At(s[..n], a, k, e, b, v) ==> White(s[e]);
  }

  lemma CommentLine(r: Registry, l: Loaded, s: string, n: nat, d: nat)
    requires IsLine(s, n) && d < n && DropSpace(s) == s[d..] && Whites(s, 0, d) && s[d] == '#'
    ensures Scan(r, l, s) == Scan(r, l, After(s, n)) && Take(r, l, s[..n]) == l
  {
    hide DropSpace, Accept, After;
    var a := s[d..];
    assert forall i :: 0 <= i < |a| ==> a[i] == s[d + i];
    assert LineLen(a) == n - d;
    assert a[n - d..] == s[n..];
    FromTheBreak(r, l, s, n);
    NoComment(s[..n], d);
  }

  // A line whose first mark is '#' assigns nothing.
  lemma NoComment(s: string, d: nat)
    requires d < |s| && Whites(s, 0, d) && s[d] == '#'
    ensures forall key, val :: !Assigns(s, key, val)
  {
    forall a: nat, k: nat, e: nat, b: nat, v: nat | true
      ensures !At(s, a, k, e, b, v)
    {
      assert !White(s[d]);
    }
  }

  lemma NoAssignment(r: Registry, l: Loaded, s: string, n: nat, d: nat)
    requires IsLine(s, n) && d < n && DropSpace(s) == s[d..] && Whites(s, 0, d) && s[d] != '#'
    requires forall i :: 0 <= i < n ==> s[i] != '='
    ensures Scan(r, l, s) == Scan(r, l, After(s, n)) && Take(r, l, s[..n]) == l
  {
    hide DropSpace, Accept, After;
    var a := s[d..];
    assert forall i :: 0 <= i < |a| ==> a[i] == s[d + i];
    assert KeyLen(a) == n - d;
    assert a[n - d..] == s[n..];
    FromTheBreak(r, l, s, n);
    assert forall a: nat, k: nat, e: nat, b: nat, v: nat :: At(s[..n], a, k, e, b, v) ==> s[..n][e] == s[e];
  }

  // The key ends before its '=' at e, the value runs to the end of the line at n.
  lemma AssignedLine(r: Registry, l: Loaded, s: string, n: nat, d: nat, e: nat)
    requires IsLine(s, n) && d <= e < n <= |s| && DropSpace(s) == s[d..] && Whites(s, 0, d) && s[d] != '#' && !White(s[d])
    requires s[e] == '=' && forall i :: 0 <= i < e ==> s[i] != '='
    ensures Scan(r, l, s) == Scan(r, Take(r, l, s[..n]), After(s, n))
  {
    hide DropSpace, DropBlanks, KeyLen, LineLen, TrimEnd, Accept, After, Take, Scan, IsLine, At, Whites, Assigns, White;
    var k, b, v := Ends(s, n, d, e);
    Pieces(s, n, d, k, e, b, v);
    KeyPart(s, n, d, e);
    ScanStep(r, l, s, s[d..], e - d, s[b..], n - b);
    TakeIs(r, l, s[..n], s[d..k], s[b..v]);
    FromTheBreak(r, Accept(r, l, s[d..k], s[b..v]), s, n);
  }

  lemma Pieces(s: string, n: nat, a: nat, k: nat, e: nat, b: nat, v: nat)
    requires n <= |s| && At(s[..n], a, k, e, b, v)
    ensures Assigns(s[..n], s[a..k], s[b..v])
  {
    assert s[..n][a..k] == s[a..k] && s[..n][b..v] == s[b..v];
  }

  // Where the key and the value of a line end.
  lemma Ends(s: string, n: nat, d: nat, e: nat) returns (k: nat, b: nat, v: nat)
    requires IsLine(s, n) && d <= e < n && Whites(s, 0, d) && s[d] != '#' && !White(s[d])
    requires s[e] == '=' && forall i :: 0 <= i < e ==> s[i] != '='
    ensures d <= k <= e < b <= v <= n && At(s[..n], d, k, e, b, v)
    ensures TrimEnd(s[d..e]) == s[d..k] && TrimEnd(s[b..n]) == s[b..v]
    ensures DropBlanks(s[e + 1..]) == s[b..] && LineLen(s[b..]) == n - b && s[b..][..n - b] == s[b..n] && s[b..][n - b..] == s[n..]
  {
    b := ValueStart(s, n, e);
    k := Trimmed(s, d, e);
    v := Trimmed(s, b, n);
    hide DropBlanks, LineLen, TrimEnd, IsLine;
    Reads(s, n, d, k, e, b, v);
  }

  lemma Trimmed(s: string, i: nat, j: nat) returns (k: nat)
    requires i <= j <= |s|
    ensures i <= k <= j && TrimEnd(s[i..j]) == s[i..k] && Whites(s, k, j) && (i < k ==> !White(s[k - 1]))
  {
    TrimEndAt(s[i..j]);
    k := i + |TrimEnd(s[i..j])|;
    InPart(s, i, j, k);
  }

  // A piece of s[i..j] that is all of it but trailing blanks, in the text itself.
  lemma InPart(s: string, i: nat, j: nat, k: nat)
    requires i <= k <= j <= |s| && Whites(s[i..j], k - i, j - i) && (i < k ==> !White(s[i..j][k - i - 1]))
    ensures Whites(s, k, j) && (i < k ==> !White(s[k - 1])) && s[i..j][..k - i] == s[i..k]
  {
    forall m | k <= m < j ensures White(s[m]) {
      assert s[m] == s[i..j][m - i];
    }
  }

  lemma KeyPart(s: string, n: nat, d: nat, e: nat)
    requires IsLine(s, n) && d <= e < n && s[e] == '=' && forall i :: 0 <= i < e ==> s[i] != '='
    ensures KeyLen(s[d..]) == e - d && s[d..][e - d] == '=' && s[d..][..e - d] == s[d..e] && s[d..][e - d + 1..] == s[e + 1..]
  {
    assert forall i :: 0 <= i < |s| - d ==> s[d..][i] == s[d + i];
  }

  // Where the value of a line starts.
  lemma ValueStart(s: string, n: nat, e: nat) returns (b: nat)
    requires IsLine(s, n) && e < n
    ensures e < b <= n && Gap(s, e + 1, b) && (b < n ==> s[b] != ' ' && s[b] != '\t')
    ensures DropBlanks(s[e + 1..]) == s[b..] && LineLen(s[b..]) == n - b && s[b..][..n - b] == s[b..n] && s[b..][n - b..] == s[n..]
  {
    var g := DropBlanksAt(s[e + 1..]);
    ValueIsInLine(s, n, e, g);
    b := e + 1 + g;
    assert s[e + 1..][g..] == s[b..];
    assert b < |s| ==> s[e + 1..][g] == s[b];
  }

  lemma ValueIsInLine(s: string, n: nat, e: nat, g: nat)
    requires IsLine(s, n) && e < n && e + 1 + g <= |s|
    requires Gap(s[e + 1..], 0, g)
    ensures e + 1 + g <= n && Gap(s, e + 1, e + 1 + g) && LineLen(s[e + 1 + g..]) == n - (e + 1 + g)
  {
    var t := s[e + 1..];
    assert forall i :: 0 <= i < |t| ==> t[i] == s[e + 1 + i];
    forall i | e + 1 <= i < e + 1 + g ensures s[i] == ' ' || s[i] == '\t' {
      assert s[i] == t[i - (e + 1)];
    }
  }

  lemma Reads(s: string, n: nat, a: nat, k: nat, e: nat, b: nat, v: nat)
    requires n <= |s| && a <= k <= e < b <= v <= n && s[e] == '=' && forall i :: 0 <= i < e ==> s[i] != '='
    requires Whites(s, 0, a) && Whites(s, k, e) && Whites(s, v, n)
    requires Gap(s, e + 1, b)
    requires a < k ==> !White(s[a]) && s[a] != '#' && !White(s[k - 1])
    requires b < v ==> s[b] != ' ' && s[b] != '\t' && !White(s[v - 1])
    ensures At(s[..n], a, k, e, b, v)
  {
  }

  // ---- The scan of a text is the reading of its lines. ----

  ghost function Taken(r: Registry, l: Loaded, ls: seq<string>): Loaded {
    if ls == [] then l else Take(r, Taken(r, l, ls[..|ls| - 1]), ls[|ls| - 1])
  }

  lemma {:induction false} TakenFrom(r: Registry, l: Loaded, s: string, ls: seq<string>)
    ensures Taken(r, l, [s] + ls) == Taken(r, Take(r, l, s), ls)
    decreases |ls|
  {
    hide Take;
    var all := [s] + ls;
    if ls == [] {
      assert all[..0] == [] && all[0] == s;
    } else {
      TakenFrom(r, l, s, ls[..|ls| - 1]);
      assert all[..|all| - 1] == [s] + ls[..|ls| - 1];
    }
  }

  lemma OneLine(r: Registry, l: Loaded, s: string, n: nat)
    requires IsLine(s, n)
    ensures Scan(r, l, s) == Scan(r, Take(r, l, s[..n]), After(s, n))
  {
    hide Scan, Take, After, DropSpace;
    var d := DropSpaceAt(s);
    if d >= n {
      BlankLine(r, l, s, n);
    } else if s[d] == '#' {
      CommentLine(r, l, s, n, d);
    } else if exists e :: 0 <= e < n && s[e] == '=' {
      var e := FirstSign(s, n);
      assert d <= e;
      AssignedLine(r, l, s, n, d, e);
    } else {
      NoAssignment(r, l, s, n, d);
    }
  }

  lemma {:induction false} FirstSign(s: string, n: nat) returns (e: nat)
    requires n <= |s| && exists e :: 0 <= e < n && s[e] == '='
    ensures e < n && s[e] == '=' && forall i :: 0 <= i < e ==> s[i] != '='
  {
    var m: nat :| m < n && s[m] == '=';
    if exists e :: 0 <= e < m && s[e] == '=' {
      e := FirstSign(s, m);
    } else {
      e := m;
    }
  }

  lemma {:induction false} ScanIsTaken(r: Registry, l: Loaded, s: string)
    ensures Scan(r, l, s) == Taken(r, l, Lines(s))
    decreases |s|
  {
    var n := LineLen(s);
    OneLine(r, l, s, n);
    FirstLine(s, n);
    hide Scan, Take, Lines;
    var next := Take(r, l, s[..n]);
    if n < |s| {
      ScanIsTaken(r, next, s[n + 1..]);
      TakenFrom(r, l, s[..n], Lines(s[n + 1..]));
    } else {
      TakenFrom(r, l, s, []);
      assert [s] + [] == [s] && s[..n] == s;
      NothingLeft(r, next);
    }
  }

  lemma NothingLeft(r: Registry, l: Loaded)
    ensures Scan(r, l, []) == l
  {
  }

  // ---- One accepted line. ----

  lemma PlainIff(r: Registry, key: string, val: string, w: string)
    ensures CanonicalPlain(r, key, val, w) <==>
      FindKey(key).Some? && Normalize(r.known, KindOf(FindKey(key).value), val) == Some(w)
    ensures CanonicalPlain(r, key, val, w) ==> key != [] && |key| < LINE
  {
    hide KeyName, Normalize, KindOf;
    if CanonicalPlain(r, key, val, w) {
      var i: nat :| i < NKEYS && key == KeyName(i) && Normalize(r.known, KindOf(i), val) == Some(w);
      KeyIsFound(0, i);
      PlainNamesAreClean(i);
    }
  }

  // A scoped name is split at its dot, which no base holds.
  lemma SplitIff(r: Registry, key: string, b: string, p: string)
    ensures IsScoped(r, key, b, p) && |key| < SCOPED_KEY ==> ScopedSplit(r, key) == Some((b, p)) && FindKey(key).None? && Cut(p) == p
    ensures ScopedSplit(r, key) == Some((b, p)) ==> IsScoped(r, key, b, p) && FindKey(key).None? && key != []
  {
    hide IsBase, KeyName;
    if key == b + "." + p && IsBase(b) {
      BaseIsANamedKey(b);
      DottedIsNoKey(b, p);
      assert key[|b|] == '.' && key[..|b|] == b && key[|b| + 1..] == p;
      assert forall j :: 0 <= j < |b| ==> key[j] == b[j];
      assert DotAt(key, 0) == |b|;
    }
  }

  lemma ScopedIff(r: Registry, key: string, val: string, w: string)
    ensures CanonicalScoped(r, key, val, w) <==>
      |key| < SCOPED_KEY && ScopedSplit(r, key).Some?
      && NormalizeScoped(r, ScopedSplit(r, key).value.0, Cut(ScopedSplit(r, key).value.1), val) == Some(w)
    ensures CanonicalScoped(r, key, val, w) ==> key != [] && FindKey(key).None?
  {
    hide ScopedSplit, NormalizeScoped, IsScoped, FindKey, Cut;
    if CanonicalScoped(r, key, val, w) {
      var b, p :| IsScoped(r, key, b, p) && NormalizeScoped(r, b, p, val) == Some(w);
      SplitIff(r, key, b, p);
    }
    if |key| < SCOPED_KEY && ScopedSplit(r, key).Some? {
      var (b, p) := ScopedSplit(r, key).value;
      SplitIff(r, key, b, p);
    }
  }

  ghost predicate Canonical(r: Registry, key: string, val: string, w: string) {
    CanonicalPlain(r, key, val, w) || CanonicalScoped(r, key, val, w)
  }

  lemma CanonicalOnce(r: Registry, key: string, val: string, w: string, x: string)
    requires Canonical(r, key, val, w) && Canonical(r, key, val, x)
    ensures w == x && CanonicalPlain(r, key, val, w) == CanonicalPlain(r, key, val, x)
    ensures CanonicalPlain(r, key, val, w) != CanonicalScoped(r, key, val, x)
  {
    PlainIff(r, key, val, w);
    PlainIff(r, key, val, x);
    ScopedIff(r, key, val, w);
    ScopedIff(r, key, val, x);
    hide CanonicalPlain, CanonicalScoped, FindKey, ScopedSplit, Normalize, NormalizeScoped, KindOf, Cut;
  }

  // The value a line assigns, when it gives one.
  lemma GivesBy(r: Registry, s: string, key: string, w: string, val: string)
    requires Assigns(s, key, val)
    ensures GivesPlain(r, s, key, w) <==> |val| < VAL && CanonicalPlain(r, key, val, w)
    ensures GivesScoped(r, s, key, w) <==> |val| < VAL && CanonicalScoped(r, key, val, w)
  {
    forall v | Assigns(s, key, v) ensures v == val {
      AssignsOnce(s, key, val, key, v);
    }
    hide Assigns, CanonicalPlain, CanonicalScoped;
  }

  // A line gives one value to one key, plain or scoped.
  lemma GivesOnce(r: Registry, s: string, key: string, w: string, key': string, x: string)
    requires Gives(r, s, key, w) && Gives(r, s, key', x)
    ensures key == key' && w == x && GivesPlain(r, s, key, w) != GivesScoped(r, s, key', x)
  {
    hide Assigns, CanonicalPlain, CanonicalScoped;
    var val :| Assigns(s, key, val);
    var val' :| Assigns(s, key', val');
    AssignsOnce(s, key, val, key', val');
    hide GivesPlain, GivesScoped;
    GivesBy(r, s, key, w, val);
    GivesBy(r, s, key, x, val);
    CanonicalOnce(r, key, val, w, x);
  }

  function WithPlain(l: Loaded, i: nat, w: string): Loaded {
    if i < NKEYS then Loaded(l.store.(plain := l.store.plain[i := w]), l.count + 1) else l
  }

  ghost predicate IsKey(key: string, i: nat) { FindKey(key) == Some(i) }

  // What a line does, by what it gives.
  lemma PlainLine(r: Registry, l: Loaded, s: string, key: string, w: string) returns (i: nat)
    requires GivesPlain(r, s, key, w)
    ensures IsKey(key, i) && Take(r, l, s) == WithPlain(l, i, w)
  {
    hide Take, Assigns, KeyName, CanonicalPlain, Accept, IsKey, WithPlain;
    var val :| Assigns(s, key, val) && |val| < VAL && CanonicalPlain(r, key, val, w);
    hide GivesPlain;
    TakeIs(r, l, s, key, val);
    i := AcceptPlain(r, l, key, val, w);
  }

  lemma AcceptPlain(r: Registry, l: Loaded, key: string, val: string, w: string) returns (i: nat)
    requires |val| < VAL && CanonicalPlain(r, key, val, w)
    ensures IsKey(key, i) && Accept(r, l, key, val) == WithPlain(l, i, w)
  {
    PlainIff(r, key, val, w);
    i := FindKey(key).value;
    hide FindKey, KindOf, Normalize, CanonicalPlain;
  }

  lemma ScopedLine(r: Registry, l: Loaded, s: string, key: string, w: string)
    requires GivesScoped(r, s, key, w)
    ensures Take(r, l, s) == match PutScoped(l.store, key, w) case None => l case Some(t) => Loaded(t, l.count + 1)
  {
    hide Take, Assigns, CanonicalScoped, Accept, PutScoped;
    var val :| Assigns(s, key, val) && |val| < VAL && CanonicalScoped(r, key, val, w);
    hide GivesScoped;
    TakeIs(r, l, s, key, val);
    AcceptScoped(r, l, key, val, w);
  }

  lemma AcceptScoped(r: Registry, l: Loaded, key: string, val: string, w: string)
    requires |val| < VAL && CanonicalScoped(r, key, val, w)
    ensures Accept(r, l, key, val) == match PutScoped(l.store, key, w) case None => l case Some(t) => Loaded(t, l.count + 1)
  {
    ScopedIff(r, key, val, w);
    hide FindKey, ScopedSplit, NormalizeScoped, CanonicalScoped, Cut, PutScoped;
  }

  lemma OtherLine(r: Registry, l: Loaded, s: string)
    requires forall k, w :: !Gives(r, s, k, w)
    ensures Take(r, l, s) == l
  {
    hide Assigns, Canonical, Accept;
    if exists key, val :: Assigns(s, key, val) {
      var key, val :| Assigns(s, key, val);
      TakeIs(r, l, s, key, val);
      hide Take;
      forall w | |val| < VAL ensures !Canonical(r, key, val, w) {
        NotGiven(r, s, key, val, w);
      }
      AcceptNothing(r, l, key, val);
    }
  }

  lemma NotGiven(r: Registry, s: string, key: string, val: string, w: string)
    requires Assigns(s, key, val) && |val| < VAL && !Gives(r, s, key, w)
    ensures !Canonical(r, key, val, w)
  {
    GivesBy(r, s, key, w, val);
    hide Assigns, CanonicalPlain, CanonicalScoped, GivesPlain, GivesScoped;
  }

  lemma AcceptNothing(r: Registry, l: Loaded, key: string, val: string)
    requires |val| < VAL ==> forall w :: !Canonical(r, key, val, w)
    ensures Accept(r, l, key, val) == l
  {
    if |val| < VAL {
      if FindKey(key).Some? {
        NoPlain(r, l, key, val);
      } else if ScopedSplit(r, key).Some? {
        NoScoped(r, l, key, val);
      }
    }
    hide FindKey, ScopedSplit, NormalizeScoped, Normalize, Cut, PutScoped, Canonical;
  }

  lemma NoPlain(r: Registry, l: Loaded, key: string, val: string)
    requires |val| < VAL && FindKey(key).Some? && forall w :: !Canonical(r, key, val, w)
    ensures Accept(r, l, key, val) == l
  {
    hide FindKey, ScopedSplit, NormalizeScoped, Normalize, KindOf, Cut, PutScoped, CanonicalPlain, CanonicalScoped;
    match Normalize(r.known, KindOf(FindKey(key).value), val) {
      case None =>
      case Some(w) =>
        assert !Canonical(r, key, val, w);
        PlainIff(r, key, val, w);
    }
  }

  lemma NoScoped(r: Registry, l: Loaded, key: string, val: string)
    requires |val| < VAL && FindKey(key).None? && ScopedSplit(r, key).Some? && forall w :: !Canonical(r, key, val, w)
    ensures Accept(r, l, key, val) == l
  {
    hide FindKey, ScopedSplit, NormalizeScoped, Normalize, Cut, CanonicalPlain, CanonicalScoped;
    var p := ScopedSplit(r, key).value;
    match NormalizeScoped(r, p.0, Cut(p.1), val) {
      case None =>
      case Some(w) =>
        assert !Canonical(r, key, val, w);
        ScopedIff(r, key, val, w);
    }
  }

  // ---- Every text. ----

  // What is loaded is what the lines say: each plain key, and each scoped name the pool
  // has, holds the value of the last line that gives it one, and each accepted line
  // counts once.
  ghost predicate Means(r: Registry, ls: seq<string>, l: Loaded) {
    && (forall i: nat :: i < NKEYS ==> IsLast(r, ls, KeyName(i), l.store.plain[i]))
    && ScopedMeans(r, ls, Pool(r, ls), l.store.scoped)
    && l.count == Counted(r, ls)
  }

  ghost predicate ScopedMeans(r: Registry, ls: seq<string>, pool: seq<string>, scoped: seq<Slot>) {
    && |scoped| == |pool| <= NSCOPED
    && (forall k :: 0 <= k < |scoped| ==> scoped[k].name == pool[k] && IsLast(r, ls, pool[k], scoped[k].value))
    && (forall j, k :: 0 <= j < k < |pool| ==> pool[j] != pool[k])
    && (forall k :: 0 <= k < |pool| ==> FindKey(pool[k]).None?)
  }

  lemma LastKeeps(r: Registry, ls: seq<string>, s: string, key: string, w: string)
    requires IsLast(r, ls, key, w) && forall x :: !Gives(r, s, key, x)
    ensures IsLast(r, ls + [s], key, w)
  {
    hide Gives;
    var more := ls + [s];
    assert forall n :: 0 <= n < |ls| ==> more[n] == ls[n];
    assert more[|ls|] == s;
  }

  lemma LastSets(r: Registry, ls: seq<string>, s: string, key: string, w: string)
    requires Gives(r, s, key, w)
    ensures IsLast(r, ls + [s], key, w)
  {
    hide Gives;
    assert (ls + [s])[|ls|] == s;
  }

  lemma PoolStep(r: Registry, ls: seq<string>, s: string)
    ensures (forall k, w :: !GivesScoped(r, s, k, w)) ==> Pool(r, ls + [s]) == Pool(r, ls)
    ensures forall k, w :: GivesScoped(r, s, k, w) ==>
      Pool(r, ls + [s]) == if |Pool(r, ls)| < NSCOPED && k !in Pool(r, ls) then Pool(r, ls) + [k] else Pool(r, ls)
  {
    hide GivesScoped, GivesPlain;
    assert (ls + [s])[..|ls|] == ls;
    forall k, w, k', w' | GivesScoped(r, s, k, w) && GivesScoped(r, s, k', w') ensures k == k' {
      GivesOnce(r, s, k, w, k', w');
    }
  }

  lemma CountStep(r: Registry, ls: seq<string>, s: string)
    ensures Counted(r, ls + [s]) == Counted(r, ls) + if Counts(r, s, Pool(r, ls + [s])) then 1 else 0
  {
    hide Pool, Counts;
    assert (ls + [s])[..|ls|] == ls;
  }

  lemma ScopedCounts(r: Registry, s: string, key: string, w: string, pool: seq<string>)
    requires GivesScoped(r, s, key, w)
    ensures Counts(r, s, pool) <==> key in pool
  {
    hide GivesScoped, GivesPlain;
    forall k, x | GivesPlain(r, s, k, x) || GivesScoped(r, s, k, x) ensures k == key && !GivesPlain(r, s, k, x) {
      GivesOnce(r, s, key, w, k, x);
    }
  }

  lemma SilentStep(r: Registry, ls: seq<string>, s: string, l: Loaded)
    requires Means(r, ls, l) && forall k, w :: !Gives(r, s, k, w)
    ensures Means(r, ls + [s], l)
  {
    PoolStep(r, ls, s);
    CountStep(r, ls, s);
    hide Pool, Counted, GivesPlain, GivesScoped, KeyName, IsLast, FindKey;
    forall k, w ensures !GivesPlain(r, s, k, w) && !GivesScoped(r, s, k, w) {
      assert !Gives(r, s, k, w);
    }
    forall key, w | IsLast(r, ls, key, w) ensures IsLast(r, ls + [s], key, w) {
      LastKeeps(r, ls, s, key, w);
    }
  }

  lemma OthersKeep(r: Registry, ls: seq<string>, s: string, key: string, w: string)
    requires Gives(r, s, key, w)
    ensures forall k, v :: k != key && IsLast(r, ls, k, v) ==> IsLast(r, ls + [s], k, v)
  {
    hide Gives, IsLast;
    forall k, v | k != key && IsLast(r, ls, k, v) ensures IsLast(r, ls + [s], k, v) {
      forall x ensures !Gives(r, s, k, x) {
        if Gives(r, s, k, x) {
          GivesOnce(r, s, key, w, k, x);
        }
      }
      LastKeeps(r, ls, s, k, v);
    }
  }

  lemma PlainStep(r: Registry, ls: seq<string>, s: string, l: Loaded, key: string, i: nat, w: string)
    requires Means(r, ls, l) && GivesPlain(r, s, key, w) && IsKey(key, i)
    ensures Means(r, ls + [s], WithPlain(l, i, w))
  {
    hide Pool, Counted, GivesPlain, GivesScoped, KeyName, IsLast, KeyFrom, FindKey;
    forall k, x ensures !GivesScoped(r, s, k, x) {
      if GivesScoped(r, s, k, x) {
        GivesOnce(r, s, key, w, k, x);
      }
    }
    PoolStep(r, ls, s);
    CountStep(r, ls, s);
    OthersKeep(r, ls, s, key, w);
    LastSets(r, ls, s, key, w);
    forall j: nat | j < NKEYS && j != i ensures KeyName(j) != key {
      if KeyName(j) == key {
        NamesAreDistinct(i, j);
      }
    }
  }

  // A scoped value in the slot of its name, in a new slot, or nowhere.
  lemma SlotStep(r: Registry, ls: seq<string>, more: seq<string>, pool: seq<string>, store: Store, key: string, w: string)
    requires ScopedMeans(r, ls, pool, store.scoped) && FindKey(key).None? && |key| < SCOPED_KEY
    requires IsLast(r, more, key, w) && forall k, v :: k != key && IsLast(r, ls, k, v) ==> IsLast(r, more, k, v)
    ensures match PutScoped(store, key, w)
      case None => key !in pool && |pool| >= NSCOPED && ScopedMeans(r, more, pool, store.scoped)
      case Some(t) =>
        && t.plain == store.plain
        && if key in pool then ScopedMeans(r, more, pool, t.scoped) else |pool| < NSCOPED && ScopedMeans(r, more, pool + [key], t.scoped)
  {
    hide IsLast, FindKey;
    var k := SlotAt(store.scoped, key, 0);
    if k < |store.scoped| {
      assert pool[k] == key;
    } else {
      assert forall j :: 0 <= j < |pool| ==> pool[j] == store.scoped[j].name != key;
    }
  }

  lemma ScopedStep(r: Registry, ls: seq<string>, s: string, l: Loaded, key: string, w: string)
    requires Means(r, ls, l) && GivesScoped(r, s, key, w)
    ensures Means(r, ls + [s], match PutScoped(l.store, key, w) case None => l case Some(t) => Loaded(t, l.count + 1))
  {
    hide Pool, Counted, GivesPlain, GivesScoped, KeyName, IsLast, FindKey, ScopedMeans, PutScoped, Counts;
    ScopedName(r, s, key, w);
    OthersKeep(r, ls, s, key, w);
    LastSets(r, ls, s, key, w);
    SlotStep(r, ls, ls + [s], Pool(r, ls), l.store, key, w);
    PoolStep(r, ls, s);
    CountStep(r, ls, s);
    ScopedCounts(r, s, key, w, Pool(r, ls + [s]));
    NoPlainName(key);
  }

  lemma NoPlainName(key: string)
    requires FindKey(key).None?
    ensures forall i: nat :: i < NKEYS ==> KeyName(i) != key
  {
    hide KeyName;
    forall i: nat | i < NKEYS ensures KeyName(i) != key {
      KeyIsFound(0, i);
    }
  }

  lemma ScopedName(r: Registry, s: string, key: string, w: string)
    requires GivesScoped(r, s, key, w)
    ensures FindKey(key).None? && |key| < SCOPED_KEY
  {
    hide Assigns;
    var val :| Assigns(s, key, val) && |val| < VAL && CanonicalScoped(r, key, val, w);
    ScopedIff(r, key, val, w);
    hide FindKey, CanonicalPlain;
  }

  lemma NothingMeans(r: Registry)
    ensures Means(r, [], Loaded(EMPTY(), 0))
  {
    hide KeyName, FindKey;
  }

  lemma {:induction false} TakenMeans(r: Registry, ls: seq<string>)
    ensures Means(r, ls, Taken(r, Loaded(EMPTY(), 0), ls))
    decreases |ls|
  {
    var start := Loaded(EMPTY(), 0);
    if ls == [] {
      NothingMeans(r);
    } else {
      var init, s := ls[..|ls| - 1], ls[|ls| - 1];
      TakenMeans(r, init);
      assert init + [s] == ls;
      var l := Taken(r, start, init);
      hide Means, Take, GivesPlain, GivesScoped, EMPTY, IsKey, PutScoped, WithPlain;
      if k, w :| GivesScoped(r, s, k, w) {
        ScopedLine(r, l, s, k, w);
        ScopedStep(r, init, s, l, k, w);
      } else if k, w :| GivesPlain(r, s, k, w) {
        var i := PlainLine(r, l, s, k, w);
        PlainStep(r, init, s, l, k, i, w);
      } else {
        OtherLine(r, l, s);
        SilentStep(r, init, s, l);
      }
    }
  }

  // For every text: the scan of it loads what its lines mean.
  lemma ScanReadsLines(r: Registry, s: string)
    ensures Means(r, Lines(s), Scan(r, Loaded(EMPTY(), 0), s))
  {
    ScanIsTaken(r, Loaded(EMPTY(), 0), s);
    TakenMeans(r, Lines(s));
    hide Means, Scan, Taken;
  }

  // A file is read by the lines of as much of it as the reader's buffer holds.
  lemma FileIsItsLines(r: Registry, text: string)
    ensures Means(r, Lines(if |text| <= FILE_MAX then text else text[..FILE_MAX]), Reload(r, text))
  {
    ScanReadsLines(r, if |text| <= FILE_MAX then text else text[..FILE_MAX]);
    hide Means, Scan, Lines;
  }

  // A scoped name that a line gives a value is in the pool unless the pool is full.
  lemma {:induction false} PoolMeans(r: Registry, ls: seq<string>, n: nat, key: string, w: string)
    requires n < |ls| && GivesScoped(r, ls[n], key, w)
    ensures key in Pool(r, ls) || |Pool(r, ls)| >= NSCOPED
    decreases |ls|
  {
    var init, s := ls[..|ls| - 1], ls[|ls| - 1];
    hide GivesScoped, GivesPlain;
    if n == |ls| - 1 {
      assert init + [s] == ls;
      PoolStep(r, init, s);
    } else {
      PoolMeans(r, init, n, key, w);
    }
  }
}
