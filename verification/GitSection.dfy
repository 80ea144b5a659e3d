// The git section of the <env> block (src/context.c): the scan of the git command's
// marker-delimited output, and what of it reaches the prompt. Scans go by position, as
// the program's pointers do, so that each loop is one unfolding of its function; the
// printed form is laid out block by block.
module GitSection {
  import opened Common

  const BRANCH := "NM_BRANCH_MARKER"
  const STATUS := "NM_STATUS_MARKER"
  const COMMITS := "NM_COMMITS_MARKER"
  const STATUS_LINES: nat := 20
  const LINE_CAP: nat := 512

  // The first line break from i on; |s| when there is none.
  function LineEnd(s: string, i: nat): (n: nat)
    requires i <= |s|
    ensures i <= n <= |s| && (n < |s| ==> s[n] == '\n')
    ensures forall k :: i <= k < n ==> s[k] != '\n'
    decreases |s| - i
  {
    if i < |s| && s[i] != '\n' then LineEnd(s, i + 1) else i
  }

  // strncmp at i.
  predicate Starts(s: string, i: nat, marker: string) {
    i + |marker| <= |s| && forall j :: 0 <= j < |marker| ==> marker[j] == s[i + j]
  }

  // Where the text after the first marker line from i on begins; i starts a line.
  function AfterMarker(s: string, i: nat, marker: string): (at: Option<nat>)
    requires i <= |s|
    ensures at.Some? ==> i < at.value <= |s|
    decreases |s| - i
  {
    var n := LineEnd(s, i);
    if n == |s| then None else if Starts(s, i, marker) then Some(n + 1) else AfterMarker(s, n + 1, marker)
  }

  // Where the first marker line from i on begins; the end when there is none.
  function BeforeMarker(s: string, i: nat, marker: string): (at: nat)
    requires i <= |s|
    ensures i <= at <= |s|
    decreases |s| - i
  {
    var n := LineEnd(s, i);
    if i < |s| && Starts(s, i, marker) then i
    else if n == |s| then |s|
    else BeforeMarker(s, n + 1, marker)
  }

  function TextEnd(raw: string, begin: nat, end: string): (at: nat)
    requires begin <= |raw|
    ensures begin <= at <= |raw|
  {
    if end == "" then |raw| else BeforeMarker(raw, begin, end)
  }

  // The two ends of a trimmed text: blank lines before it and blanks after it go,
  // leading spaces stay.
  function TrimLead(s: string, i: nat): (j: nat)
    requires i <= |s|
    ensures i <= j <= |s|
    decreases |s| - i
  {
    if i < |s| && (s[i] == '\n' || s[i] == '\r') then TrimLead(s, i + 1) else i
  }

  predicate Blank(c: char) { c == ' ' || c == '\t' || c == '\n' || c == '\r' }

  function TrimTail(s: string, i: nat, n: nat): (m: nat)
    requires i <= n <= |s|
    ensures i <= m <= n
    decreases n
  {
    if n > i && Blank(s[n - 1]) then TrimTail(s, i, n - 1) else n
  }

  function Trim(s: string): string { s[TrimLead(s, 0)..TrimTail(s, TrimLead(s, 0), |s|)] }

  // marker_section; an empty end marker is none.
  function Piece(raw: string, start: string, end: string): Option<string> {
    var begin := AfterMarker(raw, 0, start);
    if begin.None? then None else Some(Trim(raw[begin.value..TextEnd(raw, begin.value, end)]))
  }

  // The n-th line break from i on; |s| when there are fewer.
  function NthBreak(s: string, i: nat, n: nat): (k: nat)
    requires i <= |s| && n > 0
    ensures i <= k <= |s|
    decreases |s| - i
  {
    if i == |s| then i
    else if s[i] != '\n' then NthBreak(s, i + 1, n)
    else if n == 1 then i
    else NthBreak(s, i + 1, n - 1)
  }

  function FirstLines(s: string): string { s[..NthBreak(s, 0, STATUS_LINES)] }

  // snprintf into the 512-byte line.
  function Fit(s: string): string { if |s| < LINE_CAP then s else s[..LINE_CAP - 1] }

  function BranchText(b: Option<string>): string { if b.Some? && b.value != "" then "Current branch: " + b.value else "" }

  function StatusText(s: Option<string>): string {
    if s.None? then "" else if s.value == "" then "Status: clean" else "Status:\n" + FirstLines(s.value)
  }

  function CommitsText(c: Option<string>): string { if c.Some? && c.value != "" then "Recent commits:\n" + c.value else "" }

  function Join(a: string, b: string): string { if a == "" then b else if b == "" then a else a + "\n" + b }

  // The section as documented: the branch, the first 20 lines of the status, the
  // commits, each when it has content.
  function Whole(branch: Option<string>, status: Option<string>, commits: Option<string>): string {
    Join(Join(BranchText(branch), StatusText(status)), CommitsText(commits))
  }

  // The section the program builds: each part goes through the line.
  function Built(branch: Option<string>, status: Option<string>, commits: Option<string>): string {
    Join(Join(Fit(BranchText(branch)), Fit(StatusText(status))), Fit(CommitsText(commits)))
  }

  function Section(raw: string): string {
    Built(Piece(raw, BRANCH, STATUS), Piece(raw, STATUS, COMMITS), Piece(raw, COMMITS, ""))
  }

  // ---- The loops. ----

  method MarkerSection(raw: string, start: string, end: string) returns (out: Option<string>)
    ensures out == Piece(raw, start, end)
  {
    var begin := StartMarker(raw, start);
    if begin.None? {
      return None;
    }
    var stop := |raw|;
    if end != "" {
      stop := EndMarker(raw, begin.value, end);
    }
    var t := TrimInPlace(raw[begin.value..stop]);
    out := Some(t);
  }

  method StartMarker(raw: string, start: string) returns (begin: Option<nat>)
    ensures begin == AfterMarker(raw, 0, start)
  {
    var p := 0;
    while true
      invariant p <= |raw| && AfterMarker(raw, 0, start) == AfterMarker(raw, p, start)
      decreases |raw| - p
    {
      var nl := LineEnd(raw, p);
      if nl == |raw| {
        return None;
      }
      if Starts(raw, p, start) {
        return Some(nl + 1);
      }
      p := nl + 1;
    }
  }

  method EndMarker(raw: string, begin: nat, end: string) returns (q: nat)
    requires begin <= |raw|
    ensures q == BeforeMarker(raw, begin, end)
  {
    q := begin;
    while q < |raw|
      invariant begin <= q <= |raw| && BeforeMarker(raw, begin, end) == BeforeMarker(raw, q, end)
      decreases |raw| - q
    {
      if Starts(raw, q, end) {
        return;
      }
      var nl := LineEnd(raw, q);
      if nl == |raw| {
        return |raw|;
      }
      q := nl + 1;
    }
  }

  method TrimInPlace(s: string) returns (t: string)
    ensures t == Trim(s)
  {
    var i := 0;
    while i < |s| && (s[i] == '\n' || s[i] == '\r')
      invariant i <= |s| && TrimLead(s, 0) == TrimLead(s, i)
    {
      i := i + 1;
    }
    var n := |s|;
    while n > i && (s[n - 1] == ' ' || s[n - 1] == '\t' || s[n - 1] == '\n' || s[n - 1] == '\r')
      invariant i <= n <= |s| && TrimTail(s, i, |s|) == TrimTail(s, i, n)
    {
      n := n - 1;
    }
    t := s[i..n];
  }

  // keep_lines.
  method KeepLines(s: string) returns (kept: string)
    ensures kept == FirstLines(s)
  {
    var n := 0;
    for p := 0 to |s|
      invariant n < STATUS_LINES && NthBreak(s, 0, STATUS_LINES) == NthBreak(s, p, STATUS_LINES - n)
    {
      if s[p] == '\n' {
        n := n + 1;
        if n == STATUS_LINES {
          return s[..p];
        }
      }
    }
    kept := s;
  }

  // section_append, into a buffer of `cap` bytes with its NUL.
  method AppendPart(out: string, cap: nat, text: string, first: bool) returns (r: string, still: bool)
    requires |out| < cap && text != "" && (first <==> out == "")
    ensures |r| < cap && (|out| + 1 < cap ==> !still && r != "")
    ensures |out| + 1 + |text| < cap ==> r == Join(out, text) && |r| <= |out| + 1 + |text|
  {
    if |out| + 1 >= cap {
      return out, first;
    }
    r := out + (if first then "" else "\n") + text;
    r := r[..if |r| < cap then |r| else cap - 1];
    still := false;
  }

  function Length(s: Option<string>): nat { if s.Some? then |s.value| else 0 }

  lemma JoinNothing(a: string)
    ensures Join(a, "") == a && Join("", a) == a
  {
  }

  lemma TextLengths(branch: Option<string>, status: Option<string>, commits: Option<string>)
    ensures |BranchText(branch)| <= 16 + Length(branch) && |CommitsText(commits)| <= 16 + Length(commits)
    ensures |StatusText(status)| <= 13 + (if status.Some? && status.value != "" then |FirstLines(status.value)| else 0)
    ensures (BranchText(branch) == "" <==> branch.None? || branch.value == "") && (StatusText(status) == "" <==> status.None?)
    ensures CommitsText(commits) == "" <==> commits.None? || commits.value == ""
  {
  }

  // The parts joined in a buffer that is always large enough.
  method Assemble(branch: Option<string>, status: Option<string>, kept: string, commits: Option<string>) returns (section: string)
    requires kept == if status.Some? && status.value != "" then FirstLines(status.value) else ""
    ensures section == Built(branch, status, commits)
  {
    TextLengths(branch, status, commits);
    hide FirstLines, Join;
    var cap := Length(branch) + |kept| + Length(commits) + 128;
    var first := true;
    section := "";
    ghost var b, s := Fit(BranchText(branch)), Fit(StatusText(status));
    JoinNothing(b);
    if branch.Some? && branch.value != "" {
      var line := Fit("Current branch: " + branch.value);
      section, first := AppendPart(section, cap, line, first);
    }
    assert section == b && (first <==> section == "");
    JoinNothing(b);
    if status.Some? && status.value != "" {
      var line := Fit("Status:\n" + kept);
      section, first := AppendPart(section, cap, line, first);
    } else if status.Some? {
      section, first := AppendPart(section, cap, "Status: clean", first);
    }
    assert section == Join(b, s) && |section| <= |b| + |s| + 1 && (first <==> section == "");
    JoinNothing(section);
    if commits.Some? && commits.value != "" {
      var line := Fit("Recent commits:\n" + commits.value);
      section, first := AppendPart(section, cap, line, first);
    }
  }

  // The section text of nm_context_env_apply_git; "" is no section.
  method BuildSection(output: string) returns (section: string)
    ensures section == Section(output)
  {
    hide Piece, FirstLines;
    var branch := MarkerSection(output, BRANCH, STATUS);
    var status := MarkerSection(output, STATUS, COMMITS);
    var commits := MarkerSection(output, COMMITS, "");
    if branch.None? && status.None? && commits.None? {
      return "";
    }
    var kept := "";
    if status.Some? && status.value != "" {
      kept := KeepLines(status.value);
    }
    section := Assemble(branch, status, kept, commits);
  }

  // ---- What the scan recovers. ----

  predicate MarkerLine(s: string, k: nat, marker: string) { (k == 0 || (k <= |s| && s[k - 1] == '\n')) && Starts(s, k, marker) }

  // The scans pass over lines that do not start with the marker.
  lemma {:induction false} ScansPass(s: string, i: nat, k: nat, marker: string)
    requires i <= k <= |s| && (i == 0 || s[i - 1] == '\n') && (k == i || s[k - 1] == '\n')
    requires forall j :: i <= j < k ==> !MarkerLine(s, j, marker)
    ensures AfterMarker(s, i, marker) == AfterMarker(s, k, marker) && BeforeMarker(s, i, marker) == BeforeMarker(s, k, marker)
    decreases k - i
  {
    if i < k {
      assert !MarkerLine(s, i, marker);
      ScansPass(s, LineEnd(s, i) + 1, k, marker);
    }
  }

  // Nothing, or whole lines none of which starts with the marker.
  predicate LinesWithout(s: string, marker: string) {
    && (s != "" ==> s[|s| - 1] == '\n')
    && forall k :: 0 <= k < |s| ==> !MarkerLine(s, k, marker)
  }

  // The block stands at p, which starts a line.
  predicate At(s: string, p: nat, block: string) {
    p + |block| <= |s| && (p == 0 || s[p - 1] == '\n') && forall j :: 0 <= j < |block| ==> block[j] == s[p + j]
  }

  predicate OneLine(marker: string) { marker != "" && forall i :: 0 <= i < |marker| ==> marker[i] != '\n' }

  // Within a block of lines, a marker line is one of the block's own.
  lemma InBlock(s: string, p: nat, block: string, k: nat, marker: string)
    requires At(s, p, block) && OneLine(marker) && p <= k < p + |block| && block[|block| - 1] == '\n'
    ensures MarkerLine(s, k, marker) ==> MarkerLine(block, k - p, marker)
  {
    var e := |block| - 1;
    assert block[e] == s[p + e];
    if MarkerLine(s, k, marker) {
      ClearOf(s, k, marker, p + e);
      assert forall i :: 0 <= i < |marker| ==> marker[i] == s[k + i] && block[k - p + i] == s[p + (k - p + i)];
      assert k > p ==> block[k - p - 1] == s[p + (k - p - 1)];
    }
  }

  // A marker ends before the line does.
  lemma ClearOf(s: string, k: nat, marker: string, e: nat)
    requires Starts(s, k, marker) && OneLine(marker) && k <= e < |s| && s[e] == '\n'
    ensures k + |marker| <= e
  {
    NoBreak(marker, e - k);
  }

  lemma NoBreak(marker: string, j: int)
    requires OneLine(marker)
    ensures 0 <= j < |marker| ==> marker[j] != '\n'
  {
  }

  lemma MarkerPrefix(marker: string, other: string)
    requires OneLine(marker) && OneLine(other) && Starts(marker + "\n", 0, other)
    ensures other <= marker
  {
    var s := marker + "\n";
    ClearOf(s, 0, other, |marker|);
    assert forall i :: 0 <= i < |other| ==> other[i] == s[0 + i] == marker[i];
  }

  lemma MarkerBlock(marker: string, other: string)
    requires OneLine(marker) && OneLine(other) && !(other <= marker)
    ensures LinesWithout(marker + "\n", other)
  {
    var s := marker + "\n";
    forall k | 0 <= k < |s| ensures !MarkerLine(s, k, other) {
      assert k > 0 ==> s[k - 1] == marker[k - 1];
      if k == 0 && Starts(s, 0, other) {
        MarkerPrefix(marker, other);
      }
    }
  }

  function Line(marker: string): string { marker + "\n" }

  // What the command prints: each marker line and the lines under it.
  function Printed(branch: string, status: string, commits: string): string {
    Line(BRANCH) + branch + Line(STATUS) + status + Line(COMMITS) + commits
  }

  lemma MarkersAreLines()
    ensures OneLine(BRANCH) && OneLine(STATUS) && OneLine(COMMITS)
    ensures !(STATUS <= BRANCH) && !(COMMITS <= BRANCH) && !(COMMITS <= STATUS)
  {
    assert BRANCH[3] == 'B' && STATUS[3] == 'S' && COMMITS[3] == 'C';
  }

  lemma BlockIsPassed(s: string, p: nat, block: string, q: nat, marker: string)
    requires At(s, p, block) && q == p + |block| && LinesWithout(block, marker) && OneLine(marker)
    ensures AfterMarker(s, p, marker) == AfterMarker(s, q, marker) && BeforeMarker(s, p, marker) == BeforeMarker(s, q, marker)
  {
    forall j | p <= j < q ensures !MarkerLine(s, j, marker) {
      InBlock(s, p, block, j, marker);
    }
    assert block != "" ==> s[p + (|block| - 1)] == block[|block| - 1];
    hide MarkerLine, OneLine;
    ScansPass(s, p, q, marker);
  }

  // A marker line stops them.
  lemma MarkerStops(s: string, k: nat, marker: string, next: nat)
    requires At(s, k, Line(marker)) && OneLine(marker) && next == k + |marker| + 1
    ensures AfterMarker(s, k, marker) == Some(next) && BeforeMarker(s, k, marker) == k
  {
    var line := marker + "\n";
    assert line[|marker|] == s[k + |marker|];
    forall j | k <= j < k + |marker| ensures s[j] == marker[j - k] {
      assert line[j - k] == s[k + (j - k)];
    }
    LineEndIs(s, k, k + |marker|);
  }

  lemma {:induction false} LineEndIs(s: string, i: nat, n: nat)
    requires i <= n < |s| && s[n] == '\n' && forall k :: i <= k < n ==> s[k] != '\n'
    ensures LineEnd(s, i) == n
    decreases n - i
  {
  }

  predicate Lines(s: string) { s != "" ==> s[|s| - 1] == '\n' }

  // What is printed next stands at the end, and what was in place stays.
  lemma Next(s: string, more: string, p: nat)
    requires Lines(s) && p == |s|
    ensures At(s + more, p, more) && (Lines(more) ==> Lines(s + more)) && |s + more| == p + |more|
  {
  }

  lemma Stays(s: string, more: string, p: nat, block: string)
    requires At(s, p, block)
    ensures At(s + more, p, block)
  {
  }

  // The six blocks of a printed text, with the positions of the last five.
  datatype Places = Places(b: nat, c: nat, d: nat, e: nat, f: nat)

  lemma BlocksAre(a: string, b: string, c: string, d: string, e: string, f: string, at: Places)
    requires Lines(a) && Lines(b) && Lines(c) && Lines(d) && Lines(e)
    requires at.b == |a| && at.c == at.b + |b| && at.d == at.c + |c| && at.e == at.d + |d| && at.f == at.e + |e|
    ensures var s := a + b + c + d + e + f;
      && At(s, 0, a) && At(s, at.b, b) && At(s, at.c, c) && At(s, at.d, d) && At(s, at.e, e) && At(s, at.f, f)
      && |s| == at.f + |f|
  {
    assert At(a, 0, a);
    hide At, Lines;
    Next(a, b, at.b);
    Next(a + b, c, at.c);
    Next(a + b + c, d, at.d);
    Next(a + b + c + d, e, at.e);
    Next(a + b + c + d + e, f, at.f);
    Stays(a, b, 0, a);
    Stays(a + b, c, 0, a);
    Stays(a + b + c, d, 0, a);
    Stays(a + b + c + d, e, 0, a);
    Stays(a + b + c + d + e, f, 0, a);
    Stays(a + b, c, at.b, b);
    Stays(a + b + c, d, at.b, b);
    Stays(a + b + c + d, e, at.b, b);
    Stays(a + b + c + d + e, f, at.b, b);
    Stays(a + b + c, d, at.c, c);
    Stays(a + b + c + d, e, at.c, c);
    Stays(a + b + c + d + e, f, at.c, c);
    Stays(a + b + c + d, e, at.d, d);
    Stays(a + b + c + d + e, f, at.d, d);
    Stays(a + b + c + d + e, f, at.e, e);
  }

  lemma AtIsSlice(s: string, p: nat, block: string, q: nat)
    requires At(s, p, block) && q == p + |block|
    ensures q <= |s| && s[p..q] == block
  {
  }

  // Whatever is printed between the markers, as long as no line of it starts with a
  // later marker, each piece is recovered whole, but for the blanks at its ends.
  lemma PrintedIsRecovered(branch: string, status: string, commits: string)
    requires LinesWithout(branch, STATUS) && LinesWithout(branch, COMMITS) && LinesWithout(status, COMMITS)
    ensures Piece(Printed(branch, status, commits), BRANCH, STATUS) == Some(Trim(branch))
    ensures Piece(Printed(branch, status, commits), STATUS, COMMITS) == Some(Trim(status))
    ensures Piece(Printed(branch, status, commits), COMMITS, "") == Some(Trim(commits))
  {
    MarkersAreLines();
    MarkerBlock(BRANCH, STATUS);
    MarkerBlock(BRANCH, COMMITS);
    MarkerBlock(STATUS, COMMITS);
    var s := Printed(branch, status, commits);
    var at := Places(|Line(BRANCH)|, |Line(BRANCH)| + |branch|, |Line(BRANCH)| + |branch| + |Line(STATUS)|,
                     |Line(BRANCH)| + |branch| + |Line(STATUS)| + |status|, |Line(BRANCH)| + |branch| + |Line(STATUS)| + |status| + |Line(COMMITS)|);
    BlocksAre(Line(BRANCH), branch, Line(STATUS), status, Line(COMMITS), commits, at);
    BoundariesAre(s, branch, status, commits, at);
    AtIsSlice(s, at.b, branch, at.c);
    AtIsSlice(s, at.d, status, at.e);
    AtIsSlice(s, at.f, commits, |s|);
    hide At, LinesWithout, OneLine, Printed, Line;
  }

  lemma BoundariesAre(s: string, branch: string, status: string, commits: string, at: Places)
    requires LinesWithout(branch, STATUS) && LinesWithout(branch, COMMITS) && LinesWithout(status, COMMITS)
    requires LinesWithout(Line(BRANCH), STATUS) && LinesWithout(Line(BRANCH), COMMITS) && LinesWithout(Line(STATUS), COMMITS)
    requires OneLine(BRANCH) && OneLine(STATUS) && OneLine(COMMITS)
    requires At(s, 0, Line(BRANCH)) && At(s, at.b, branch) && At(s, at.c, Line(STATUS)) && At(s, at.d, status) && At(s, at.e, Line(COMMITS))
    requires at.b == |Line(BRANCH)| && at.c == at.b + |branch| && at.d == at.c + |Line(STATUS)| && at.e == at.d + |status| && at.f == at.e + |Line(COMMITS)|
    ensures AfterMarker(s, 0, BRANCH) == Some(at.b) && at.b <= |s| && BeforeMarker(s, at.b, STATUS) == at.c
    ensures AfterMarker(s, 0, STATUS) == Some(at.d) && at.d <= |s| && BeforeMarker(s, at.d, COMMITS) == at.e
    ensures AfterMarker(s, 0, COMMITS) == Some(at.f)
  {
    hide At, LinesWithout, OneLine, AfterMarker, BeforeMarker;
    MarkerStops(s, 0, BRANCH, at.b);
    BlockIsPassed(s, 0, Line(BRANCH), at.b, STATUS);
    BlockIsPassed(s, at.b, branch, at.c, STATUS);
    MarkerStops(s, at.c, STATUS, at.d);
    BlockIsPassed(s, 0, Line(BRANCH), at.b, COMMITS);
    BlockIsPassed(s, at.b, branch, at.c, COMMITS);
    BlockIsPassed(s, at.c, Line(STATUS), at.d, COMMITS);
    BlockIsPassed(s, at.d, status, at.e, COMMITS);
    MarkerStops(s, at.e, COMMITS, at.f);
  }

  // ---- What reaches the prompt. ----

  function Breaks(s: string, i: nat): nat
    requires i <= |s|
    decreases |s| - i
  {
    if i == |s| then 0 else Breaks(s, i + 1) + if s[i] == '\n' then 1 else 0
  }

  // The status is kept whole when it has fewer than 20 line breaks, and else up to
  // the 20th.
  lemma {:induction false} NthBreakMeans(s: string, i: nat, n: nat)
    requires i <= |s| && n > 0
    ensures var k := NthBreak(s, i, n);
      if Breaks(s, i) < n then k == |s| else k < |s| && s[k] == '\n' && Breaks(s, i) - Breaks(s, k) == n - 1
    decreases |s| - i
  {
    if i < |s| {
      if s[i] != '\n' {
        NthBreakMeans(s, i + 1, n);
      } else if n > 1 {
        NthBreakMeans(s, i + 1, n - 1);
      }
    }
  }

  lemma JoinLength(a: string, b: string)
    ensures |Join(a, b)| == |a| + |b| + if a != "" && b != "" then 1 else 0
    ensures Join(a, b) == "" <==> a == "" && b == ""
  {
  }

  predicate Fits(text: string) { |text| < LINE_CAP }

  // The section is the documented one exactly when the branch, the status and the
  // commits, each with its label, fit a line of 511 bytes: twenty lines of status do
  // not have to.
  lemma SectionIsWholeIff(branch: Option<string>, status: Option<string>, commits: Option<string>)
    ensures Built(branch, status, commits) == Whole(branch, status, commits)
       <==> Fits(BranchText(branch)) && Fits(StatusText(status)) && Fits(CommitsText(commits))
  {
    var b, s, c := BranchText(branch), StatusText(status), CommitsText(commits);
    hide BranchText, StatusText, CommitsText, Join;
    JoinLength(b, s);
    JoinLength(Join(b, s), c);
    JoinLength(Fit(b), Fit(s));
    JoinLength(Join(Fit(b), Fit(s)), Fit(c));
  }

  // No section exactly when nothing came of the status and the other pieces are
  // missing or empty; an empty status alone reads "clean".
  lemma NoSectionIff(raw: string)
    ensures Section(raw) == "" <==>
      && (Piece(raw, BRANCH, STATUS).None? || Piece(raw, BRANCH, STATUS).value == "")
      && Piece(raw, STATUS, COMMITS).None?
      && (Piece(raw, COMMITS, "").None? || Piece(raw, COMMITS, "").value == "")
  {
    hide Piece, FirstLines;
  }

  lemma NothingPrinted()
    ensures Section("") == ""
  {
    assert AfterMarker("", 0, BRANCH).None? && AfterMarker("", 0, STATUS).None? && AfterMarker("", 0, COMMITS).None?;
  }

  lemma {:induction false} NoBreaks(s: string, i: nat)
    requires i <= |s| && forall k :: 0 <= k < |s| ==> s[k] != '\n'
    ensures Breaks(s, i) == 0
    decreases |s| - i
  {
    if i < |s| {
      NoBreaks(s, i + 1);
    }
  }

  // A text that trimming leaves alone: it starts on a line and ends in no blank.
  predicate Solid(t: string) { t != "" && t[0] != '\n' && t[0] != '\r' && !Blank(t[|t| - 1]) }

  lemma TrimLine(text: string)
    requires Solid(text)
    ensures Trim(text + "\n") == text && Trim("") == ""
  {
    var s := text + "\n";
    assert s[0] == text[0] && s[|text|] == '\n' && s[|text| - 1] == text[|text| - 1];
    assert TrimTail(s, 0, |s|) == TrimTail(s, 0, |text|) == |text|;
  }

  // A branch and some status lines, as printed, are recovered as they are.
  lemma PrintedStatus(branch: string, status: string)
    requires Solid(branch) && LinesWithout(branch + "\n", STATUS) && LinesWithout(branch + "\n", COMMITS)
    requires Solid(status) && LinesWithout(status + "\n", COMMITS)
    ensures var raw := Printed(branch + "\n", status + "\n", "");
      Piece(raw, BRANCH, STATUS) == Some(branch) && Piece(raw, STATUS, COMMITS) == Some(status) && Piece(raw, COMMITS, "") == Some("")
  {
    TrimLine(branch);
    TrimLine(status);
    hide Trim, LinesWithout, Solid, Piece;
    PrintedIsRecovered(branch + "\n", status + "\n", "");
  }

  lemma CutAt503(branch: string, status: string)
    requires branch != "" && |branch| <= 495 && |status| >= 504 && FirstLines(status) == status
    ensures Whole(Some(branch), Some(status), Some("")) == "Current branch: " + branch + "\n" + ("Status:\n" + status)
    ensures Built(Some(branch), Some(status), Some("")) == "Current branch: " + branch + "\n" + ("Status:\n" + status[..503])
  {
    var head := "Status:\n";
    assert |head| == 8 && |"Current branch: "| == 16;
    assert (head + status)[..511] == head + status[..503];
    hide FirstLines;
  }

  // Up to twenty lines of status, of 504 characters or more, are not shown whole.
  lemma LongStatusIsCut(branch: string, status: string)
    requires |branch| <= 495 && Solid(branch) && LinesWithout(branch + "\n", STATUS) && LinesWithout(branch + "\n", COMMITS)
    requires |status| >= 504 && Solid(status) && LinesWithout(status + "\n", COMMITS) && Breaks(status, 0) < STATUS_LINES
    ensures Section(Printed(branch + "\n", status + "\n", ""))
      == "Current branch: " + branch + "\n" + ("Status:\n" + status[..503])
  {
    PrintedStatus(branch, status);
    NthBreakMeans(status, 0, STATUS_LINES);
    assert FirstLines(status) == status;
    hide Printed, Piece, FirstLines, Whole, Built, LinesWithout;
    CutAt503(branch, status);
  }

  // One file modified in the worktree is such a status when its path has 501
  // characters.
  lemma LongPathIsCut(path: string)
    requires |path| >= 501 && OneLine(path) && !Blank(path[|path| - 1])
    ensures Section(Printed("main" + "\n", " M " + path + "\n", ""))
      == "Current branch: " + "main" + "\n" + ("Status:\n" + (" M " + path)[..503])
  {
    var status := " M " + path;
    assert OneLine(status) && Solid(status) && status[0] == ' ' && OneLine("main") && Solid("main");
    MarkersAreLines();
    assert STATUS[0] == 'N' && COMMITS[0] == 'N' && "main"[0] == 'm';
    MarkerBlock("main", STATUS);
    MarkerBlock("main", COMMITS);
    MarkerBlock(status, COMMITS);
    NoBreaks(status, 0);
    hide Printed, Section, OneLine, Solid, LinesWithout, Breaks;
    LongStatusIsCut("main", status);
  }

  lemma {:induction false} LeadIs(s: string, i: nat)
    requires i <= |s|
    ensures var j := TrimLead(s, i);
      (forall k :: i <= k < j ==> s[k] == '\n' || s[k] == '\r') && (j < |s| ==> s[j] != '\n' && s[j] != '\r')
    decreases |s| - i
  {
    if i < |s| && (s[i] == '\n' || s[i] == '\r') {
      LeadIs(s, i + 1);
    }
  }

  lemma {:induction false} TailIs(s: string, i: nat, n: nat)
    requires i <= n <= |s|
    ensures var m := TrimTail(s, i, n);
      && (forall k :: m <= k < n ==> s[k] == ' ' || s[k] == '\t' || s[k] == '\n' || s[k] == '\r')
      && (m > i ==> s[m - 1] != ' ' && s[m - 1] != '\t' && s[m - 1] != '\n' && s[m - 1] != '\r')
    decreases n
  {
    if n > i && Blank(s[n - 1]) {
      TailIs(s, i, n - 1);
    }
  }

  // A piece is trimmed of the line breaks it starts with and of every blank at its end,
  // and of nothing else.
  lemma TrimMeans(s: string) returns (i: nat, m: nat)
    ensures i <= m <= |s| && Trim(s) == s[i..m]
    ensures forall k :: 0 <= k < i ==> s[k] == '\n' || s[k] == '\r'
    ensures forall k :: m <= k < |s| ==> s[k] == ' ' || s[k] == '\t' || s[k] == '\n' || s[k] == '\r'
    ensures i < m ==> s[i] != '\n' && s[i] != '\r' && s[m - 1] != ' ' && s[m - 1] != '\t' && s[m - 1] != '\n' && s[m - 1] != '\r'
  {
    i := TrimLead(s, 0);
    m := TrimTail(s, i, |s|);
    LeadIs(s, 0);
    TailIs(s, i, |s|);
  }

  // As much of a part as its 512-byte line holds.
  function Head511(s: string): string { if |s| <= 511 then s else s[..511] }

  // What reaches the prompt of a printed repository, in this order: the branch if there
  // is one, the first twenty lines of the status or that it is clean, and the commits
  // if there are any, each under its label and cut after 511 characters.
  lemma SectionShows(branch: string, status: string, commits: string)
    requires LinesWithout(branch, STATUS) && LinesWithout(branch, COMMITS) && LinesWithout(status, COMMITS)
    ensures var b, s, c := Trim(branch), Trim(status), Trim(commits);
      Section(Printed(branch, status, commits)) ==
        (if b == "" then "" else Head511("Current branch: " + b) + "\n")
        + Head511(if s == "" then "Status: clean" else "Status:\n" + s[..NthBreak(s, 0, 20)])
        + (if c == "" then "" else "\n" + Head511("Recent commits:\n" + c))
  {
    var b, s, c := Trim(branch), Trim(status), Trim(commits);
    PrintedIsRecovered(branch, status, commits);
    hide Piece, Printed, LinesWithout, Trim, NthBreak, Built;
    BuiltShows(b, s, c);
  }

  lemma BuiltShows(b: string, s: string, c: string)
    ensures Built(Some(b), Some(s), Some(c)) ==
      (if b == "" then "" else Head511("Current branch: " + b) + "\n")
      + Head511(if s == "" then "Status: clean" else "Status:\n" + s[..NthBreak(s, 0, 20)])
      + (if c == "" then "" else "\n" + Head511("Recent commits:\n" + c))
  {
    var head := Head511("Current branch: " + b);
    var middle := Head511(if s == "" then "Status: clean" else "Status:\n" + s[..NthBreak(s, 0, 20)]);
    var tail := Head511("Recent commits:\n" + c);
    HeadKeeps("Current branch: ", b);
    HeadKeeps("Recent commits:\n", c);
    HeadKeeps("Status:\n", s[..NthBreak(s, 0, 20)]);
    HeadKeeps("Status: clean", "");
    assert "Status: clean" + "" == "Status: clean";
    hide Join, NthBreak;
    Joins(if b == "" then "" else head, middle, if c == "" then "" else tail);
  }

  lemma HeadKeeps(start: string, x: string)
    requires 0 < |start| < 20
    ensures Head511(start + x) != "" && Fit(start + x) == Head511(start + x)
  {
  }

  lemma Joins(a: string, b: string, c: string)
    requires b != ""
    ensures Join(Join(a, b), c) == (if a == "" then "" else a + "\n") + b + (if c == "" then "" else "\n" + c)
  {
    if c != "" {
      Assoc((if a == "" then "" else a + "\n") + b, "\n", c);
    }
  }
}
