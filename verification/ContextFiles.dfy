// Which context files the prompt loads (src/context.c): candidates without content are
// passed over, the others are read up to a cap and sanitized.
module ContextFiles {
  import opened ProjectBlock
  import opened Reminder

  // A file that is looked for: its label, what it holds ("" when it is absent or cannot
  // be read), and its size on disk.
  datatype Candidate = Candidate(name: string, content: string, size: nat)

  // read_into_scratch: one byte past the cap is enough to know that it is exceeded.
  function Scratch(c: Candidate): string {
    if |c.content| <= MAX_BYTES then c.content else c.content[..MAX_BYTES + 1]
  }

  predicate BlankChar(c: char) { c == ' ' || c == '\t' || c == '\n' || c == '\r' }

  predicate IsBlank(s: string) { forall i :: 0 <= i < |s| ==> BlankChar(s[i]) }

  function EntryFor(c: Candidate): Entry {
    var text := Scratch(c);
    Entry(c.name, Sanitized(text), if c.size > |text| then c.size else |text|)
  }

  // The entries of the candidates that have content, in order.
  function Loaded(cs: seq<Candidate>): seq<Entry> {
    if cs == [] then []
    else
      var before, c := Loaded(cs[..|cs| - 1]), cs[|cs| - 1];
      if IsBlank(Scratch(c)) then before else before + [EntryFor(c)]
  }

  method Blank(s: string) returns (blank: bool)
    ensures blank <==> IsBlank(s)
  {
    for i := 0 to |s|
      invariant IsBlank(s[..i])
    {
      if s[i] != ' ' && s[i] != '\t' && s[i] != '\n' && s[i] != '\r' {
        return false;
      }
      assert s[..i + 1] == s[..i] + [s[i]];
    }
    assert s[..|s|] == s;
    return true;
  }

  // The reads of nm_context_new, file by file.
  method Load(cs: seq<Candidate>) returns (es: seq<Entry>)
    ensures es == Loaded(cs)
  {
    es := [];
    for i := 0 to |cs|
      invariant es == Loaded(cs[..i])
    {
      assert cs[..i + 1][..i] == cs[..i];
      var text := if |cs[i].content| <= MAX_BYTES then cs[i].content else cs[i].content[..MAX_BYTES + 1];
      var blank := Blank(text);
      if blank {
        continue;
      }
      var body, _ := Sanitize(text);
      es := es + [Entry(cs[i].name, body, if cs[i].size > |text| then cs[i].size else |text|)];
    }
    assert cs[..|cs|] == cs;
  }

  // A mark that is not blank, in as much of the file as is read.
  predicate HasText(c: Candidate) { exists k :: 0 <= k < |c.content| && k <= MAX_BYTES && !BlankChar(c.content[k]) }

  // `at` numbers, in order, the candidates that have text, which are the entries.
  predicate Picks(at: seq<nat>, cs: seq<Candidate>, es: seq<Entry>) {
    && |at| == |es|
    && (forall k :: 0 <= k < |at| ==> at[k] < |cs| && EntryIs(es[k], cs[at[k]]))
    && (forall j, k :: 0 <= j < k < |at| ==> at[j] < at[k])
    && (forall i: nat :: i < |cs| ==> (HasText(cs[i]) <==> i in at))
  }

  // The entries keep the order of the candidates and leave out the blank ones alone; each
  // is its candidate's text, up to one character past the cap.
  lemma {:induction false} LoadedInOrder(cs: seq<Candidate>) returns (at: seq<nat>)
    ensures Picks(at, cs, Loaded(cs))
  {
    if cs == [] {
      return [];
    }
    var c := cs[|cs| - 1];
    at := LoadedInOrder(cs[..|cs| - 1]);
    BlankIff(c);
    EntryForIs(c);
    hide Picks, IsBlank, EntryIs, HasText, EntryFor, Scratch;
    PickMore(at, cs, Loaded(cs[..|cs| - 1]), EntryFor(c));
    at := if HasText(c) then at + [|cs| - 1] else at;
  }

  lemma PickMore(at: seq<nat>, cs: seq<Candidate>, es: seq<Entry>, e: Entry)
    requires cs != [] && Picks(at, cs[..|cs| - 1], es) && EntryIs(e, cs[|cs| - 1])
    ensures HasText(cs[|cs| - 1]) ==> Picks(at + [|cs| - 1], cs, es + [e])
    ensures !HasText(cs[|cs| - 1]) ==> Picks(at, cs, es)
  {
    hide EntryIs, HasText;
    var n := |cs| - 1;
    assert forall i: nat :: i < n ==> cs[..n][i] == cs[i];
    assert forall i :: i in at ==> i < n;
  }

  predicate EntryIs(e: Entry, c: Candidate) {
    var text := if |c.content| > MAX_BYTES then c.content[..MAX_BYTES + 1] else c.content;
    e.name == c.name && e.body == Sanitized(text) && e.size >= c.size && e.size >= |text| && (e.size == c.size || e.size == |text|)
  }

  lemma EntryForIs(c: Candidate)
    ensures EntryIs(EntryFor(c), c)
  {
  }

  lemma BlankIff(c: Candidate)
    ensures HasText(c) <==> !IsBlank(Scratch(c))
  {
    var text := Scratch(c);
    assert forall k :: 0 <= k < |text| ==> text[k] == c.content[k];
  }

  // Every entry has a body, and no reminder tag in it.
  lemma {:induction false} LoadedBodies(cs: seq<Candidate>)
    ensures forall i :: 0 <= i < |Loaded(cs)| ==> Loaded(cs)[i].body != "" && NoTag(Loaded(cs)[i].body)
  {
    if cs != [] {
      LoadedBodies(cs[..|cs| - 1]);
      var text := Scratch(cs[|cs| - 1]);
      NoTagIsLeft(text, 0);
      EscapesAreCounted(text, 0);
      hide NoTag, From, Hits;
    }
  }

  // Nor in as much of it as the cap lets through.
  lemma CutBodyHasNoTag(s: string, n: nat)
    requires NoTag(s) && n <= |s|
    ensures NoTag(s[..n])
  {
    forall k | 0 <= k < n ensures TagLen(s[..n], k) == 0 {
      PrefixTag(s, n, k);
    }
  }

  lemma PrefixTag(s: string, n: nat, k: nat)
    requires k < n <= |s|
    ensures TagLen(s[..n], k) > 0 ==> TagLen(s, k) > 0
  {
    assert forall j :: 0 <= j < n ==> s[..n][j] == s[j];
    NameInPrefix(s, n, k + 1);
    NameInPrefix(s, n, k + 2);
  }

  lemma NameInPrefix(s: string, n: nat, k: nat)
    requires n <= |s|
    ensures NameAt(s[..n], k) ==> NameAt(s, k)
  {
    if NameAt(s[..n], k) {
      forall j | 0 <= j < |NAME| ensures NAME[j] == Lower(s[k + j]) {
        assert s[..n][k + j] == s[k + j];
      }
    }
  }

  // The whole block keeps the cap exactly when no file is cut, or the cut one left room
  // for its notice.
  lemma BlockKeepsCapIff(cs: seq<Candidate>)
    ensures |Files(0, Loaded(cs))| <= MAX_BYTES <==>
      FirstCut(0, Loaded(cs)).NoCut? || NoticeHasRoom(FirstCut(0, Loaded(cs)).used, FirstCut(0, Loaded(cs)).e)
  {
    LoadedBodies(cs);
    hide Loaded, NoticeHasRoom, FirstCut, NoTag;
    FilesKeepCapIff(0, Loaded(cs));
  }

  // One file of 40000 letters: over the cap before anything else is in the block.
  lemma BigFileOverrunsCap()
    ensures var es := Loaded([Candidate("AGENTS.md", seq(40000, i => 'a'), 40000)]);
      |Files(0, es)| > MAX_BYTES && es == [Entry("AGENTS.md", seq(32769, i => 'a'), 40000)]
  {
    var c := Candidate("AGENTS.md", seq(40000, i => 'a'), 40000);
    var text := seq(32769, i => 'a');
    assert Scratch(c) == text && !BlankChar(text[0]);
    assert NoTag(text) && Sanitized(text) == text by {
      assert NoTag(text);
      CleanIsKept(text, 0);
      assert text[0..] == text;
    }
    assert [c][..0] == [];
    assert |"AGENTS.md"| == 9;
    hide Files, Notice;
    LongFirstLineOverruns(0, Entry("AGENTS.md", text, 40000));
  }
}
