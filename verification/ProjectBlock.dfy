// The <project_context> block of src/context.c: files joined under a byte cap,
// the last one cut at a line end and announced.
module ProjectBlock {
  const MAX_BYTES: nat := 32768
  const ENTRY_SCAFFOLD: nat := 24
  const NOTICE_CAP: nat := 192

  const HEADER := "\n\n# Project-Specific Context\nMake sure to follow the instructions in the context below.\n<project_context>\n"
  const FOOTER := "\n</project_context>"

  // A candidate file with content: its label, the sanitized bytes that were read,
  // and its size on disk.
  datatype Entry = Entry(name: string, body: string, size: nat)

  function Join(used: nat): string { if used > 0 then "\n" else "" }

  // The bytes of body the cap leaves room for.
  function Room(used: nat, name: string): nat {
    var fixed := used + |Join(used)| + ENTRY_SCAFFOLD + |name|;
    if fixed < MAX_BYTES then MAX_BYTES - fixed else 0
  }

  // The last line end at or before `n`; 0 when there is none.
  function LineEnd(body: string, n: nat): (i: nat)
    requires n <= |body|
    ensures i <= n
    ensures i > 0 ==> body[i - 1] == '\n'
    ensures forall k :: i <= k < n ==> body[k] != '\n'
  {
    if n == 0 || body[n - 1] == '\n' then n else LineEnd(body, n - 1)
  }

  predicate Truncated(used: nat, e: Entry) {
    |e.body| > Room(used, e.name)
  }

  function Cut(used: nat, e: Entry): (n: nat)
    ensures n <= |e.body| && n <= Room(used, e.name)
  {
    if !Truncated(used, e) then |e.body|
    else
      var i := LineEnd(e.body, Room(used, e.name));
      if i > 0 then i else Room(used, e.name)
  }

  function EntryHead(e: Entry, cut: nat): string
    requires cut <= |e.body|
  {
    "<file path=\"" + e.name + "\">\n" + e.body[..cut]
  }

  function EntryTail(e: Entry, cut: nat): string
    requires cut <= |e.body|
  {
    if cut > 0 && e.body[cut - 1] != '\n' then "\n\n</file>" else "\n</file>"
  }

  function EntryText(used: nat, e: Entry): string {
    Join(used) + (EntryHead(e, Cut(used, e)) + EntryTail(e, Cut(used, e)))
  }

  function Decimal(n: nat): string {
    if n < 10 then [('0' as int + n) as char] else Decimal(n / 10) + [('0' as int + n % 10) as char]
  }

  function Notice(used: nat, e: Entry): string {
    var n := Cut(used, e);
    "\n[truncated: " + Decimal(if e.size > n then e.size - n else 0) + " of " + Decimal(e.size)
      + " bytes omitted by the " + "32768" + "-byte context cap; later files not loaded]"
  }

  // Files one after the other; the first cut stops the loading.
  function Files(used: nat, es: seq<Entry>): string
    decreases |es|
  {
    if es == [] then ""
    else
      var t := EntryText(used, es[0]);
      if Truncated(used, es[0]) then t + Notice(used, es[0]) else t + Files(used + |t|, es[1..])
  }

  // No file with content: no block at all.
  function Block(es: seq<Entry>): string {
    if es == [] then "" else HEADER + Files(0, es) + FOOTER
  }

  // All that one entry adds: its text and, when it is cut, the notice.
  function Written(used: nat, e: Entry): string {
    if Truncated(used, e) then EntryText(used, e) + Notice(used, e) else EntryText(used, e)
  }

  // The part of the room that a cut gave back is enough for the notice, which the cap
  // does not set aside.
  predicate NoticeHasRoom(used: nat, e: Entry) {
    Room(used, e.name) - Cut(used, e) + 1 >= |Notice(used, e)|
  }

  // An entry that is not cut keeps the block within the cap (one without content when
  // its scaffolding does); one that is cut does exactly when the line it dropped was
  // long enough for the notice.
  lemma EntryKeepsCap(used: nat, e: Entry)
    ensures used + |Written(used, e)| <= MAX_BYTES <==>
      if Truncated(used, e) then NoticeHasRoom(used, e)
      else e.body != "" || used + |Join(used)| + |e.name| + 23 <= MAX_BYTES
  {
    EntryLength(used, e);
    NoticeIsLong(used, e);
    hide EntryText, Notice, Join;
  }

  lemma NoticeIsLong(used: nat, e: Entry)
    ensures |Notice(used, e)| > 25
  {
    assert |"32768"| == 5 && |" bytes omitted by the "| == 22;
  }

  // The file that ends the loading, if one does, and how much was used before it.
  datatype CutFile = NoCut | CutAt(used: nat, e: Entry)

  function FirstCut(used: nat, es: seq<Entry>): CutFile
    decreases |es|
  {
    if es == [] then NoCut
    else if Truncated(used, es[0]) then CutAt(used, es[0])
    else FirstCut(used + |EntryText(used, es[0])|, es[1..])
  }

  // The files keep the cap exactly when none is cut, or the cut one leaves room for
  // its notice.
  lemma {:induction false} FilesKeepCapIff(used: nat, es: seq<Entry>)
    requires used <= MAX_BYTES && forall i :: 0 <= i < |es| ==> es[i].body != ""
    ensures used + |Files(used, es)| <= MAX_BYTES <==>
      FirstCut(used, es).NoCut? || NoticeHasRoom(FirstCut(used, es).used, FirstCut(used, es).e)
    decreases |es|
  {
    hide EntryText, Notice, NoticeHasRoom, Truncated;
    if es != [] {
      EntryKeepsCap(used, es[0]);
      if !Truncated(used, es[0]) {
        FilesKeepCapIff(used + |EntryText(used, es[0])|, es[1..]);
      }
    }
  }

  // A file whose first line alone exceeds the room is cut within that line, and then
  // the block is over the cap by the whole notice.
  lemma LongFirstLineOverruns(used: nat, e: Entry)
    requires 0 < Room(used, e.name) < |e.body| && forall k :: 0 <= k < Room(used, e.name) ==> e.body[k] != '\n'
    ensures used + |Files(used, [e])| == MAX_BYTES + |Notice(used, e)| > MAX_BYTES
  {
    CutIsALineEnd(used, e);
    EntryLength(used, e);
    NoticeIsLong(used, e);
    assert [e][1..] == [];
    hide EntryText, Notice;
  }

  // A cut that leaves no body overruns by the label too: a first file that just fits
  // leaves the next one no room, and that one is still announced.
  lemma ScaffoldingOverrunsCap()
    ensures var first := Entry("AGENTS.md", seq(32734, i => 'a') + "\n", 32735); var next := Entry("src/AGENTS.md", "x", 1);
      && !Truncated(0, first) && |EntryText(0, first)| == 32767
      && Cut(32767, next) == 0 && 32767 + |EntryText(32767, next)| == 32804
      && Files(0, [first, next]) == EntryText(0, first) + (EntryText(32767, next) + Notice(32767, next))
  {
    var first := Entry("AGENTS.md", seq(32734, i => 'a') + "\n", 32735);
    var next := Entry("src/AGENTS.md", "x", 1);
    assert |"AGENTS.md"| == 9 && |"src/AGENTS.md"| == 13;
    EntryLength(0, first);
    EntryLength(32767, next);
    assert LineEnd("x", 0) == 0;
    hide EntryText, Notice;
    assert [first, next][1..] == [next];
  }

  lemma EntryLength(used: nat, e: Entry)
    ensures var n := Cut(used, e);
      |EntryText(used, e)| == |Join(used)| + |e.name| + 23 + n + (if n > 0 && e.body[n - 1] != '\n' then 1 else 0)
  {
    assert |"<file path=\""| == 12 && |"\">\n"| == 3 && |"\n</file>"| == 8 && |"\n\n</file>"| == 9;
  }

  // A cut never splits a line unless the first line alone exceeds the room.
  lemma CutIsALineEnd(used: nat, e: Entry)
    requires Truncated(used, e)
    ensures var n := Cut(used, e);
      if exists k :: 0 <= k < Room(used, e.name) && e.body[k] == '\n'
      then n > 0 && e.body[n - 1] == '\n' && forall k :: n <= k < Room(used, e.name) ==> e.body[k] != '\n'
      else n == Room(used, e.name)
  {
  }

  lemma {:induction false} DecimalDigits(n: nat, k: nat, bound: nat)
    requires k >= 1 && n < bound && bound == Power10(k)
    ensures |Decimal(n)| <= k
    decreases k
  {
    if n >= 10 {
      assert k > 1;
      DecimalDigits(n / 10, k - 1, Power10(k - 1));
    }
  }

  function Power10(k: nat): (p: nat)
    ensures p >= 1
  {
    if k == 0 then 1 else 10 * Power10(k - 1)
  }

  // The notice always fits the buffer it is printed into, for any 64-bit size.
  lemma NoticeFits(used: nat, e: Entry)
    requires e.size < Power10(20)
    ensures |Notice(used, e)| < NOTICE_CAP
  {
    var n := Cut(used, e);
    DecimalDigits(e.size, 20, Power10(20));
    DecimalDigits(if e.size > n then e.size - n else 0, 20, Power10(20));
  }

  // So the whole block exceeds the cap by at most one entry's scaffolding and one
  // notice, whatever the files are.
  lemma {:induction false} FilesStayNearCap(used: nat, es: seq<Entry>, longest: nat)
    requires used <= MAX_BYTES
    requires forall i :: 0 <= i < |es| ==> |es[i].name| <= longest && es[i].size < Power10(20) && es[i].body != ""
    ensures used + |Files(used, es)| < MAX_BYTES + ENTRY_SCAFFOLD + longest + NOTICE_CAP
    decreases |es|
  {
    hide EntryText, Notice;
    if es != [] {
      EntryLength(used, es[0]);
      NoticeFits(used, es[0]);
      var t := EntryText(used, es[0]);
      if Truncated(used, es[0]) {
        assert Files(used, es) == t + Notice(used, es[0]);
      } else {
        assert Files(used, es) == t + Files(used + |t|, es[1..]);
        FilesStayNearCap(used + |t|, es[1..], longest);
      }
    }
  }

  // ---- What the block shows. ----

  // The first n characters of a file under its label, closed on a line of its own.
  function Piece(e: Entry, n: nat): string
    requires n <= |e.body|
  {
    "<file path=\"" + e.name + "\">\n" + e.body[..n] + (if n == 0 || e.body[n - 1] == '\n' then "" else "\n") + "\n</file>"
  }

  // Whole files, a line break between each and the next.
  function Wholes(es: seq<Entry>): string
    decreases |es|
  {
    if es == [] then ""
    else
      var e := es[|es| - 1];
      Wholes(es[..|es| - 1]) + (if |es| == 1 then "" else "\n") + Piece(e, |e.body|)
  }

  // What is said of a file that was cut.
  function Said(omitted: nat, size: nat): string {
    "\n[truncated: " + Decimal(omitted) + " of " + Decimal(size)
      + " bytes omitted by the " + "32768" + "-byte context cap; later files not loaded]"
  }

  // The n characters of a file that are kept, and what is said of the rest.
  function CutPiece(e: Entry, n: nat): string
    requires n <= |e.body|
  {
    Piece(e, n) + Said(if e.size > n then e.size - n else 0, e.size)
  }

  lemma PieceIs(e: Entry, n: nat)
    requires n <= |e.body|
    ensures EntryHead(e, n) + EntryTail(e, n) == Piece(e, n) && Piece(e, n) != ""
  {
    hide EntryHead;
    if n > 0 && e.body[n - 1] != '\n' {
      assert "\n\n</file>" == "\n" + "\n</file>";
    } else {
      assert EntryHead(e, n) + "" == EntryHead(e, n);
    }
    HeadIs(e, n);
  }

  lemma HeadIs(e: Entry, n: nat)
    requires n <= |e.body|
    ensures EntryHead(e, n) == "<file path=\"" + e.name + "\">\n" + e.body[..n]
  {
  }

  lemma NoticeIs(used: nat, e: Entry)
    ensures Notice(used, e) == Said(if e.size > Cut(used, e) then e.size - Cut(used, e) else 0, e.size)
  {
    hide Decimal, Cut;
  }

  lemma TextIs(used: nat, e: Entry)
    ensures EntryText(used, e) == Join(used) + (EntryHead(e, Cut(used, e)) + EntryTail(e, Cut(used, e)))
    ensures !Truncated(used, e) ==> Cut(used, e) == |e.body|
  {
    hide EntryHead, EntryTail, Join;
  }

  // What one entry writes.
  lemma EntryShows(used: nat, e: Entry)
    ensures EntryText(used, e) == Join(used) + Piece(e, Cut(used, e))
    ensures EntryText(used, e) + Notice(used, e) == Join(used) + CutPiece(e, Cut(used, e))
    ensures !Truncated(used, e) ==> Cut(used, e) == |e.body|
  {
    hide Piece, Notice, Said, EntryHead, EntryTail, EntryText, Decimal, Join, Cut, Truncated;
    PieceIs(e, Cut(used, e));
    NoticeIs(used, e);
    TextIs(used, e);
    Assoc3(Join(used), Piece(e, Cut(used, e)), Notice(used, e));
  }

  lemma WholesMore(es: seq<Entry>, e: Entry)
    ensures Wholes(es + [e]) == Wholes(es) + (if es == [] then "" else "\n") + Piece(e, |e.body|)
    ensures Wholes(es) == "" <==> es == []
  {
    assert (es + [e])[..|es|] == es;
    if es != [] {
      PieceIs(es[|es| - 1], |es[|es| - 1].body|);
    }
    hide Piece;
  }

  // After the files `ds` the block goes on with the k that fit whole, in order, and with
  // as much of the next as the cap leaves.
  predicate GoesOn(ds: seq<Entry>, es: seq<Entry>, k: nat) {
    && k <= |es|
    && var used := |Wholes(ds + es[..k])|;
      && (k < |es| ==> Truncated(used, es[k]))
      && Wholes(ds) + Files(|Wholes(ds)|, es)
         == Wholes(ds + es[..k]) + if k == |es| then "" else Join(used) + CutPiece(es[k], Cut(used, es[k]))
  }

  lemma CutHere(ds: seq<Entry>, es: seq<Entry>)
    requires es != [] && Truncated(|Wholes(ds)|, es[0])
    ensures GoesOn(ds, es, 0)
  {
    var used := |Wholes(ds)|;
    assert ds + es[..0] == ds;
    EntryShows(used, es[0]);
    hide Wholes, CutPiece, Notice, EntryText, Truncated;
  }

  lemma WholeHere(ds: seq<Entry>, es: seq<Entry>, k: nat)
    requires es != [] && !Truncated(|Wholes(ds)|, es[0]) && GoesOn(ds + [es[0]], es[1..], k)
    ensures GoesOn(ds, es, k + 1)
  {
    hide Wholes, Piece, CutPiece, Notice, EntryText, Truncated, Files, Cut, Join;
    var used, e, rest := |Wholes(ds)|, es[0], es[1..];
    assert ds + es[..k + 1] == ds + [e] + rest[..k];
    EntryShows(used, e);
    WholesJoin(ds, e);
    Files1(used, es);
    assert Wholes(ds + [e]) == Wholes(ds) + EntryText(used, e);
    Assoc3(Wholes(ds), EntryText(used, e), Files(used + |EntryText(used, e)|, rest));
  }

  lemma WholesJoin(ds: seq<Entry>, e: Entry)
    ensures Wholes(ds + [e]) == Wholes(ds) + (Join(|Wholes(ds)|) + Piece(e, |e.body|))
  {
    WholesMore(ds, e);
    hide Wholes, Piece;
    Assoc3(Wholes(ds), Join(|Wholes(ds)|), Piece(e, |e.body|));
  }

  lemma Files1(used: nat, es: seq<Entry>)
    requires es != [] && !Truncated(used, es[0])
    ensures Files(used, es) == EntryText(used, es[0]) + Files(used + |EntryText(used, es[0])|, es[1..])
  {
    hide EntryText, Notice, Truncated;
  }

  lemma Assoc3(a: string, b: string, c: string)
    ensures a + (b + c) == a + b + c
  {
  }

  lemma {:induction false} FilesAfter(ds: seq<Entry>, es: seq<Entry>) returns (k: nat)
    ensures GoesOn(ds, es, k)
    decreases |es|
  {
    hide Wholes, Files, CutPiece, Truncated;
    if es == [] {
      k := 0;
      assert ds + es[..0] == ds;
      NoFiles(|Wholes(ds)|);
    } else if Truncated(|Wholes(ds)|, es[0]) {
      k := 0;
      CutHere(ds, es);
    } else {
      hide GoesOn;
      k := FilesAfter(ds + [es[0]], es[1..]);
      WholeHere(ds, es, k);
      k := k + 1;
    }
  }

  lemma NoFiles(used: nat)
    ensures Files(used, []) == ""
  {
  }

  // The block's text: the files that fit, whole and in order, each under its label, and
  // of the next one what the cap leaves, with how many bytes are missing.
  lemma FilesShow(es: seq<Entry>) returns (k: nat)
    ensures k <= |es| && (k < |es| ==> Truncated(|Wholes(es[..k])|, es[k]))
    ensures Files(0, es) ==
      if k == |es| then Wholes(es)
      else Wholes(es[..k]) + (if k == 0 then "" else "\n") + CutPiece(es[k], Cut(|Wholes(es[..k])|, es[k]))
  {
    NothingWhole();
    hide CutPiece, Truncated, Files, Wholes;
    k := FilesAfter([], es);
    assert [] + es[..k] == es[..k] && (k == |es| ==> es[..k] == es);
    assert "" + Files(0, es) == Files(0, es);
    if k > 0 {
      WholesMore(es[..k], es[k - 1]);
      assert es[..k] != [];
    }
    if k < |es| {
      Assoc3(Wholes(es[..k]), Join(|Wholes(es[..k])|), CutPiece(es[k], Cut(|Wholes(es[..k])|, es[k])));
    }
    assert Wholes(es) + "" == Wholes(es);
  }

  lemma NothingWhole()
    ensures Wholes([]) == ""
  {
  }

  // Numbers are printed in decimal.
  function DecimalValue(s: string): nat {
    if s == "" then 0 else 10 * DecimalValue(s[..|s| - 1]) + if '0' <= s[|s| - 1] <= '9' then s[|s| - 1] as int - '0' as int else 0
  }

  lemma {:induction false} DecimalReads(n: nat)
    ensures DecimalValue(Decimal(n)) == n && Decimal(n) != "" && forall i :: 0 <= i < |Decimal(n)| ==> '0' <= Decimal(n)[i] <= '9'
    ensures n > 0 ==> Decimal(n)[0] != '0'
  {
    if n >= 10 {
      DecimalReads(n / 10);
    }
  }
}
