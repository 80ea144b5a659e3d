// The read ledger over its whole history (src/file_ledger.c): which record a full
// table gives up, and when a file is said to have changed.
module FileRuns {
  import opened FileLedger

  // Event i put its read into the table: it was not answered "unchanged".
  predicate Records(h: seq<Event>, i: nat) {
    i < |h| && h[i].Reads? && h[i].read.key.path != "" && ScanVerdict(BooksOf(h[..i]).table, h[i].read) != Repeat
  }

  predicate LastRecord(h: seq<Event>, k: Key, i: nat) {
    && Records(h, i) && h[i].read.key == k
    && forall j :: i < j < |h| && Records(h, j) ==> h[j].read.key != k
  }

  // A slot holds what the last record of its window saw, stamped in that order.
  predicate Holds(h: seq<Event>, s: Slot, i: nat) {
    && s.Taken? && LastRecord(h, s.record.read.key, i) && s.record.read == h[i].read
    && s.seqNo == BooksOf(h[..i + 1]).counter
    && (s.record.ours <==> WrittenSince(h, s.record.read.key.path, i))
  }

  lemma SameBefore(h: seq<Event>, n: nat, i: nat)
    requires i <= n <= |h|
    ensures h[..n][..i] == h[..i]
  {
  }

  lemma RecordsBefore(h: seq<Event>, i: nat)
    requires i < |h| - 1
    ensures Records(h[..|h| - 1], i) <==> Records(h, i)
  {
    SameBefore(h, |h| - 1, i);
    hide BooksOf, ScanVerdict;
  }

  lemma WrittenBefore(h: seq<Event>, path: string, i: nat)
    requires i < |h| - 1
    ensures WrittenSince(h, path, i) <==> WrittenSince(h[..|h| - 1], path, i) || h[|h| - 1] == Writes(path)
  {
    var n := |h| - 1;
    assert forall j :: 0 <= j < n ==> h[..n][j] == h[j];
    if WrittenSince(h[..n], path, i) {
      var j :| i < j < n && h[..n][j] == Writes(path);
      assert h[j] == Writes(path);
    }
    if h[n] == Writes(path) {
      assert i < n < |h|;
    }
  }

  // A slot the last event left alone, or only marked.
  lemma HeldBefore(h: seq<Event>, s: Slot, t: Slot, i: nat)
    requires h != [] && Holds(h[..|h| - 1], s, i)
    requires t == if h[|h| - 1].Writes? then Marked(s, h[|h| - 1].path) else s
    requires Records(h, |h| - 1) ==> h[|h| - 1].read.key != s.record.read.key
    ensures Holds(h, t, i)
  {
    var n := |h| - 1;
    SameBefore(h, n, i + 1);
    WrittenBefore(h, s.record.read.key.path, i);
    RecordsBefore(h, i);
    forall j | i < j < |h| && Records(h, j) ensures h[j].read.key != s.record.read.key {
      if j < n {
        RecordsBefore(h, j);
      }
    }
    hide BooksOf, Records, WrittenSince;
  }

  lemma JustRecorded(h: seq<Event>)
    requires h != [] && Records(h, |h| - 1)
    ensures var at := Chosen(BooksOf(h[..|h| - 1]).table, h[|h| - 1].read.key);
      at < MAX_ENTRIES && Holds(h, BooksOf(h).table[at], |h| - 1)
  {
    ChosenIsSlotFor(BooksOf(h[..|h| - 1]).table, h[|h| - 1].read.key);
    assert h[..|h| - 1 + 1] == h;
    assert BooksOf(h) == Apply(BooksOf(h[..|h| - 1]), h[|h| - 1]);
    hide Chosen, ScanVerdict, BooksOf, SlotFor;
  }

  // Every taken slot is the last record of its window: what it saw, when, and
  // whether the file was written since.
  lemma {:induction false} SlotsAreLastRecords(h: seq<Event>, at: nat) returns (i: nat)
    requires at < MAX_ENTRIES && BooksOf(h).table[at].Taken?
    ensures Holds(h, BooksOf(h).table[at], i)
    decreases |h|
  {
    var n := |h| - 1;
    var b, c := BooksOf(h[..n]), BooksOf(h);
    assert c == Apply(b, h[n]);
    EveryHistoryKeepsTable(h[..n]);
    if Records(h, n) {
      JustRecorded(h);
      ChosenIsSlotFor(b.table, h[n].read.key);
    }
    hide BooksOf, Holds, Chosen, ScanVerdict;
    if Records(h, n) && at == Chosen(b.table, h[n].read.key) {
      i := n;
    } else {
      i := SlotsAreLastRecords(h[..n], at);
      HeldBefore(h, b.table[at], c.table[at], i);
    }
  }

  lemma {:induction false} CounterGrows(h: seq<Event>, i: nat)
    requires i <= |h|
    ensures BooksOf(h[..i]).counter <= BooksOf(h).counter
    decreases |h|
  {
    if i < |h| {
      var n := |h| - 1;
      CounterGrows(h[..n], i);
      SameBefore(h, n, i);
      hide Chosen, ScanVerdict;
    } else {
      assert h[..i] == h;
    }
  }

  lemma LaterIsGreater(h: seq<Event>, i: nat, j: nat)
    requires i < j && Records(h, j)
    ensures BooksOf(h[..i + 1]).counter < BooksOf(h[..j + 1]).counter
  {
    CounterGrows(h[..j], i + 1);
    SameBefore(h, j, i + 1);
    assert h[..j + 1][..j] == h[..j];
    hide Chosen, ScanVerdict;
  }

  // The record a full table gives up is, of all 64 in it, the one made longest ago.
  lemma LongestAgoGoes(h: seq<Event>, k: Key, other: nat, i: nat, j: nat)
    requires var t := BooksOf(h).table; GivesUp(t, k, Chosen(t, k)) && other < MAX_ENTRIES
    requires LastRecord(h, BooksOf(h).table[Chosen(BooksOf(h).table, k)].record.read.key, i)
    ensures BooksOf(h).table[other].Taken?
    ensures LastRecord(h, BooksOf(h).table[other].record.read.key, j) ==> i <= j
  {
    var t := BooksOf(h).table;
    ChosenIsSlotFor(t, k);
    assert t[other].Taken? && t[Chosen(t, k)].seqNo <= t[other].seqNo;
    hide BooksOf, Chosen, SlotFor, IsFor;
    if LastRecord(h, t[other].record.read.key, j) {
      StampsAreInOrder(h, Chosen(t, k), other, i, j);
    }
  }

  // The slot is another window's.
  predicate GivesUp(t: seq<Slot>, k: Key, at: nat) { at < |t| && t[at].Taken? && !IsFor(t[at], k) }

  lemma LastRecordIsOne(h: seq<Event>, k: Key, i: nat, j: nat)
    requires LastRecord(h, k, i) && LastRecord(h, k, j)
    ensures i == j
  {
    hide ScanVerdict, BooksOf;
  }

  lemma StampsAreInOrder(h: seq<Event>, at: nat, other: nat, i: nat, j: nat)
    requires at < MAX_ENTRIES && other < MAX_ENTRIES
    requires BooksOf(h).table[at].Taken? && BooksOf(h).table[other].Taken?
    requires LastRecord(h, BooksOf(h).table[at].record.read.key, i) && LastRecord(h, BooksOf(h).table[other].record.read.key, j)
    ensures BooksOf(h).table[at].seqNo <= BooksOf(h).table[other].seqNo ==> i <= j
  {
    hide BooksOf;
    var t := BooksOf(h).table;
    var a := SlotsAreLastRecords(h, at);
    var b := SlotsAreLastRecords(h, other);
    LastRecordIsOne(h, t[at].record.read.key, a, i);
    LastRecordIsOne(h, t[other].record.read.key, b, j);
    assert Records(h, i);
    hide Records, WrittenSince;
    if j < i {
      LaterIsGreater(h, j, i);
    }
  }

  // ---- "Changed". ----

  // Whatever the table has given up, a changed verdict has a reason: an earlier read
  // of the path, not written since, that saw another size or time.
  lemma ChangedHasAReason(h: seq<Event>, r: Read) returns (i: nat)
    requires ScanVerdict(BooksOf(h).table, r) == Changed
    ensures Records(h, i) && h[i].read.key.path == r.key.path && !WrittenSince(h, r.key.path, i)
    ensures h[i].read.size != r.size || h[i].read.mtime != r.mtime
  {
    var t := BooksOf(h).table;
    var at: nat :| at < |t| && Live(t[at], r.key.path);
    assert t[at].record.read.size != r.size || t[at].record.read.mtime != r.mtime;
    i := SlotsAreLastRecords(h, at);
  }

  // A read that was news when it was made: not the same bytes as the latest read of
  // its window with no write between.
  ghost predicate News(h: seq<Event>, i: nat) {
    i < |h| && h[i].Reads? && h[i].read.key.path != "" && !ReadAgain(h[..i], h[i].read)
  }

  ghost predicate LatestNews(h: seq<Event>, k: Key, i: nat) {
    && News(h, i) && h[i].read.key == k
    && forall j :: i < j < |h| && News(h, j) ==> h[j].read.key != k
  }

  // What the session still knows of a file: the latest news of a window, not written
  // over since.
  ghost predicate Standing(h: seq<Event>, i: nat) {
    i < |h| && h[i].Reads? && LatestNews(h, h[i].read.key, i) && !WrittenSince(h, h[i].read.key.path, i)
  }

  lemma NewsBefore(h: seq<Event>, i: nat)
    requires i < |h| - 1
    ensures News(h[..|h| - 1], i) <==> News(h, i)
  {
    SameBefore(h, |h| - 1, i);
    hide ReadAgain;
  }

  // The memory of a window is its latest news.
  lemma {:induction false} MemoryIsLatestNews(h: seq<Event>, k: Key) returns (i: nat)
    requires k.path != "" && k in Remembered(h)
    ensures LatestNews(h, k, i) && Remembered(h)[k] == Record(h[i].read, WrittenSince(h, k.path, i))
    decreases |h|
  {
    var n := |h| - 1;
    var g := h[..n];
    var m := Remembered(g);
    if h[n].Reads? && h[n].read.key.path != "" {
      RepeatIsProof(g, h[n].read);
    }
    hide ReadAgain, News;
    if h[n].Reads? && h[n].read.key == k && !Same(m, h[n].read) {
      i := n;
      NewsNow(h);
    } else {
      i := MemoryIsLatestNews(g, k);
      WrittenBefore(h, k.path, i);
      NewsBefore(h, i);
      forall j | i < j < |h| && News(h, j) ensures h[j].read.key != k {
        if j < n {
          NewsBefore(h, j);
        } else if h[n].Reads? && h[n].read.key == k {
          NewsNow(h);
        }
      }
    }
  }

  lemma NewsNow(h: seq<Event>)
    requires h != [] && h[|h| - 1].Reads? && h[|h| - 1].read.key.path != ""
    ensures News(h, |h| - 1) <==> !Same(Remembered(h[..|h| - 1]), h[|h| - 1].read)
  {
    RepeatIsProof(h[..|h| - 1], h[|h| - 1].read);
    hide ReadAgain, Remembered;
  }

  lemma StandingIsLive(h: seq<Event>, i: nat)
    requires Standing(h, i)
    ensures var k := h[i].read.key;
      k in Remembered(h) && Remembered(h)[k] == Record(h[i].read, false)
  {
    ReadsAreRemembered(h, i);
    var j := MemoryIsLatestNews(h, h[i].read.key);
    hide News, WrittenSince, Remembered;
    assert j == i;
  }

  lemma LiveIsStanding(h: seq<Event>, k: Key) returns (i: nat)
    requires k.path != "" && k in Remembered(h) && !Remembered(h)[k].ours
    ensures Standing(h, i) && h[i].read.key == k && Remembered(h)[k].read == h[i].read
  {
    i := MemoryIsLatestNews(h, k);
  }

  ghost predicate SeenAs(h: seq<Event>, i: nat, r: Read) {
    Standing(h, i) && h[i].read.key.path == r.key.path && h[i].read.size == r.size && h[i].read.mtime == r.mtime
  }

  // Changed, exactly: not a repeat, something is still known of the file, and none
  // of it has the file's size and time now.
  lemma ChangedIsProof(h: seq<Event>, r: Read)
    requires r.key.path != ""
    ensures VerdictOf(Remembered(h), r) == Changed <==>
      && !ReadAgain(h, r)
      && (exists i: nat :: Standing(h, i) && h[i].read.key.path == r.key.path)
      && !(exists i: nat :: SeenAs(h, i, r))
  {
    var m := Remembered(h);
    RepeatIsProof(h, r);
    hide ReadAgain, LatestNews, WrittenSince, Remembered;
    if Known(m, r.key.path) {
      var k :| k in m && k.path == r.key.path && !m[k].ours;
      var i := LiveIsStanding(h, k);
    }
    if Matches(m, r) {
      var k :| k in m && k.path == r.key.path && !m[k].ours && m[k].read.size == r.size && m[k].read.mtime == r.mtime;
      var i := LiveIsStanding(h, k);
      assert SeenAs(h, i, r);
    }
    forall i: nat | Standing(h, i) && h[i].read.key.path == r.key.path
      ensures Known(m, r.key.path) && (SeenAs(h, i, r) ==> Matches(m, r))
    {
      StandingIsLive(h, i);
    }
  }
}
