// The per-session file ledger (src/file_ledger.c): a fixed table of 64 read
// records with eviction, refined against the whole history of reads and writes. The
// unbounded memory comes first, then the table it is kept in, then the class; what
// holds over whole histories is in FileRuns.
module FileLedger {
  import opened Common

  const MAX_ENTRIES: nat := 64

  datatype Key = Key(path: string, offset: int, limit: int, numbered: int)

  // What a tool observed about one read: the window and the facts of the file.
  datatype Read = Read(key: Key, hash: nat, size: int, mtime: int)

  datatype Verdict = NoVerdict | Repeat | Changed

  // A live record; `ours` says the model wrote the path afterwards.
  datatype Record = Record(read: Read, ours: bool)

  datatype Slot = Vacant | Taken(record: Record, seqNo: nat)

  datatype Event = Reads(read: Read) | Writes(path: string)

  // ---- the unbounded memory ----------------------------------------------

  type Memory = map<Key, Record>

  predicate Same(m: Memory, r: Read) {
    r.key in m && !m[r.key].ours && m[r.key].read.hash == r.hash
  }

  ghost predicate Known(m: Memory, path: string) {
    exists k :: k in m && k.path == path && !m[k].ours
  }

  ghost predicate Matches(m: Memory, r: Read) {
    exists k :: k in m && k.path == r.key.path && !m[k].ours
      && m[k].read.size == r.size && m[k].read.mtime == r.mtime
  }

  ghost function VerdictOf(m: Memory, r: Read): Verdict {
    if r.key.path == "" then NoVerdict
    else if Same(m, r) then Repeat
    else if Known(m, r.key.path) && !Matches(m, r) then Changed
    else NoVerdict
  }

  function AfterWrite(m: Memory, path: string): Memory {
    map k | k in m :: if k.path == path then m[k].(ours := true) else m[k]
  }

  function AfterRead(m: Memory, r: Read): Memory {
    if r.key.path == "" || Same(m, r) then m else m[r.key := Record(r, false)]
  }

  function Remembered(h: seq<Event>): Memory
    decreases |h|
  {
    if h == [] then map[]
    else
      var m := Remembered(h[..|h| - 1]);
      match h[|h| - 1]
      case Reads(r) => AfterRead(m, r)
      case Writes(p) => AfterWrite(m, p)
  }

  // ---- what the memory means in terms of the history ----------------------

  // Event i is a read of `k`, and the last one.
  predicate LatestRead(h: seq<Event>, k: Key, i: nat) {
    && i < |h| && h[i].Reads? && h[i].read.key == k
    && forall j :: i < j < |h| && h[j].Reads? ==> h[j].read.key != k
  }

  predicate WrittenSince(h: seq<Event>, path: string, i: nat) {
    exists j :: i < j < |h| && h[j] == Writes(path)
  }

  // The record of a key is exactly what its latest read saw, and it is marked
  // ours exactly when its path was written after that read.
  lemma {:induction false} MemoryIsLatestRead(h: seq<Event>, k: Key) returns (i: nat)
    requires k.path != ""
    requires k in Remembered(h)
    ensures LatestRead(h, k, i)
    ensures Remembered(h)[k].read.key == k && Remembered(h)[k].read.hash == h[i].read.hash
    ensures Remembered(h)[k].ours <==> WrittenSince(h, k.path, i)
    decreases |h|
  {
    var n := |h| - 1;
    var g, last := h[..n], h[n];
    if last.Reads? && last.read.key == k {
      i := n;
      if Same(Remembered(g), last.read) {
        var _ := MemoryIsLatestRead(g, k);
      }
    } else {
      i := MemoryIsLatestRead(g, k);
      assert forall j :: 0 <= j < n ==> g[j] == h[j];
      if j :| i < j < |g| && g[j] == Writes(k.path) {
        assert h[j] == Writes(k.path);
      }
    }
  }

  // A key that was ever read is remembered.
  lemma {:induction false} ReadsAreRemembered(h: seq<Event>, i: nat)
    requires i < |h| && h[i].Reads? && h[i].read.key.path != ""
    ensures h[i].read.key in Remembered(h)
    decreases |h|
  {
    var n := |h| - 1;
    if i < n {
      assert h[..n][i] == h[i];
      ReadsAreRemembered(h[..n], i);
    }
  }

  ghost predicate ReadAgain(h: seq<Event>, r: Read) {
    exists i: nat :: LatestRead(h, r.key, i) && h[i].read.hash == r.hash && !WrittenSince(h, r.key.path, i)
  }

  // A repeat is proof: the latest read of that very window returned the same
  // bytes, and the model has not written the path since. It is also complete.
  lemma RepeatIsProof(h: seq<Event>, r: Read)
    requires r.key.path != ""
    ensures VerdictOf(Remembered(h), r) == Repeat <==> ReadAgain(h, r)
  {
    var m := Remembered(h);
    if r.key in m {
      var i := MemoryIsLatestRead(h, r.key);
      assert forall j: nat :: LatestRead(h, r.key, j) ==> j == i;
    } else if ReadAgain(h, r) {
      var j: nat :| LatestRead(h, r.key, j);
      ReadsAreRemembered(h, j);
      assert false;
    }
  }

  // ---- the table ---------------------------------------------------------

  // What a live slot says is what the memory says, as far as a repeat is concerned.
  predicate Agrees(table: seq<Slot>, m: Memory) {
    forall i :: 0 <= i < |table| && table[i].Taken? ==>
      var r := table[i].record;
      && r.read.key.path != "" && r.read.key in m
      && r.read.hash == m[r.read.key].read.hash && r.ours == m[r.read.key].ours
  }

  predicate Distinct(table: seq<Slot>) {
    forall i, j :: 0 <= i < j < |table| && table[i].Taken? && table[j].Taken? ==>
      table[i].record.read.key != table[j].record.read.key && table[i].seqNo != table[j].seqNo
  }

  predicate Has(table: seq<Slot>, r: Record) {
    exists i :: 0 <= i < |table| && table[i].Taken? && table[i].record == r
  }

  // Nothing has been forgotten while at most 64 keys were ever recorded.
  predicate Complete(table: seq<Slot>, m: Memory) {
    |m| <= MAX_ENTRIES ==> forall k :: k in m ==> m[k].read.key == k && Has(table, m[k])
  }

  predicate Stamped(table: seq<Slot>, counter: nat) {
    forall i :: 0 <= i < |table| && table[i].Taken? ==> table[i].seqNo <= counter
  }

  predicate Table(table: seq<Slot>, m: Memory, counter: nat) {
    |table| == MAX_ENTRIES && Agrees(table, m) && Distinct(table) && Complete(table, m) && Stamped(table, counter)
  }

  predicate IsFor(s: Slot, k: Key) {
    s.Taken? && s.record.read.key == k
  }

  // The slot entry_for answers: the key's own, else a vacant one, else the one
  // recorded longest ago.
  predicate SlotFor(table: seq<Slot>, k: Key, at: nat) {
    && at < |table|
    && (IsFor(table[at], k) || forall i :: 0 <= i < |table| ==> !IsFor(table[i], k))
    && (table[at].Taken? && !IsFor(table[at], k) ==>
          forall i :: 0 <= i < |table| ==> table[i].Taken? && table[at].seqNo <= table[i].seqNo)
  }

  function OwnSlot(table: seq<Slot>, k: Key, i: nat): (at: nat)
    requires i <= |table|
    ensures i <= at <= |table| && (at < |table| ==> IsFor(table[at], k))
    ensures forall j :: i <= j < at ==> !IsFor(table[j], k)
    decreases |table| - i
  {
    if i < |table| && !IsFor(table[i], k) then OwnSlot(table, k, i + 1) else i
  }

  function FirstVacant(table: seq<Slot>, i: nat): (at: nat)
    requires i <= |table|
    ensures i <= at <= |table| && (at < |table| ==> table[at].Vacant?)
    ensures forall j :: i <= j < at ==> table[j].Taken?
    decreases |table| - i
  {
    if i < |table| && table[i].Taken? then FirstVacant(table, i + 1) else i
  }

  // The first of the taken slots before n with the least stamp; n if there is none.
  function Oldest(table: seq<Slot>, n: nat): (at: nat)
    requires n <= |table|
    ensures at <= n && (at < n ==> table[at].Taken?)
    ensures forall j :: 0 <= j < n && table[j].Taken? ==> at < n && table[at].seqNo <= table[j].seqNo
  {
    if n == 0 then 0
    else
      var o := Oldest(table, n - 1);
      if table[n - 1].Taken? && (o == n - 1 || table[n - 1].seqNo < table[o].seqNo) then n - 1
      else if o == n - 1 then n else o
  }

  lemma OldestStep(table: seq<Slot>, n: nat)
    requires n < |table|
    ensures var o := Oldest(table, n); var p := Oldest(table, n + 1);
      if table[n].Taken? && (o == n || table[n].seqNo < table[o].seqNo) then p == n else p == if o == n then n + 1 else o
  {
  }

  // entry_for.
  function Chosen(table: seq<Slot>, k: Key): nat {
    var own, vacant := OwnSlot(table, k, 0), FirstVacant(table, 0);
    if own < |table| then own else if vacant < |table| then vacant else Oldest(table, |table|)
  }

  // One slot of entry_for's scan.
  lemma ScanStep(table: seq<Slot>, k: Key, i: nat)
    requires i < |table| && i <= OwnSlot(table, k, 0)
    ensures IsFor(table[i], k) <==> table[i].Taken? && table[i].record.read.key == k
    ensures IsFor(table[i], k) ==> Chosen(table, k) == i
    ensures !IsFor(table[i], k) ==> i + 1 <= OwnSlot(table, k, 0)
    ensures table[i].Vacant? && FirstVacant(table, 0) >= i ==> FirstVacant(table, 0) == i
    ensures table[i].Taken? ==> FirstVacant(table, 0) != i
  {
  }

  lemma NoneOwn(table: seq<Slot>, k: Key)
    requires table != [] && OwnSlot(table, k, 0) == |table|
    ensures FirstVacant(table, 0) < |table| ==> Chosen(table, k) == FirstVacant(table, 0)
    ensures FirstVacant(table, 0) == |table| ==> Oldest(table, |table|) < |table| && Chosen(table, k) == Oldest(table, |table|)
  {
    assert FirstVacant(table, 0) == |table| ==> table[0].Taken?;
  }

  // What the first i slots have shown: none is the key's own; the first vacant one and
  // the least recently recorded one, if there is one.
  predicate Scanned(table: seq<Slot>, k: Key, i: nat, vacant: Option<nat>, oldest: Option<nat>) {
    && i <= |table| && i <= OwnSlot(table, k, 0)
    && (vacant.Some? <==> FirstVacant(table, 0) < i) && (vacant.Some? ==> vacant.value == FirstVacant(table, 0))
    && (oldest.Some? <==> Oldest(table, i) < i) && (oldest.Some? ==> oldest.value == Oldest(table, i))
  }

  lemma ScanStarts(table: seq<Slot>, k: Key)
    ensures Scanned(table, k, 0, None, None)
  {
  }

  lemma ScanGoesOn(table: seq<Slot>, k: Key, i: nat, vacant: Option<nat>, oldest: Option<nat>)
    requires i < |table| && Scanned(table, k, i, vacant, oldest)
    ensures oldest.Some? ==> oldest.value < i && table[oldest.value].Taken?
    ensures table[i].Vacant? ==> Scanned(table, k, i + 1, if vacant.None? then Some(i) else vacant, oldest)
    ensures table[i].Taken? && table[i].record.read.key == k ==> Chosen(table, k) == i
    ensures table[i].Taken? && table[i].record.read.key != k ==>
      Scanned(table, k, i + 1, vacant, if oldest.None? || table[i].seqNo < table[oldest.value].seqNo then Some(i) else oldest)
  {
    ScanStep(table, k, i);
    OldestStep(table, i);
    hide OwnSlot, FirstVacant, Oldest, Chosen;
  }

  lemma ScanEnds(table: seq<Slot>, k: Key, vacant: Option<nat>, oldest: Option<nat>)
    requires table != [] && Scanned(table, k, |table|, vacant, oldest)
    ensures Chosen(table, k) < |table|
    ensures vacant.Some? ==> Chosen(table, k) == vacant.value
    ensures vacant.None? ==> oldest.Some? && Chosen(table, k) == oldest.value
  {
    NoneOwn(table, k);
    hide OwnSlot, FirstVacant, Oldest, Chosen;
  }

  lemma ChosenIsSlotFor(table: seq<Slot>, k: Key)
    requires table != []
    ensures SlotFor(table, k, Chosen(table, k))
  {
    if OwnSlot(table, k, 0) == |table| && FirstVacant(table, 0) == |table| {
      assert table[0].Taken?;
    }
  }

  // A table without a vacancy remembers 64 different keys.
  lemma {:induction false} FullTableCounts(table: seq<Slot>, n: nat) returns (keys: set<Key>)
    requires n <= |table| && Distinct(table)
    requires forall i :: 0 <= i < n ==> table[i].Taken?
    ensures |keys| == n
    ensures forall k :: k in keys ==> exists i :: 0 <= i < n && IsFor(table[i], k)
  {
    if n == 0 {
      keys := {};
    } else {
      var fewer := FullTableCounts(table, n - 1);
      keys := fewer + {table[n - 1].record.read.key};
      assert IsFor(table[n - 1], table[n - 1].record.read.key);
    }
  }

  // A read evicts another record only when 64 other keys have been recorded.
  lemma EvictionIsForced(table: seq<Slot>, m: Memory, r: Read, at: nat)
    requires |table| == MAX_ENTRIES && Agrees(table, m) && Distinct(table)
    requires SlotFor(table, r.key, at) && table[at].Taken? && !IsFor(table[at], r.key)
    ensures |m.Keys - {r.key}| >= MAX_ENTRIES
    ensures |m.Keys + {r.key}| > MAX_ENTRIES
  {
    var keys := FullTableCounts(table, |table|);
    assert keys <= m.Keys - {r.key};
    SubsetSize(keys, m.Keys - {r.key});
    assert m.Keys + {r.key} == (m.Keys - {r.key}) + {r.key};
  }

  lemma {:induction false} SubsetSize<T>(a: set<T>, b: set<T>)
    requires a <= b
    ensures |a| <= |b|
    ensures |a| == |b| ==> a == b
  {
    assert b == a + (b - a);
  }

  lemma NoEvictionYet(table: seq<Slot>, m: Memory, r: Read, at: nat)
    requires |table| == MAX_ENTRIES && Agrees(table, m) && Distinct(table) && SlotFor(table, r.key, at)
    requires |m.Keys + {r.key}| <= MAX_ENTRIES
    ensures table[at].Vacant? || IsFor(table[at], r.key)
  {
    if table[at].Taken? && !IsFor(table[at], r.key) {
      EvictionIsForced(table, m, r, at);
    }
  }

  lemma RecordComplete(table: seq<Slot>, m: Memory, r: Read, at: nat, stamp: nat)
    requires |table| == MAX_ENTRIES && Agrees(table, m) && Distinct(table) && Complete(table, m)
    requires SlotFor(table, r.key, at) && r.key.path != ""
    requires |m| <= MAX_ENTRIES ==> !Same(m, r)
    ensures Complete(table[at := Taken(Record(r, false), stamp)], AfterRead(m, r))
  {
    var t, n := table[at := Taken(Record(r, false), stamp)], AfterRead(m, r);
    if |m.Keys + {r.key}| <= MAX_ENTRIES {
      SubsetSize(m.Keys, m.Keys + {r.key});
      NoEvictionYet(table, m, r, at);
      assert n == m[r.key := Record(r, false)];
      assert t[at].record == n[r.key];
      forall k | k in n && k != r.key ensures n[k].read.key == k && Has(t, n[k]) {
        var i :| 0 <= i < |table| && table[i].Taken? && table[i].record == m[k];
        assert t[i].record == n[k];
      }
    } else {
      assert Same(m, r) ==> r.key in m;
      assert n.Keys == m.Keys + {r.key};
    }
  }

  // Recording a read into the slot entry_for chose.
  lemma RecordKeepsTable(table: seq<Slot>, m: Memory, counter: nat, r: Read, at: nat)
    requires Table(table, m, counter) && SlotFor(table, r.key, at) && r.key.path != ""
    requires |m| <= MAX_ENTRIES ==> !Same(m, r)
    ensures Table(table[at := Taken(Record(r, false), counter + 1)], AfterRead(m, r), counter + 1)
  {
    RecordComplete(table, m, r, at, counter + 1);
  }

  function MarkOurs(table: seq<Slot>, path: string): (t: seq<Slot>)
    ensures |t| == |table|
    ensures forall i :: 0 <= i < |t| ==> t[i] == Marked(table[i], path)
  {
    seq(|table|, i requires 0 <= i < |table| => Marked(table[i], path))
  }

  function Marked(s: Slot, path: string): Slot {
    if s.Taken? && s.record.read.key.path == path then s.(record := s.record.(ours := true)) else s
  }

  lemma WriteComplete(table: seq<Slot>, m: Memory, path: string)
    requires Complete(table, m)
    ensures Complete(MarkOurs(table, path), AfterWrite(m, path))
  {
    var t, n := MarkOurs(table, path), AfterWrite(m, path);
    assert n.Keys == m.Keys;
    if |n| <= MAX_ENTRIES {
      assert |n.Keys| == |m.Keys|;
      forall k | k in n ensures n[k].read.key == k && Has(t, n[k]) {
        var i :| 0 <= i < |table| && table[i].Taken? && table[i].record == m[k];
        assert t[i].record == n[k];
      }
    }
  }

  lemma WriteKeepsTable(table: seq<Slot>, m: Memory, counter: nat, path: string)
    requires Table(table, m, counter)
    ensures Table(MarkOurs(table, path), AfterWrite(m, path), counter)
  {
    WriteComplete(table, m, path);
    var t := MarkOurs(table, path);
    assert Distinct(t) && Stamped(t, counter);
  }

  // What the table scan of a read decides.
  predicate Live(s: Slot, path: string) {
    s.Taken? && !s.record.ours && s.record.read.key.path == path
  }

  predicate KnownIn(table: seq<Slot>, path: string) {
    exists i :: 0 <= i < |table| && Live(table[i], path)
  }

  predicate MatchesIn(table: seq<Slot>, r: Read) {
    exists i :: 0 <= i < |table| && Live(table[i], r.key.path)
      && table[i].record.read.size == r.size && table[i].record.read.mtime == r.mtime
  }

  predicate RepeatsIn(table: seq<Slot>, r: Read) {
    exists i :: 0 <= i < |table| && Live(table[i], r.key.path)
      && table[i].record.read.key == r.key && table[i].record.read.hash == r.hash
  }

  function ScanVerdict(table: seq<Slot>, r: Read): Verdict {
    if r.key.path == "" then NoVerdict
    else if RepeatsIn(table, r) then Repeat
    else if KnownIn(table, r.key.path) && !MatchesIn(table, r) then Changed
    else NoVerdict
  }

  lemma EmptyPathSaysNothing(table: seq<Slot>, r: Read)
    requires r.key.path == ""
    ensures ScanVerdict(table, r) == NoVerdict
  {
  }

  // Nothing forgotten: the slots are the memory's records.
  predicate Mirrors(table: seq<Slot>, m: Memory) {
    && (forall i :: 0 <= i < |table| && table[i].Taken? ==>
          table[i].record.read.key in m && m[table[i].record.read.key] == table[i].record)
    && (forall k :: k in m ==> m[k].read.key == k && Has(table, m[k]))
  }

  lemma TableMirrors(table: seq<Slot>, m: Memory, counter: nat)
    requires Table(table, m, counter) && |m| <= MAX_ENTRIES
    ensures Mirrors(table, m)
  {
  }

  lemma RepeatIsSame(table: seq<Slot>, m: Memory, r: Read)
    requires Mirrors(table, m)
    ensures RepeatsIn(table, r) <==> Same(m, r)
  {
    if Same(m, r) {
      var i :| 0 <= i < |table| && table[i].Taken? && table[i].record == m[r.key];
    }
  }

  lemma LiveIsKnown(table: seq<Slot>, m: Memory, r: Read)
    requires Mirrors(table, m)
    ensures KnownIn(table, r.key.path) <==> Known(m, r.key.path)
  {
    if Known(m, r.key.path) {
      var k :| k in m && k.path == r.key.path && !m[k].ours;
      var i :| 0 <= i < |table| && table[i].Taken? && table[i].record == m[k];
      assert Live(table[i], r.key.path);
    }
  }

  lemma MatchIsSeen(table: seq<Slot>, m: Memory, r: Read)
    requires Mirrors(table, m)
    ensures MatchesIn(table, r) <==> Matches(m, r)
  {
    if Matches(m, r) {
      var k :| k in m && k.path == r.key.path && !m[k].ours && m[k].read.size == r.size && m[k].read.mtime == r.mtime;
      var i :| 0 <= i < |table| && table[i].Taken? && table[i].record == m[k];
      assert Live(table[i], r.key.path);
    }
  }

  // The bounded table never claims a repeat the unbounded memory would not, and
  // agrees with it on everything while at most 64 keys were recorded.
  lemma ScanAgreesWithMemory(table: seq<Slot>, m: Memory, counter: nat, r: Read)
    requires Table(table, m, counter)
    ensures ScanVerdict(table, r) == Repeat ==> VerdictOf(m, r) == Repeat
    ensures |m| <= MAX_ENTRIES ==> ScanVerdict(table, r) == VerdictOf(m, r)
  {
    if |m| <= MAX_ENTRIES {
      TableMirrors(table, m, counter);
      hide Table, Mirrors, RepeatsIn, KnownIn, MatchesIn, Same, Known, Matches;
      RepeatIsSame(table, m, r);
      LiveIsKnown(table, m, r);
      MatchIsSeen(table, m, r);
    }
  }

  // ---- the table of a history --------------------------------------------

  datatype Books = Books(table: seq<Slot>, counter: nat)

  // nm_file_ledger_note_read and nm_file_ledger_note_write.
  function Apply(b: Books, ev: Event): (c: Books)
    requires |b.table| == MAX_ENTRIES
    ensures |c.table| == MAX_ENTRIES
  {
    match ev
    case Reads(r) =>
      if r.key.path == "" || ScanVerdict(b.table, r) == Repeat then b
      else
        ChosenIsSlotFor(b.table, r.key);
        Books(b.table[Chosen(b.table, r.key) := Taken(Record(r, false), b.counter + 1)], b.counter + 1)
    case Writes(path) => b.(table := MarkOurs(b.table, path))
  }

  function BooksOf(h: seq<Event>): (b: Books)
    ensures |b.table| == MAX_ENTRIES
  {
    if h == [] then Books(seq(MAX_ENTRIES, i => Vacant), 0) else Apply(BooksOf(h[..|h| - 1]), h[|h| - 1])
  }

  lemma OneMoreEvent(h: seq<Event>, ev: Event)
    ensures BooksOf(h + [ev]) == Apply(BooksOf(h), ev)
  {
    assert (h + [ev])[..|h|] == h;
  }

  lemma AppliedRead(b: Books, r: Read)
    requires |b.table| == MAX_ENTRIES
    ensures Apply(b, Reads(r)) == if r.key.path == "" || ScanVerdict(b.table, r) == Repeat then b
      else Books(b.table[Chosen(b.table, r.key) := Taken(Record(r, false), b.counter + 1)], b.counter + 1)
    ensures SlotFor(b.table, r.key, Chosen(b.table, r.key))
  {
    hide Chosen, ScanVerdict, SlotFor;
    ChosenIsSlotFor(b.table, r.key);
  }

  lemma RecordingRule(m: Memory, table: seq<Slot>, counter: nat, r: Read)
    requires Table(table, m, counter) && r.key.path != ""
    ensures |table| == MAX_ENTRIES
    ensures ScanVerdict(table, r) == Repeat ==> AfterRead(m, r) == m
    ensures ScanVerdict(table, r) != Repeat && |m| <= MAX_ENTRIES ==> !Same(m, r)
  {
    assert |table| == MAX_ENTRIES;
    hide Table, ScanVerdict, Same, Known, Matches;
    ScanAgreesWithMemory(table, m, counter, r);
  }

  lemma NamelessRead(m: Memory, r: Read)
    ensures r.key.path == "" ==> AfterRead(m, r) == m
  {
  }

  lemma ReadKeepsTable(b: Books, m: Memory, r: Read)
    requires Table(b.table, m, b.counter)
    ensures Table(Apply(b, Reads(r)).table, AfterRead(m, r), Apply(b, Reads(r)).counter)
  {
    AppliedRead(b, r);
    NamelessRead(m, r);
    hide Table, Apply, Chosen, ScanVerdict, SlotFor, Same, AfterRead;
    if r.key.path != "" {
      RecordingRule(m, b.table, b.counter, r);
      if ScanVerdict(b.table, r) != Repeat {
        RecordKeepsTable(b.table, m, b.counter, r, Chosen(b.table, r.key));
      }
    }
  }

  // After every history the bounded table agrees with the unbounded memory.
  lemma {:induction false} EveryHistoryKeepsTable(h: seq<Event>)
    ensures Table(BooksOf(h).table, Remembered(h), BooksOf(h).counter)
  {
    if h != [] {
      var g, last := h[..|h| - 1], h[|h| - 1];
      EveryHistoryKeepsTable(g);
      hide Table, BooksOf, AfterRead, AfterWrite;
      match last
      case Reads(r) => ReadKeepsTable(BooksOf(g), Remembered(g), r);
      case Writes(path) => WriteKeepsTable(BooksOf(g).table, Remembered(g), BooksOf(g).counter, path);
    }
  }

  class Ledger {
    var e: array<Slot>
    var counter: nat
    ghost var history: seq<Event>

    ghost function Contents(): Books
      reads this, e
    {
      Books(e[..], counter)
    }

    ghost predicate Valid()
      reads this, e
    {
      e.Length == MAX_ENTRIES && Contents() == BooksOf(history)
    }

    constructor ()
      ensures Valid() && fresh(e) && history == []
    {
      e := new Slot[MAX_ENTRIES](_ => Vacant);
      counter := 0;
      history := [];
      new;
      assert e[..] == BooksOf([]).table;
    }

    // entry_for, before the chosen record is overwritten.
    method EntryFor(k: Key) returns (at: nat)
      requires Valid()
      ensures at == Chosen(e[..], k) && SlotFor(e[..], k, at)
    {
      ghost var t := e[..];
      ChosenIsSlotFor(t, k);
      assert |t| == MAX_ENTRIES;
      hide SlotFor, BooksOf, OwnSlot, FirstVacant, Oldest, Chosen, IsFor, Scanned;
      var vacant: Option<nat>, oldest: Option<nat> := None, None;
      ScanStarts(t, k);
      for i := 0 to e.Length
        invariant Scanned(t, k, i, vacant, oldest)
      {
        ScanGoesOn(t, k, i, vacant, oldest);
        assert e[i] == t[i] && (oldest.Some? ==> e[oldest.value] == t[oldest.value]);
        if e[i].Vacant? {
          if vacant.None? {
            vacant := Some(i);
          }
          continue;
        }
        if e[i].record.read.key == k {
          return i;
        }
        if oldest.None? || e[i].seqNo < e[oldest.value].seqNo {
          oldest := Some(i);
        }
      }
      ScanEnds(t, k, vacant, oldest);
      if vacant.Some? {
        return vacant.value;
      }
      return oldest.value;
    }

    // record: overwrite the chosen slot with the newest knowledge of the window.
    method Store(r: Read) returns (ghost at: nat)
      requires Valid() && r.key.path != ""
      modifies this`counter, e
      ensures at == Chosen(old(e[..]), r.key) && SlotFor(old(e[..]), r.key, at)
      ensures e[..] == old(e[..])[at := Taken(Record(r, false), counter)] && counter == old(counter) + 1
    {
      hide BooksOf, Chosen;
      var i := EntryFor(r.key);
      counter := counter + 1;
      e[i] := Taken(Record(r, false), counter);
      at := i;
    }

    // nm_file_ledger_note_read.
    method NoteRead(r: Read) returns (v: Verdict, ghost at: nat)
      requires Valid()
      modifies this, e
      ensures Valid() && e == old(e)
      ensures history == old(history) + [Reads(r)]
      ensures v == ScanVerdict(old(e[..]), r)
      ensures v == Repeat ==> ReadAgain(old(history), r)
      ensures |Remembered(old(history))| <= MAX_ENTRIES ==> v == VerdictOf(Remembered(old(history)), r)
      ensures if v == Repeat || r.key.path == "" then e[..] == old(e[..])
        else SlotFor(old(e[..]), r.key, at) && e[..] == old(e[..])[at := Taken(Record(r, false), counter)]
    {
      EveryHistoryKeepsTable(history);
      ScanAgreesWithMemory(e[..], Remembered(history), counter, r);
      OneMoreEvent(history, Reads(r));
      at := 0;
      hide BooksOf, Chosen, Table, SlotFor, ScanVerdict, VerdictOf, ReadAgain, Remembered;
      if r.key.path == "" {
        v := NoVerdict;
        EmptyPathSaysNothing(e[..], r);
      } else {
        RepeatIsProof(history, r);
        v := Scan(r);
        if v != Repeat {
          at := Store(r);
        }
      }
      history := history + [Reads(r)];
    }

    // The pass over the table that answers a read.
    method Scan(r: Read) returns (v: Verdict)
      requires r.key.path != ""
      ensures v == ScanVerdict(e[..], r)
    {
      var known, sameFile := false, false;
      v := NoVerdict;
      for i := 0 to e.Length
        invariant known <==> KnownIn(e[..i], r.key.path)
        invariant sameFile <==> MatchesIn(e[..i], r)
        invariant v == if RepeatsIn(e[..i], r) then Repeat else NoVerdict
      {
        OneMoreSlot(e[..i], e[i], r);
        assert e[..i + 1] == e[..i] + [e[i]];
        if e[i].Vacant? || e[i].record.ours {
          continue;
        }
        var seen := e[i].record.read;
        if seen.key.path != r.key.path {
          continue;
        }
        known := true;
        if seen.size == r.size && seen.mtime == r.mtime {
          sameFile := true;
        }
        if v != Repeat && seen.key == r.key && seen.hash == r.hash {
          v := Repeat;
        }
      }
      assert e[..e.Length] == e[..];
      if v == NoVerdict && known && !sameFile {
        v := Changed;
      }
    }

    // nm_file_ledger_note_write.
    method NoteWrite(path: string)
      requires Valid()
      modifies this`history, e
      ensures Valid()
      ensures history == if path == "" then old(history) else old(history) + [Writes(path)]
      ensures e[..] == if path == "" then old(e[..]) else MarkOurs(old(e[..]), path)
    {
      if path == "" {
        return;
      }
      OneMoreEvent(history, Writes(path));
      hide BooksOf, MarkOurs;
      MarkAll(path);
      history := history + [Writes(path)];
    }

    method MarkAll(path: string)
      modifies e
      ensures e[..] == MarkOurs(old(e[..]), path)
    {
      ghost var before := e[..];
      for i := 0 to e.Length
        invariant forall j :: 0 <= j < i ==> e[j] == Marked(before[j], path)
        invariant forall j :: i <= j < e.Length ==> e[j] == before[j]
      {
        if e[i].Taken? && e[i].record.read.key.path == path {
          e[i] := e[i].(record := e[i].record.(ours := true));
        }
      }
      assert e[..] == MarkOurs(before, path);
    }

    // nm_file_ledger_count.
    method Count() returns (n: nat)
      ensures n == |set i | 0 <= i < e.Length && e[i].Taken?|
    {
      n := 0;
      for i := 0 to e.Length
        invariant n == |set j | 0 <= j < i && e[j].Taken?|
      {
        ghost var before := set j | 0 <= j < i && e[j].Taken?;
        ghost var upto := set j | 0 <= j < i + 1 && e[j].Taken?;
        if e[i].Taken? {
          assert upto == before + {i};
          n := n + 1;
        } else {
          assert upto == before;
        }
      }
    }
  }

  lemma OneMoreSlot(table: seq<Slot>, s: Slot, r: Read)
    ensures KnownIn(table + [s], r.key.path) <==> KnownIn(table, r.key.path) || Live(s, r.key.path)
    ensures MatchesIn(table + [s], r) <==> (MatchesIn(table, r)
      || (Live(s, r.key.path) && s.record.read.size == r.size && s.record.read.mtime == r.mtime))
    ensures RepeatsIn(table + [s], r) <==> (RepeatsIn(table, r)
      || (Live(s, r.key.path) && s.record.read.key == r.key && s.record.read.hash == r.hash))
  {
    var t := table + [s];
    assert t[|table|] == s;
    assert forall i :: 0 <= i < |table| ==> t[i] == table[i];
  }
}
