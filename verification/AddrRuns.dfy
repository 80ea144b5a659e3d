// Whole runs of the address table (src/addr_cache.c): what a name finds after any
// puts and gets, and when the answer a full table gives up is its oldest.
module AddrRuns {
  import opened AddrCache

  // `now` is the clock a call reads first, `stored` the one it stamps with.
  datatype Event =
    | Put(host: string, port: int, addrs: seq<Addr>, now: real, stored: real)
    | Get(host: string, port: int, max: int, now: real)

  const VACANT := Entry("", 0, 0.0, [])

  function Start(): State { State(seq(ENTRIES, i => VACANT), 0) }

  predicate Sized(s: State) { |s.table| == ENTRIES && s.hand < ENTRIES }

  function Apply(s: State, e: Event): (r: State)
    requires Sized(s)
    ensures Sized(r)
  {
    match e
    case Put(host, port, addrs, now, stored) => PutInto(s, host, port, addrs, now, stored)
    case Get(host, port, max, now) => AfterGet(s, host, port, max, now)
  }

  function Run(es: seq<Event>): (s: State)
    ensures Sized(s)
  {
    if es == [] then Start() else Apply(Run(es[..|es| - 1]), es[|es| - 1])
  }

  function Ends(e: Event): real { if e.Put? then e.stored else e.now }

  function Clock(es: seq<Event>): real { if es == [] then 0.0 else Ends(es[|es| - 1]) }

  predicate Accepted(e: Event) { e.Put? && Acceptable(e.host, e.addrs) }

  predicate IsPutOf(e: Event, host: string, port: int) { Accepted(e) && IsKey(host, port, e.host, e.port) }

  // What an accepted put may find: its own name, expired or not ...
  predicate Refreshes(s: State, e: Event) { Accepted(e) && OwnAt(s.table, e.host, e.port, 0) < |s.table| }

  // ... or a slot whose answer has expired ...
  predicate Reuses(s: State, e: Event) {
    Accepted(e) && !Refreshes(s, e)
    && var free := FreeAt(s.table, e.now, 0); free < |s.table| && s.table[free].host != ""
  }

  // ... or a table that is all live.
  predicate Evicts(s: State, e: Event) { Accepted(e) && Displaces(s, e.host, e.port, e.now) }

  // The clock never runs back, and a put refreshes a name or reuses an expired slot
  // only in the runs that may.
  predicate Allowed(s: State, clock: real, e: Event, refresh: bool, reuse: bool) {
    && clock <= e.now && (e.Put? ==> e.now <= e.stored)
    && (Refreshes(s, e) ==> refresh) && (Reuses(s, e) ==> reuse)
  }

  predicate AllowedRun(es: seq<Event>, refresh: bool, reuse: bool) {
    es == [] || (AllowedRun(es[..|es| - 1], refresh, reuse)
                 && Allowed(Run(es[..|es| - 1]), Clock(es[..|es| - 1]), es[|es| - 1], refresh, reuse))
  }

  lemma RunOneMore(es: seq<Event>, e: Event, refresh: bool, reuse: bool)
    ensures Run(es + [e]) == Apply(Run(es), e)
    ensures AllowedRun(es + [e], refresh, reuse) <==>
      AllowedRun(es, refresh, reuse) && Allowed(Run(es), Clock(es), e, refresh, reuse)
    ensures Clock(es + [e]) == Ends(e)
  {
    assert (es + [e])[..|es|] == es;
  }

  lemma RunLast(es: seq<Event>, refresh: bool, reuse: bool)
    requires es != []
    ensures var before, e := es[..|es| - 1], es[|es| - 1];
      && Run(es) == Apply(Run(before), e) && Clock(es) == Ends(e)
      && (AllowedRun(es, refresh, reuse) <==> AllowedRun(before, refresh, reuse) && Allowed(Run(before), Clock(before), e, refresh, reuse))
  {
  }

  // ---- Which answer goes. ----

  predicate OldestAtHand(s: State)
    requires Sized(s)
  {
    forall i :: 0 <= i < ENTRIES ==> s.table[s.hand].expires <= s.table[i].expires
  }

  // Every answer that was given up was the oldest of the eight.
  predicate OldestGoes(es: seq<Event>) {
    forall k :: 0 <= k < |es| && Evicts(Run(es[..k]), es[k]) ==> OldestAtHand(Run(es[..k]))
  }

  // The i-th slot from the hand round the table.
  function Round(s: State, i: nat): Entry
    requires Sized(s) && i < ENTRIES
  {
    s.table[Slot(s.hand, i)]
  }

  function Slot(hand: nat, i: nat): nat {
    if hand + i < ENTRIES then hand + i else hand + i - ENTRIES
  }

  predicate Used(e: Entry) { e.host != "" }

  // Read from the hand round the table, the used slots come first and never get
  // older; the hand stays at 0 until all are used.
  predicate InOrder(s: State, clock: real) {
    && Sized(s)
    && (forall i, j :: 0 <= i < j < ENTRIES && Used(Round(s, j)) ==> Used(Round(s, i)) && Round(s, i).expires <= Round(s, j).expires)
    && (s.hand != 0 ==> forall i :: 0 <= i < ENTRIES ==> Used(s.table[i]))
    && (forall i :: 0 <= i < ENTRIES ==> if Used(s.table[i]) then s.table[i].expires <= clock + TTL else s.table[i].addrs == [])
  }

  function Back(hand: nat, k: nat): (i: nat)
    requires hand < ENTRIES && k < ENTRIES
    ensures i < ENTRIES && Slot(hand, i) == k
  {
    if hand <= k then k - hand else k + ENTRIES - hand
  }

  lemma RoundReaches(s: State, k: nat)
    requires Sized(s) && k < ENTRIES
    ensures Round(s, Back(s.hand, k)) == s.table[k]
  {
  }

  lemma InOrderMeansOldest(s: State, clock: real)
    requires InOrder(s, clock) && forall i :: 0 <= i < ENTRIES ==> Used(s.table[i])
    ensures OldestAtHand(s)
  {
    assert Round(s, 0) == s.table[s.hand];
    forall k | 0 <= k < ENTRIES ensures s.table[s.hand].expires <= s.table[k].expires {
      RoundReaches(s, k);
      var i := Back(s.hand, k);
      assert i == 0 || Round(s, 0).expires <= Round(s, i).expires;
    }
  }

  // Taking the first slot never used, while the table fills.
  lemma FillingKeepsOrder(s: State, clock: real, at: nat, e: Entry, later: real)
    requires InOrder(s, clock) && at < ENTRIES && !Used(s.table[at]) && Used(e) && clock <= later && e.expires == later + TTL
    requires forall i :: 0 <= i < at ==> Used(s.table[i])
    ensures InOrder(State(s.table[at := e], s.hand), later)
  {
    assert s.hand == 0;
    var t := State(s.table[at := e], 0);
    assert forall i :: 0 <= i < ENTRIES ==> Round(s, i) == s.table[i] && Round(t, i) == t.table[i];
  }

  // Giving up the hand's answer turns the table by one.
  lemma EvictingKeepsOrder(s: State, clock: real, e: Entry, later: real)
    requires InOrder(s, clock) && Used(e) && clock <= later && e.expires == later + TTL
    requires forall i :: 0 <= i < ENTRIES ==> Used(s.table[i])
    ensures InOrder(State(s.table[s.hand := e], (s.hand + 1) % ENTRIES), later)
  {
    var t := State(s.table[s.hand := e], (s.hand + 1) % ENTRIES);
    TurnedByOne(s, t, e);
    hide Round;
  }

  lemma TurnedByOne(s: State, t: State, e: Entry)
    requires Sized(s) && t == State(s.table[s.hand := e], (s.hand + 1) % ENTRIES)
    ensures forall i :: 0 <= i < ENTRIES - 1 ==> Round(t, i) == Round(s, i + 1)
    ensures Round(t, ENTRIES - 1) == e
  {
  }

  // Rewriting the p-th slot of a full table in order keeps the order exactly when
  // nothing after it is older than the new answer: a refreshed name or a reused
  // slot is out of place unless it was the newest.
  lemma RewritingKeepsOrderIff(s: State, clock: real, p: nat, e: Entry, later: real)
    requires InOrder(s, clock) && Used(e) && clock <= later && e.expires == later + TTL && p < ENTRIES
    requires forall i :: 0 <= i < ENTRIES ==> Used(s.table[i])
    ensures InOrder(State(s.table[Slot(s.hand, p) := e], s.hand), later)
       <==> forall q :: p < q < ENTRIES ==> Round(s, q).expires == later + TTL
  {
    var t := State(s.table[Slot(s.hand, p) := e], s.hand);
    assert Round(t, p) == e;
    assert forall q :: 0 <= q < ENTRIES && q != p ==> Round(t, q) == Round(s, q);
    assert forall q :: 0 <= q < ENTRIES ==> Used(Round(s, q)) && Round(s, q).expires <= clock + TTL;
  }

  lemma StepKeepsOrder(s: State, clock: real, e: Event)
    requires InOrder(s, clock) && Allowed(s, clock, e, false, false)
    ensures InOrder(Apply(s, e), Ends(e))
    ensures Evicts(s, e) ==> OldestAtHand(s)
  {
    if Accepted(e) {
      var free := FreeAt(s.table, e.now, 0);
      var entry := EntryOf(e.host, e.port, e.addrs, e.stored);
      assert forall i :: 0 <= i < free ==> Used(s.table[i]);
      hide InOrder, Round, OldestAtHand;
      if free < ENTRIES {
        FillingKeepsOrder(s, clock, free, entry, e.stored);
      } else {
        InOrderMeansOldest(s, clock);
        EvictingKeepsOrder(s, clock, entry, e.stored);
      }
    } else {
      QuietKeepsOrder(s, clock, e);
    }
  }

  lemma QuietKeepsOrder(s: State, clock: real, e: Event)
    requires InOrder(s, clock) && clock <= Ends(e) && !Accepted(e)
    ensures InOrder(Apply(s, e), Ends(e))
  {
    var t := Apply(s, e);
    assert t.hand == s.hand;
    assert forall i :: 0 <= i < ENTRIES ==> t.table[i].host == s.table[i].host && t.table[i].expires == s.table[i].expires;
    assert forall i :: 0 <= i < ENTRIES ==> Round(t, i).host == Round(s, i).host && Round(t, i).expires == Round(s, i).expires;
  }

  // While no name is put again and nothing expires under a put, the oldest answer
  // is the one that goes.
  lemma {:induction false} OrderlyRuns(es: seq<Event>)
    requires AllowedRun(es, false, false)
    ensures InOrder(Run(es), Clock(es)) && OldestGoes(es)
  {
    if es != [] {
      var k := |es| - 1;
      RunLast(es, false, false);
      hide Run, AllowedRun, Clock, InOrder, OldestAtHand, Allowed, Evicts, Apply;
      OrderlyRuns(es[..k]);
      StepKeepsOrder(Run(es[..k]), Clock(es[..k]), es[k]);
      forall j | 0 <= j < |es| && Evicts(Run(es[..j]), es[j]) ensures OldestAtHand(Run(es[..j])) {
        if j < k {
          assert es[..k][..j] == es[..j] && es[..k][j] == es[j];
        }
      }
    }
  }

  // ---- What breaks it: a refreshed name, or an expired slot reused. ----

  const ONE: seq<Addr> := [Addr([], 1)]

  function Name(i: nat): (h: string)
    requires i < 10
    ensures Fold(h) == h
  {
    [('a' as int + i) as char]
  }

  function PutAt(i: nat, time: real): Event
    requires i < 10
  {
    Put(Name(i), 1, ONE, time, time)
  }

  // The first name at 0 s and the others at 50 s.
  function FillTime(i: nat): real { if i == 0 then 0.0 else 50.0 }

  function Fills(k: nat): seq<Event>
    requires k <= ENTRIES
  {
    if k == 0 then [] else Fills(k - 1) + [PutAt(k - 1, FillTime(k - 1))]
  }

  function FilledTable(k: nat): (t: seq<Entry>)
    requires k <= ENTRIES
    ensures |t| == ENTRIES
  {
    seq(ENTRIES, i => if 0 <= i < k then EntryOf(Name(i), 1, ONE, FillTime(i)) else VACANT)
  }

  lemma FillStep(k: nat)
    requires k < ENTRIES
    ensures var e, s := PutAt(k, FillTime(k)), State(FilledTable(k), 0);
      Apply(s, e) == State(FilledTable(k + 1), 0) && !Refreshes(s, e) && !Reuses(s, e)
  {
    var t := FilledTable(k);
    forall i | 0 <= i < ENTRIES ensures !IsFor(t[i], Name(k), 1) && (LiveAt(t[i], FillTime(k)) <==> i < k) {
      assert i < k ==> Name(i)[0] != Name(k)[0];
    }
    var free := FreeAt(t, FillTime(k), 0);
    assert !LiveAt(t[k], FillTime(k));
    var entry := EntryOf(Name(k), 1, ONE, FillTime(k));
    assert FilledTable(k + 1) == t[k := entry];
  }

  function FillClock(k: nat): real { if k <= 1 then 0.0 else 50.0 }

  lemma FillIsAllowed(k: nat, refresh: bool, reuse: bool)
    requires k < ENTRIES
    ensures Allowed(State(FilledTable(k), 0), FillClock(k), PutAt(k, FillTime(k)), refresh, reuse)
    ensures Ends(PutAt(k, FillTime(k))) == FillClock(k + 1)
  {
    FillStep(k);
    hide Refreshes, Reuses, FilledTable, Name;
  }

  lemma NothingFilled(refresh: bool, reuse: bool)
    ensures Run(Fills(0)) == State(FilledTable(0), 0) && AllowedRun(Fills(0), refresh, reuse)
    ensures Clock(Fills(0)) == FillClock(0)
  {
    assert FilledTable(0) == Start().table;
  }

  lemma FilledOneMore(k: nat, refresh: bool, reuse: bool)
    requires k < ENTRIES
    requires Run(Fills(k)) == State(FilledTable(k), 0) && AllowedRun(Fills(k), refresh, reuse) && Clock(Fills(k)) == FillClock(k)
    ensures Run(Fills(k + 1)) == State(FilledTable(k + 1), 0) && AllowedRun(Fills(k + 1), refresh, reuse)
    ensures Clock(Fills(k + 1)) == FillClock(k + 1)
  {
    hide Run, AllowedRun, Apply, Allowed, Ends, FilledTable, PutAt, FillTime, FillClock, Clock;
    FillStep(k);
    FillIsAllowed(k, refresh, reuse);
    RunOneMore(Fills(k), PutAt(k, FillTime(k)), refresh, reuse);
  }

  lemma {:induction false} Filled(k: nat, refresh: bool, reuse: bool)
    requires k <= ENTRIES
    ensures Run(Fills(k)) == State(FilledTable(k), 0) && AllowedRun(Fills(k), refresh, reuse)
    ensures Clock(Fills(k)) == FillClock(k)
  {
    hide Run, AllowedRun, Apply, Allowed, FilledTable, FillClock, Clock, Fills;
    if k == 0 {
      NothingFilled(refresh, reuse);
    } else {
      Filled(k - 1, refresh, reuse);
      FilledOneMore(k - 1, refresh, reuse);
    }
  }

  // A put that replaces the first slot of the filled table with its newest answer,
  // and the eviction that loses it.
  lemma NewestIsLost(i: nat, time: real, j: nat, later: real)
    requires i < 10 && j < 10 && j != i && j >= ENTRIES && time <= later < 110.0
    requires (i == 0 && time == 55.0) || (i == ENTRIES && time == 60.0)
    ensures var s := State(FilledTable(ENTRIES), 0); var t := Apply(s, PutAt(i, time));
      && (Refreshes(s, PutAt(i, time)) <==> i == 0) && (Reuses(s, PutAt(i, time)) <==> i != 0)
      && Evicts(t, PutAt(j, later)) && !OldestAtHand(t)
      && !Refreshes(t, PutAt(j, later)) && !Reuses(t, PutAt(j, later))
  {
    var full := FilledTable(ENTRIES);
    var s := State(full, 0);
    forall m | 0 <= m < ENTRIES
      ensures (IsFor(full[m], Name(i), 1) <==> m == i) && !IsFor(full[m], Name(j), 1)
    {
      assert m != i ==> Name(m)[0] != Name(i)[0];
      assert Name(m)[0] != Name(j)[0];
    }
    assert Choice(s, Name(i), 1, time) == 0;
    var t := Apply(s, PutAt(i, time)).table;
    assert t == full[0 := EntryOf(Name(i), 1, ONE, time)];
    assert Name(i)[0] != Name(j)[0];
    assert FreeAt(t, later, 0) == ENTRIES && OwnAt(t, Name(j), 1, 0) == ENTRIES;
    assert t[0].expires > t[1].expires;
  }

  // After the table has filled, the first name is put again at 55 s, or its slot,
  // expired at 60 s, takes the ninth; the next name displaces that newest answer.
  lemma LosesTheNewest(i: nat, time: real, j: nat, later: real, refresh: bool, reuse: bool)
    requires i < 10 && j < 10 && j != i && j >= ENTRIES && time <= later < 110.0
    requires (i == 0 && time == 55.0 && refresh) || (i == ENTRIES && time == 60.0 && reuse)
    ensures var es := Fills(ENTRIES) + [PutAt(i, time)] + [PutAt(j, later)];
      AllowedRun(es, refresh, reuse) && !OldestGoes(es)
  {
    var f := Fills(ENTRIES);
    var g := f + [PutAt(i, time)];
    Filled(ENTRIES, refresh, reuse);
    NewestIsLost(i, time, j, later);
    RunOneMore(f, PutAt(i, time), refresh, reuse);
    RunOneMore(g, PutAt(j, later), refresh, reuse);
    var es := g + [PutAt(j, later)];
    assert es[..|g|] == g && es[|g|] == PutAt(j, later);
  }

  // In every run the oldest answer is the one that goes, exactly when no put may
  // find its own name in the table and none may reuse an expired slot.
  lemma OldestGoesIff(refresh: bool, reuse: bool)
    ensures (forall es :: AllowedRun(es, refresh, reuse) ==> OldestGoes(es)) <==> !refresh && !reuse
  {
    hide Run, AllowedRun, InOrder, Fills, PutAt, Clock, OldestGoes;
    if refresh {
      LosesTheNewest(0, 55.0, 8, 56.0, refresh, reuse);
    } else if reuse {
      LosesTheNewest(8, 60.0, 9, 61.0, refresh, reuse);
    } else {
      forall es | AllowedRun(es, refresh, reuse) ensures OldestGoes(es) {
        OrderlyRuns(es);
      }
    }
  }

  // ---- What a name finds. ----

  // Event k is the latest accepted put of the name.
  predicate LatestPut(es: seq<Event>, host: string, port: int, k: nat) {
    && k < |es| && IsPutOf(es[k], host, port)
    && forall j :: k < j < |es| ==> !IsPutOf(es[j], host, port)
  }

  // A put after k took the name's slot while the whole table was live.
  predicate GivenUp(es: seq<Event>, host: string, port: int, k: nat) {
    exists j :: k < j < |es| && Evicts(Run(es[..j]), es[j]) && HandHolds(Run(es[..j]), host, port)
  }

  predicate HandHolds(s: State, host: string, port: int)
    requires Sized(s)
  {
    IsFor(s.table[s.hand], host, port)
  }

  predicate Absent(s: State, host: string, port: int) {
    forall i :: 0 <= i < |s.table| ==> !IsFor(s.table[i], host, port)
  }

  // The only slot for the name is what its put left, and it is there while the
  // answer is live unless it was given up.
  predicate Remembers(s: State, host: string, port: int, entry: Entry, clock: real, gone: bool) {
    && (forall i :: 0 <= i < |s.table| && IsFor(s.table[i], host, port) ==> s.table[i] == entry)
    && (gone ==> Absent(s, host, port))
    && (!gone && clock < entry.expires ==> !Absent(s, host, port))
  }

  lemma StepKeepsUnique(s: State, e: Event)
    requires Sized(s) && Unique(s.table)
    ensures Unique(Apply(s, e).table)
  {
    if Accepted(e) {
      ChoiceMeans(s, e.host, e.port, e.now);
    }
  }

  lemma {:induction false} RunIsUnique(es: seq<Event>)
    ensures Unique(Run(es).table)
  {
    if es != [] {
      RunIsUnique(es[..|es| - 1]);
      StepKeepsUnique(Run(es[..|es| - 1]), es[|es| - 1]);
    }
  }

  lemma PutIsRemembered(s: State, e: Event, host: string, port: int)
    requires Sized(s) && Unique(s.table) && IsPutOf(e, host, port)
    ensures Remembers(Apply(s, e), host, port, EntryOf(e.host, e.port, e.addrs, e.stored), e.stored, false)
  {
    ChoiceMeans(s, e.host, e.port, e.now);
    var at := Choice(s, e.host, e.port, e.now);
    assert IsFor(Apply(s, e).table[at], host, port);
  }

  lemma StepRemembers(s: State, e: Event, host: string, port: int, entry: Entry, clock: real, gone: bool)
    requires Sized(s) && Unique(s.table) && Remembers(s, host, port, entry, clock, gone)
    requires !IsPutOf(e, host, port) && Allowed(s, clock, e, true, true)
    ensures Remembers(Apply(s, e), host, port, entry, Ends(e), gone || (Evicts(s, e) && HandHolds(s, host, port)))
  {
    var t := Apply(s, e);
    if Accepted(e) {
      ChoiceMeans(s, e.host, e.port, e.now);
      var at := Choice(s, e.host, e.port, e.now);
      assert !IsFor(t.table[at], host, port);
      if !Absent(s, host, port) {
        var i :| 0 <= i < ENTRIES && IsFor(s.table[i], host, port);
        assert i != at ==> t.table[i] == s.table[i];
      }
    } else if e.Get? {
      var own := OwnAt(s.table, e.host, e.port, 0);
      if !Absent(s, host, port) {
        var i :| 0 <= i < ENTRIES && IsFor(s.table[i], host, port);
        assert i != own ==> t.table[i] == s.table[i];
      }
    }
  }

  lemma GivenUpOneMore(es: seq<Event>, host: string, port: int, k: nat)
    requires k < |es| - 1
    ensures var before, e := es[..|es| - 1], es[|es| - 1];
      GivenUp(es, host, port, k) <==> GivenUp(before, host, port, k) || (Evicts(Run(before), e) && HandHolds(Run(before), host, port))
  {
    hide Run, Evicts, HandHolds;
    var before := es[..|es| - 1];
    assert forall j :: 0 <= j < |before| ==> before[j] == es[j] && before[..j] == es[..j];
  }

  lemma {:induction false} RunRemembers(es: seq<Event>, host: string, port: int, k: nat)
    requires AllowedRun(es, true, true) && LatestPut(es, host, port, k)
    ensures Remembers(Run(es), host, port, EntryOf(es[k].host, es[k].port, es[k].addrs, es[k].stored), Clock(es), GivenUp(es, host, port, k))
  {
    var n := |es| - 1;
    var before := es[..n];
    RunIsUnique(before);
    RunLast(es, true, true);
    hide Run, AllowedRun, Clock, Allowed, Evicts, Apply, Remembers, HandHolds, Unique, GivenUp, IsPutOf;
    if k == n {
      PutIsRemembered(Run(before), es[n], host, port);
    } else {
      assert before[k] == es[k] && forall j :: 0 <= j < n ==> before[j] == es[j];
      RunRemembers(before, host, port, k);
      GivenUpOneMore(es, host, port, k);
      StepRemembers(Run(before), es[n], host, port, EntryOf(es[k].host, es[k].port, es[k].addrs, es[k].stored), Clock(before), GivenUp(before, host, port, k));
    }
  }

  // A lookup finds the latest accepted put of its name, under 60 s old, unless a
  // later put gave its slot up; otherwise nothing.
  lemma HitIff(es: seq<Event>, host: string, port: int, max: int, now: real, k: nat)
    requires AllowedRun(es, true, true) && Clock(es) <= now && LatestPut(es, host, port, k) && max > 0
    ensures Hit(Run(es), host, port, max, now) ==
      if now < es[k].stored + TTL && !GivenUp(es, host, port, k) then Leading(Leading(es[k].addrs, MAX_ADDRS), max) else []
  {
    RunRemembers(es, host, port, k);
    hide Run, AllowedRun, GivenUp, LatestPut, IsKey;
  }

  // A name no accepted put has named finds nothing.
  lemma {:induction false} NeverPutIsAMiss(es: seq<Event>, host: string, port: int)
    requires forall k :: 0 <= k < |es| ==> !IsPutOf(es[k], host, port)
    ensures Absent(Run(es), host, port)
    ensures forall max, now :: Hit(Run(es), host, port, max, now) == []
  {
    if es != [] {
      NeverPutIsAMiss(es[..|es| - 1], host, port);
      assert !IsPutOf(es[|es| - 1], host, port);
    }
  }
}
