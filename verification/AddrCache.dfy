// The resolver's address table (src/addr_cache.c): eight slots with an expiry each
// and a replacement hand, refined against the history of all that was put. Times are
// reads of one monotone clock, in seconds. Whole runs are in AddrRuns.
module AddrCache {
  import opened Common

  const ENTRIES: nat := 8
  const HOST_MAX: nat := 256
  const MAX_ADDRS: nat := 16
  const TTL: real := 60.0
  const STORAGE: nat := 128          // sizeof(struct sockaddr_storage)

  // One resolved address: its bytes and their length.
  datatype Addr = Addr(bytes: seq<int>, len: nat)

  // No addresses: nothing here.
  datatype Entry = Entry(host: string, port: int, expires: real, addrs: seq<Addr>)

  // An accepted put, and when it was stored.
  datatype PutEvent = PutEvent(host: string, port: int, addrs: seq<Addr>, time: real)

  function Lower(c: char): char {
    if 'A' <= c <= 'Z' then (c as int - 'A' as int + 'a' as int) as char else c
  }

  function Fold(s: string): (f: string)
    ensures |f| == |s|
  {
    seq(|s|, i requires 0 <= i < |s| => Lower(s[i]))
  }

  // addr_host_eq: a name is case-insensitive, character by character.
  method HostEq(a: string, b: string) returns (eq: bool)
    ensures eq <==> Fold(a) == Fold(b)
  {
    var i := 0;
    while i < |a| && i < |b|
      invariant i <= |a| && i <= |b|
      invariant Fold(a)[..i] == Fold(b)[..i]
    {
      if Lower(a[i]) != Lower(b[i]) {
        assert Fold(a)[i] != Fold(b)[i];
        return false;
      }
      i := i + 1;
    }
    eq := i == |a| && i == |b|;
    assert Fold(a)[..|a|] == Fold(a) && Fold(b)[..|b|] == Fold(b);
  }

  // Two names are one exactly when they differ in the case of ASCII letters alone.
  lemma FoldedAlikeIff(a: string, b: string)
    ensures Fold(a) == Fold(b) <==> |a| == |b| && forall i :: 0 <= i < |a| ==> SameLetter(a[i], b[i])
  {
    if Fold(a) == Fold(b) {
      forall i | 0 <= i < |a| ensures SameLetter(a[i], b[i]) {
        assert Fold(a)[i] == Fold(b)[i];
      }
    }
  }

  predicate IsKey(host: string, port: int, h: string, p: int) {
    p == port && Fold(h) == Fold(host)
  }

  predicate IsFor(e: Entry, host: string, port: int) {
    e.addrs != [] && IsKey(host, port, e.host, e.port)
  }

  predicate LiveAt(e: Entry, now: real) {
    e.addrs != [] && now < e.expires
  }

  function Leading(addrs: seq<Addr>, max: nat): seq<Addr> {
    if |addrs| <= max then addrs else addrs[..max]
  }

  // What put accepts: a name the key can hold and, among the addresses it would
  // keep, none the storage could not.
  predicate Acceptable(host: string, addrs: seq<Addr>) {
    && 0 < |host| < HOST_MAX
    && addrs != []
    && forall i :: 0 <= i < |addrs| && i < MAX_ADDRS ==> 0 < addrs[i].len <= STORAGE
  }

  // Put i is the latest one for the key.
  predicate Latest(h: seq<PutEvent>, host: string, port: int, i: nat) {
    && i < |h| && IsKey(host, port, h[i].host, h[i].port)
    && forall j :: i < j < |h| ==> !IsKey(host, port, h[j].host, h[j].port)
  }

  // The entry is what the latest put of its own key left.
  ghost predicate Backed(e: Entry, h: seq<PutEvent>) {
    e.addrs != [] ==>
      exists i: nat :: Latest(h, e.host, e.port, i)
        && e.addrs == Leading(h[i].addrs, MAX_ADDRS) && e.expires == h[i].time + TTL
  }

  // At most one occupied slot matches a case-folded host and port.
  predicate Unique(t: seq<Entry>) {
    forall i, j :: 0 <= i < j < |t| && t[i].addrs != [] && t[j].addrs != [] ==>
      !IsKey(t[i].host, t[i].port, t[j].host, t[j].port)
  }

  ghost predicate AllBacked(t: seq<Entry>, h: seq<PutEvent>) {
    forall i :: 0 <= i < |t| ==> Backed(t[i], h)
  }

  // ---- Which slot. ----

  // The first slot from i on that holds the name, expired or not; |t| if none does.
  function OwnAt(t: seq<Entry>, host: string, port: int, i: nat): (k: nat)
    requires i <= |t|
    ensures i <= k <= |t| && (k < |t| ==> IsFor(t[k], host, port))
    ensures forall j :: i <= j < k ==> !IsFor(t[j], host, port)
    decreases |t| - i
  {
    if i < |t| && !IsFor(t[i], host, port) then OwnAt(t, host, port, i + 1) else i
  }

  // The first slot from i on that holds nothing live.
  function FreeAt(t: seq<Entry>, now: real, i: nat): (k: nat)
    requires i <= |t|
    ensures i <= k <= |t| && (k < |t| ==> !LiveAt(t[k], now))
    ensures forall j :: i <= j < k ==> LiveAt(t[j], now)
    decreases |t| - i
  {
    if i < |t| && LiveAt(t[i], now) then FreeAt(t, now, i + 1) else i
  }

  datatype State = State(table: seq<Entry>, hand: nat)

  // Every slot live and none the name's: the hand's answer has to go.
  predicate Displaces(s: State, host: string, port: int, now: real) {
    OwnAt(s.table, host, port, 0) == |s.table| && FreeAt(s.table, now, 0) == |s.table|
  }

  // The slot a put takes.
  function Choice(s: State, host: string, port: int, now: real): nat {
    var own := OwnAt(s.table, host, port, 0);
    if own < |s.table| then own
    else
      var free := FreeAt(s.table, now, 0);
      if free < |s.table| then free else s.hand
  }

  function EntryOf(host: string, port: int, addrs: seq<Addr>, stored: real): Entry {
    Entry(host, port, stored + TTL, Leading(addrs, MAX_ADDRS))
  }

  // nm_addr_cache_put.
  function PutInto(s: State, host: string, port: int, addrs: seq<Addr>, now: real, stored: real): State
    requires |s.table| == ENTRIES && s.hand < ENTRIES
  {
    if !Acceptable(host, addrs) then s
    else State(s.table[Choice(s, host, port, now) := EntryOf(host, port, addrs, stored)],
               if Displaces(s, host, port, now) then (s.hand + 1) % ENTRIES else s.hand)
  }

  // What nm_addr_cache_get answers, and the table it leaves: an expired match is a
  // miss and frees its slot.
  function Hit(s: State, host: string, port: int, max: int, now: real): seq<Addr> {
    var own := OwnAt(s.table, host, port, 0);
    if host == "" || max <= 0 || own == |s.table| || !LiveAt(s.table[own], now) then []
    else Leading(s.table[own].addrs, max)
  }

  function AfterGet(s: State, host: string, port: int, max: int, now: real): State {
    var own := OwnAt(s.table, host, port, 0);
    if host == "" || max <= 0 || own == |s.table| || LiveAt(s.table[own], now) then s
    else s.(table := s.table[own := s.table[own].(addrs := [])])
  }

  // Storing the newest put into a slot that is its own, or whose key is evicted.
  lemma StoreKeepsTable(t: seq<Entry>, h: seq<PutEvent>, at: nat, p: PutEvent)
    requires at < |t| && Unique(t) && AllBacked(t, h)
    requires forall i :: 0 <= i < |t| && i != at ==> !IsFor(t[i], p.host, p.port)
    ensures var e := EntryOf(p.host, p.port, p.addrs, p.time);
      Unique(t[at := e]) && AllBacked(t[at := e], h + [p])
  {
    var g := h + [p];
    var e := EntryOf(p.host, p.port, p.addrs, p.time);
    assert g[|h|] == p && Latest(g, p.host, p.port, |h|);
    forall i | 0 <= i < |t| && i != at ensures Backed(t[i], g) {
      if t[i].addrs != [] {
        var k: nat :| Latest(h, t[i].host, t[i].port, k)
          && t[i].addrs == Leading(h[k].addrs, MAX_ADDRS) && t[i].expires == h[k].time + TTL;
        assert !IsFor(t[i], p.host, p.port);
        assert g[k] == h[k] && Latest(g, t[i].host, t[i].port, k);
      }
    }
  }

  lemma OnlyOne(t: seq<Entry>, host: string, port: int)
    requires Unique(t)
    ensures forall j :: 0 <= j < |t| && j != OwnAt(t, host, port, 0) ==> !IsFor(t[j], host, port)
  {
  }

  // Freeing a slot, or leaving the table alone, keeps it.
  lemma GetKeepsTable(s: State, h: seq<PutEvent>, host: string, port: int, max: int, now: real)
    requires Unique(s.table) && AllBacked(s.table, h)
    ensures Unique(AfterGet(s, host, port, max, now).table) && AllBacked(AfterGet(s, host, port, max, now).table, h)
  {
    var own := OwnAt(s.table, host, port, 0);
    if own < |s.table| {
      var t := s.table[own := s.table[own].(addrs := [])];
      forall j | 0 <= j < |t| ensures Backed(t[j], h) {
        assert Backed(s.table[j], h);
      }
    }
  }

  // A hit is backed by the latest put of its key; a miss means no live slot.
  lemma HitMeans(s: State, h: seq<PutEvent>, host: string, port: int, max: int, now: real)
    requires Unique(s.table) && AllBacked(s.table, h)
    ensures Hit(s, host, port, max, now) != [] ==> IsBacked(h, host, port, max, now, Hit(s, host, port, max, now))
    ensures host != "" && max > 0 ==>
      (Hit(s, host, port, max, now) == [] <==> forall i :: 0 <= i < |s.table| ==> !(IsFor(s.table[i], host, port) && LiveAt(s.table[i], now)))
  {
    OnlyOne(s.table, host, port);
    var own := OwnAt(s.table, host, port, 0);
    if own < |s.table| {
      assert Backed(s.table[own], h);
    }
  }

  ghost predicate IsBacked(h: seq<PutEvent>, host: string, port: int, max: int, now: real, out: seq<Addr>) {
    max > 0 && exists i: nat :: Latest(h, host, port, i)
                 && out == Leading(Leading(h[i].addrs, MAX_ADDRS), max) && now < h[i].time + TTL
  }

  // The slot a put takes is its name's only one, and another live answer goes
  // exactly when all are live and none is the name's: then it is the hand's.
  lemma ChoiceMeans(s: State, host: string, port: int, now: real)
    requires Unique(s.table) && |s.table| == ENTRIES && s.hand < ENTRIES
    ensures var at := Choice(s, host, port, now);
      at < ENTRIES && forall j :: 0 <= j < ENTRIES && j != at ==> !IsFor(s.table[j], host, port)
    ensures var at := Choice(s, host, port, now);
      LiveAt(s.table[at], now) && !IsFor(s.table[at], host, port) <==> Displaces(s, host, port, now)
    ensures Displaces(s, host, port, now) ==> Choice(s, host, port, now) == s.hand && forall j :: 0 <= j < ENTRIES ==> LiveAt(s.table[j], now)
  {
    OnlyOne(s.table, host, port);
  }

  class Cache {
    var e: array<Entry>
    var hand: nat
    ghost var puts: seq<PutEvent>

    ghost predicate Valid()
      reads this, e
    {
      e.Length == ENTRIES && hand < ENTRIES && Unique(e[..]) && AllBacked(e[..], puts)
    }

    ghost function Contents(): State
      reads this, e
    {
      State(e[..], hand)
    }

    constructor ()
      ensures Valid() && fresh(e) && puts == []
      ensures forall i :: 0 <= i < e.Length ==> e[i].addrs == []
    {
      e := new Entry[ENTRIES](_ => Entry("", 0, 0.0, []));
      hand, puts := 0, [];
    }

    // A hit is the leading addresses of the key's latest put, under 60 s old.
    ghost predicate HitBacked(host: string, port: int, max: int, now: real, out: seq<Addr>)
      reads this
    {
      IsBacked(puts, host, port, max, now, out)
    }

    // addr_entry_find: expired or not.
    method Find(host: string, port: int) returns (at: Option<nat>)
      requires Valid()
      ensures at.Some? ==> at.value < e.Length && IsFor(e[at.value], host, port)
      ensures at.None? ==> forall i :: 0 <= i < e.Length ==> !IsFor(e[i], host, port)
      ensures at == (var k := OwnAt(e[..], host, port, 0); if k < ENTRIES then Some(k) else None)
    {
      for i := 0 to e.Length
        invariant forall j :: 0 <= j < i ==> !IsFor(e[j], host, port)
      {
        var same := HostEq(e[i].host, host);
        if e[i].addrs != [] && e[i].port == port && same {
          return Some(i);
        }
      }
      return None;
    }

    // nm_addr_cache_get; [] is a miss. An expired match is a miss and frees its slot.
    method Get(host: string, port: int, max: int, now: real) returns (out: seq<Addr>)
      requires Valid()
      modifies e
      ensures Valid()
      ensures out == Hit(old(Contents()), host, port, max, now)
      ensures Contents() == AfterGet(old(Contents()), host, port, max, now)
      ensures out != [] ==> HitBacked(host, port, max, now, out)
      ensures host != "" && max > 0 ==>
        (out == [] <==> forall i :: 0 <= i < e.Length ==> !(IsFor(old(e[i]), host, port) && LiveAt(old(e[i]), now)))
      ensures forall i :: 0 <= i < e.Length ==>
        e[i] == old(e[i]) || (e[i].addrs == [] && !LiveAt(old(e[i]), now))
    {
      ghost var s, own := Contents(), OwnAt(e[..], host, port, 0);
      OnlyOne(s.table, host, port);
      GetKeepsTable(s, puts, host, port, max, now);
      HitMeans(s, puts, host, port, max, now);
      out := [];
      if host == "" || max <= 0 {
        return;
      }
      hide Unique, AllBacked, IsBacked;
      for i := 0 to e.Length
        invariant own < i ==> !LiveAt(s.table[own], now)
        invariant e[..] == if own < i then s.table[own := s.table[own].(addrs := [])] else s.table
      {
        var same := HostEq(e[i].host, host);
        if e[i].addrs == [] || e[i].port != port || !same {
          continue;
        }
        assert i == own;
        if now >= e[i].expires {
          e[i] := e[i].(addrs := []);
          continue;
        }
        out := if |e[i].addrs| < max then e[i].addrs else e[i].addrs[..max];
        return;
      }
    }

    // nm_addr_cache_put. `now` is read when a slot is looked for, `stored` when the
    // entry is written.
    method Put(host: string, port: int, addrs: seq<Addr>, now: real, stored: real) returns (ghost at: nat)
      requires Valid() && now <= stored
      modifies this, e
      ensures Valid() && e == old(e)
      ensures Contents() == PutInto(old(Contents()), host, port, addrs, now, stored)
      ensures Acceptable(host, addrs) ==> at == Choice(old(Contents()), host, port, now)
      ensures Acceptable(host, addrs) && LiveAt(old(e[..])[at], now) && !IsFor(old(e[..])[at], host, port) ==> at == old(hand)
      ensures puts == if Acceptable(host, addrs) then old(puts) + [PutEvent(host, port, addrs, stored)] else old(puts)
      ensures !Acceptable(host, addrs) ==> e[..] == old(e[..])
      ensures at < ENTRIES
      ensures Acceptable(host, addrs) ==>
        e[..] == old(e[..])[at := Entry(host, port, stored + TTL, Leading(addrs, MAX_ADDRS))]
      ensures hand == if Acceptable(host, addrs) && LiveAt(old(e[..])[at], now) && !IsFor(old(e[..])[at], host, port)
        then (old(hand) + 1) % ENTRIES else old(hand)
      ensures Acceptable(host, addrs) && LiveAt(old(e[..])[at], now) && !IsFor(old(e[..])[at], host, port) ==>
        forall i :: 0 <= i < ENTRIES ==> LiveAt(old(e[..])[i], now)
    {
      ghost var s, p := Contents(), PutEvent(host, port, addrs, stored);
      ChoiceMeans(s, host, port, now);
      at := 0;
      if |host| == 0 || |addrs| == 0 || |host| >= HOST_MAX {
        return;
      }
      var sane := StorageHolds(addrs);
      if !sane {
        return;
      }
      var kept := if |addrs| > MAX_ADDRS then addrs[..MAX_ADDRS] else addrs;
      var slot := SlotFor(host, port, now);
      at := slot;
      StoreKeepsTable(s.table, puts, at, p);
      assert kept == Leading(addrs, MAX_ADDRS);
      hide Unique, AllBacked, IsFor, LiveAt, Choice, Displaces, Leading;
      e[slot] := Entry(host, port, stored + TTL, kept);
      assert e[..] == s.table[at := EntryOf(host, port, addrs, stored)];
      puts := puts + [p];
    }

    // The slot a put overwrites: the name's own, else a free or expired one, else
    // the hand's, which then moves on.
    method SlotFor(host: string, port: int, now: real) returns (at: nat)
      requires Valid()
      modifies this`hand
      ensures at < e.Length && hand < ENTRIES
      ensures at == Choice(old(Contents()), host, port, now)
      ensures hand == if Displaces(old(Contents()), host, port, now) then (old(hand) + 1) % ENTRIES else old(hand)
      ensures forall i :: 0 <= i < e.Length && i != at ==> !IsFor(e[i], host, port)
      ensures LiveAt(e[at], now) && !IsFor(e[at], host, port) ==>
        (forall i :: 0 <= i < e.Length ==> LiveAt(e[i], now)) && at == old(hand)
      ensures hand == if LiveAt(e[at], now) && !IsFor(e[at], host, port) then (old(hand) + 1) % ENTRIES else old(hand)
    {
      var found := Find(host, port);
      if found.Some? {
        assert Unique(e[..]);
        return found.value;
      }
      for i := 0 to e.Length
        invariant forall j :: 0 <= j < i ==> LiveAt(e[j], now)
      {
        if e[i].addrs == [] || now >= e[i].expires {
          return i;
        }
      }
      at := hand;
      hand := (hand + 1) % ENTRIES;
    }

    // The length check of nm_addr_cache_put, over the addresses it would keep.
    method StorageHolds(addrs: seq<Addr>) returns (ok: bool)
      ensures ok <==> forall i :: 0 <= i < |addrs| && i < MAX_ADDRS ==> 0 < addrs[i].len <= STORAGE
    {
      var i := 0;
      while i < |addrs| && i < MAX_ADDRS
        invariant i <= |addrs|
        invariant forall j :: 0 <= j < i ==> 0 < addrs[j].len <= STORAGE
      {
        if addrs[i].len == 0 || addrs[i].len > STORAGE {
          return false;
        }
        i := i + 1;
      }
      return true;
    }
  }
}
