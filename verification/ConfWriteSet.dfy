// A set of writes to the shadow layer (src/conf.c): when it is one intent, and what
// of it is stored when it is not.
module ConfWriteSet {
  import opened Common
  import opened ConfFile
  import opened ConfKeys
  import opened ConfLayer
  import opened ConfRoundTrip

  // A write that stores a value under a provider's name.
  predicate StoresScoped(r: Registry, w: Write) { w.value != [] && ScopedSplit(r, w.key).Some? }

  function Names(scoped: seq<Slot>): set<string> { set i | 0 <= i < |scoped| :: scoped[i].name }

  // The names the set asks to store that have no slot yet.
  function NewNames(r: Registry, y: Layer, ws: seq<Write>): set<string> {
    (set i | 0 <= i < |ws| && StoresScoped(r, ws[i]) :: ws[i].key) - Names(y.store.scoped)
  }

  // The pool holds the set: every name it stores is short enough for a slot, and
  // there is a slot for each new one.
  predicate Fits(r: Registry, y: Layer, ws: seq<Write>) {
    && ShortNames(r, ws) && |y.store.scoped| + |NewNames(r, y, ws)| <= NSCOPED
  }

  predicate ShortNames(r: Registry, ws: seq<Write>) {
    forall i :: 0 <= i < |ws| && StoresScoped(r, ws[i]) ==> |ws[i].key| < SCOPED_KEY
  }

  lemma ShortNamesStep(r: Registry, ws: seq<Write>)
    requires ws != []
    ensures ShortNames(r, ws) <==> ShortNames(r, ws[1..]) && (StoresScoped(r, ws[0]) ==> |ws[0].key| < SCOPED_KEY)
  {
    hide StoresScoped;
    assert forall i :: 0 <= i < |ws| ==> ws[i] == if i == 0 then ws[0] else ws[1..][i - 1];
  }

  // How many writes go in before the first that has no slot.
  function Stored(r: Registry, y: Layer, ws: seq<Write>): (k: nat)
    requires AllPass(r, ws)
    ensures k <= |ws|
    decreases |ws|
  {
    if ws == [] then 0
    else
      AllPassTail(r, ws);
      match OneWrite(r, y, ws[0])
      case None => 0
      case Some(z) => Stored(r, z, ws[1..]) + 1
  }

  lemma SlotOrNot(scoped: seq<Slot>, name: string)
    ensures SlotAt(scoped, name, 0) < |scoped| <==> name in Names(scoped)
  {
    if SlotAt(scoped, name, 0) < |scoped| {
      assert scoped[SlotAt(scoped, name, 0)].name == name;
    }
  }

  lemma SameNames(scoped: seq<Slot>, k: nat, v: string)
    requires k < |scoped|
    ensures Names(scoped[k := Slot(scoped[k].name, v)]) == Names(scoped)
  {
    var after := scoped[k := Slot(scoped[k].name, v)];
    forall i | 0 <= i < |scoped| ensures scoped[i].name in Names(after) && after[i].name in Names(scoped) {
      assert after[i].name == scoped[i].name;
    }
  }

  lemma OneMoreName(scoped: seq<Slot>, x: Slot)
    ensures Names(scoped + [x]) == Names(scoped) + {x.name}
  {
    var after := scoped + [x];
    assert after[|scoped|] == x;
    forall i | 0 <= i < |scoped| ensures scoped[i].name in Names(after) {
      assert after[i] == scoped[i];
    }
  }

  // When one write has its slot, and the names it adds.
  lemma OneWriteNames(r: Registry, y: Layer, w: Write)
    requires Passes(r, w)
    ensures OneWrite(r, y, w).Some? <==>
      (StoresScoped(r, w) ==> |w.key| < SCOPED_KEY && (w.key in Names(y.store.scoped) || |y.store.scoped| < NSCOPED))
    ensures OneWrite(r, y, w).Some? ==>
      Names(OneWrite(r, y, w).value.store.scoped) == Names(y.store.scoped) + (if StoresScoped(r, w) then {w.key} else {})
    ensures OneWrite(r, y, w).Some? ==>
      |OneWrite(r, y, w).value.store.scoped| == |y.store.scoped| + if StoresScoped(r, w) && w.key !in Names(y.store.scoped) then 1 else 0
  {
    var scoped := y.store.scoped;
    var k := SlotAt(scoped, w.key, 0);
    SlotOrNot(scoped, w.key);
    hide ScopedSplit, NormalizeScoped, Normalize, KeyName, Names, SlotAt;
    if k < |scoped| {
      SameNames(scoped, k, []);
      if w.value != [] {
        SameNames(scoped, k, CheckWrite(r, w.key, w.value).value);
      }
    } else if w.value != [] {
      OneMoreName(scoped, Slot(w.key, CheckWrite(r, w.key, w.value).value));
    }
  }

  lemma NewNamesStep(r: Registry, y: Layer, z: Layer, ws: seq<Write>)
    requires ws != []
    requires Names(z.store.scoped) == Names(y.store.scoped) + (if StoresScoped(r, ws[0]) then {ws[0].key} else {})
    ensures NewNames(r, z, ws[1..]) == NewNames(r, y, ws) - (if StoresScoped(r, ws[0]) then {ws[0].key} else {})
    ensures StoresScoped(r, ws[0]) ==> (ws[0].key in NewNames(r, y, ws) <==> ws[0].key !in Names(y.store.scoped))
  {
    hide StoresScoped, Names;
    assert forall i :: 0 <= i < |ws| ==> ws[i] == if i == 0 then ws[0] else ws[1..][i - 1];
  }

  lemma FitsStep(r: Registry, y: Layer, z: Layer, ws: seq<Write>)
    requires ws != [] && (StoresScoped(r, ws[0]) ==> |ws[0].key| < SCOPED_KEY)
    requires Names(z.store.scoped) == Names(y.store.scoped) + (if StoresScoped(r, ws[0]) then {ws[0].key} else {})
    requires |z.store.scoped| == |y.store.scoped| + if StoresScoped(r, ws[0]) && ws[0].key !in Names(y.store.scoped) then 1 else 0
    ensures Fits(r, z, ws[1..]) <==> Fits(r, y, ws)
  {
    NewNamesStep(r, y, z, ws);
    ShortNamesStep(r, ws);
    hide StoresScoped, Names, NewNames, ShortNames;
    Less(NewNames(r, y, ws), ws[0].key);
  }

  lemma Less(a: set<string>, x: string)
    ensures |a - {x}| == |a| - if x in a then 1 else 0
    ensures a - {} == a
  {
    assert x !in a ==> a - {x} == a;
  }

  lemma NoSlotNoFit(r: Registry, y: Layer, ws: seq<Write>)
    requires ws != [] && StoresScoped(r, ws[0])
    requires |ws[0].key| >= SCOPED_KEY || (ws[0].key !in Names(y.store.scoped) && |y.store.scoped| >= NSCOPED)
    ensures !Fits(r, y, ws)
  {
    hide StoresScoped, Names;
    if |ws[0].key| < SCOPED_KEY {
      assert ws[0].key in NewNames(r, y, ws);
    }
  }

  // The second pass goes through exactly when the pool holds the set.
  lemma {:induction false} StoredIffFits(r: Registry, y: Layer, ws: seq<Write>)
    requires AllPass(r, ws) && |y.store.scoped| <= NSCOPED
    ensures StoreAll(r, y, ws).1 <==> Fits(r, y, ws)
    decreases |ws|
  {
    if ws == [] {
      assert NewNames(r, y, ws) == {};
    } else {
      var w := ws[0];
      AllPassTail(r, ws);
      OneWriteNames(r, y, w);
      hide Passes, AllPass, StoreWrite, RemoveWrite, CheckWrite, StoresScoped, Names;
      if OneWrite(r, y, w).Some? {
        FitsStep(r, y, OneWrite(r, y, w).value, ws);
        StoredIffFits(r, OneWrite(r, y, w).value, ws[1..]);
      } else {
        NoSlotNoFit(r, y, ws);
      }
    }
  }

  // One write of a pass, and the rest of it.
  lemma PassStep(r: Registry, y: Layer, ws: seq<Write>)
    requires AllPass(r, ws) && ws != []
    ensures Passes(r, ws[0]) && AllPass(r, ws[1..])
    ensures OneWrite(r, y, ws[0]).None? ==> StoreAll(r, y, ws) == (y, false) && Stored(r, y, ws) == 0
    ensures OneWrite(r, y, ws[0]).Some? ==>
      && StoreAll(r, y, ws) == StoreAll(r, OneWrite(r, y, ws[0]).value, ws[1..])
      && Stored(r, y, ws) == Stored(r, OneWrite(r, y, ws[0]).value, ws[1..]) + 1
  {
    AllPassTail(r, ws);
    hide Passes, StoreWrite, RemoveWrite, CheckWrite, AllPass;
  }

  lemma LeadingPass(r: Registry, ws: seq<Write>, k: nat)
    requires AllPass(r, ws) && k <= |ws|
    ensures AllPass(r, ws[..k])
  {
    hide Passes;
  }

  // A pass that stops has stored exactly the writes before the one it stops at.
  lemma {:induction false} PassStops(r: Registry, y: Layer, ws: seq<Write>)
    requires AllPass(r, ws)
    ensures var k := Stored(r, y, ws);
      && AllPass(r, ws[..k]) && StoreAll(r, y, ws[..k]) == (StoreAll(r, y, ws).0, true)
      && (StoreAll(r, y, ws).1 <==> k == |ws|)
      && (k < |ws| ==> AllPass(r, ws[..k + 1]) && !StoreAll(r, y, ws[..k + 1]).1)
    decreases |ws|
  {
    hide Passes, StoreWrite, RemoveWrite, CheckWrite, AllPass, StoreAll, OneWrite, Stored;
    var k := Stored(r, y, ws);
    LeadingPass(r, ws, k);
    if k < |ws| {
      LeadingPass(r, ws, k + 1);
    }
    if ws == [] {
      NothingStored(r, y, ws);
    } else {
      PassStep(r, y, ws);
      if OneWrite(r, y, ws[0]).Some? {
        var z := OneWrite(r, y, ws[0]).value;
        PassStops(r, z, ws[1..]);
        LeadingStep(r, y, z, ws, k);
        if k < |ws| {
          LeadingStep(r, y, z, ws, k + 1);
        }
      } else {
        PassStep(r, y, ws[..k + 1]);
        NothingStored(r, y, ws[..k]);
      }
    }
  }

  // The first n writes of a set whose first one is stored.
  lemma LeadingStep(r: Registry, y: Layer, z: Layer, ws: seq<Write>, n: nat)
    requires 0 < n <= |ws| && AllPass(r, ws) && OneWrite(r, y, ws[0]) == Some(z)
    ensures AllPass(r, ws[..n]) && AllPass(r, ws[1..][..n - 1])
    ensures StoreAll(r, y, ws[..n]) == StoreAll(r, z, ws[1..][..n - 1])
  {
    hide Passes, StoreWrite, RemoveWrite, CheckWrite, StoreAll, OneWrite, Stored;
    LeadingPass(r, ws, n);
    PassStep(r, y, ws[..n]);
    assert ws[..n][1..] == ws[1..][..n - 1];
  }

  lemma NothingStored(r: Registry, y: Layer, ws: seq<Write>)
    requires ws == [] && AllPass(r, ws)
    ensures StoreAll(r, y, ws) == (y, true)
  {
  }

  predicate Proper(r: Registry, ws: seq<Write>) { 1 <= |ws| <= WRITE_SET && AllPass(r, ws) }

  // A set of writes is accepted exactly when it is no larger than a set may be,
  // every value in it is acceptable, and the pool holds it. Refused for its size or
  // a value it changes nothing; refused for room it has stored the writes before
  // the first one the pool does not hold.
  lemma SetManyIsAllOrNothing(r: Registry, y: Layer, ws: seq<Write>)
    requires |y.store.scoped| <= NSCOPED
    ensures SetMany(r, y, ws).1 <==> Proper(r, ws) && Fits(r, y, ws)
    ensures !Proper(r, ws) ==> SetMany(r, y, ws) == (y, false)
    ensures Proper(r, ws) && !Fits(r, y, ws) ==>
      exists k :: 0 <= k < |ws| && AllPass(r, ws[..k]) && Fits(r, y, ws[..k]) && !Fits(r, y, ws[..k + 1]) && SetMany(r, y, ws).0 == StoreAll(r, y, ws[..k]).0
  {
    hide StoreAll, Stored, Fits;
    if Proper(r, ws) {
      StoredIffFits(r, y, ws);
      PassStops(r, y, ws);
      var k := Stored(r, y, ws);
      StoredIffFits(r, y, ws[..k]);
      if k < |ws| {
        StoredIffFits(r, y, ws[..k + 1]);
      }
    }
    hide Passes, AllPass, Fits;
  }

  // ---- What a set leaves of each key. ----

  // What a write leaves of its key: its canonical text, or nothing.
  function Left(r: Registry, w: Write): string
    requires Passes(r, w)
  {
    if w.value == [] then [] else CheckWrite(r, w.key, w.value).value
  }

  lemma OneWriteLeaves(r: Registry, y: Layer, w: Write, name: string)
    requires Sound(r) && Kept(r, y.store) && Passes(r, w) && OneWrite(r, y, w).Some?
    ensures Kept(r, OneWrite(r, y, w).value.store)
    ensures Lookup(OneWrite(r, y, w).value.store, name) == if name == w.key then Left(r, w) else Lookup(y.store, name)
  {
    hide Kept, ScopedSplit, Sound, Lookup, CheckWrite, StoreWrite, RemoveWrite;
    if w.value == [] {
      RemoveKeepsLayer(r, y, w.key);
      RemoveClearsOneKey(r, y, w.key, name);
    } else {
      var v := CheckWrite(r, w.key, w.value).value;
      CheckedIsShort(r, w.key, w.value);
      StoreKeepsLayer(r, y, w.key, v);
      StoreWritesOneKey(r, y, w.key, v, name);
    }
  }

  // Write i is the last that names the key.
  predicate LastFor(ws: seq<Write>, i: nat, name: string) {
    i < |ws| && ws[i].key == name && forall j :: i < j < |ws| ==> ws[j].key != name
  }

  // A stored set leaves each key it names what its last write of it says, and every
  // other key as it was.
  lemma {:induction false} SetLeaves(r: Registry, y: Layer, ws: seq<Write>, name: string)
    requires Sound(r) && Kept(r, y.store) && AllPass(r, ws) && StoreAll(r, y, ws).1
    ensures forall i: nat :: LastFor(ws, i, name) ==> Lookup(StoreAll(r, y, ws).0.store, name) == Left(r, ws[i])
    ensures (forall i :: 0 <= i < |ws| ==> ws[i].key != name) ==> Lookup(StoreAll(r, y, ws).0.store, name) == Lookup(y.store, name)
    decreases |ws|
  {
    if ws != [] {
      var w, rest := ws[0], ws[1..];
      PassStep(r, y, ws);
      hide Passes, AllPass, Kept, Sound, Lookup, OneWrite, StoreAll, Left;
      OneWriteLeaves(r, y, w, name);
      SetLeaves(r, OneWrite(r, y, w).value, rest, name);
      LastsOfRest(ws, name);
      hide LastFor;
    }
  }

  lemma LastsOfRest(ws: seq<Write>, name: string)
    requires ws != []
    ensures forall i: nat :: LastFor(ws, i, name) && i > 0 ==> LastFor(ws[1..], i - 1, name) && ws[1..][i - 1] == ws[i]
    ensures LastFor(ws, 0, name) ==> ws[0].key == name && forall i :: 0 <= i < |ws[1..]| ==> ws[1..][i].key != name
    ensures (forall i :: 0 <= i < |ws| ==> ws[i].key != name) ==> forall i :: 0 <= i < |ws[1..]| ==> ws[1..][i].key != name
  {
    assert forall j :: 0 <= j < |ws[1..]| ==> ws[1..][j] == ws[j + 1];
  }

  // ---- Enough slots for every name. ----

  function Keyed(b: string, ps: set<string>): set<string> { set p | p in ps :: b + "." + p }

  // Every scoped key there can be when these are the known providers.
  function KeysOf(ps: set<string>): set<string> {
    Keyed(KeyName(26), ps) + Keyed(KeyName(27), ps) + Keyed(KeyName(28), ps) + Keyed(KeyName(29), ps)
  }

  lemma {:induction false} KeyedCounts(b: string, ps: set<string>)
    ensures |Keyed(b, ps)| <= |ps|
  {
    if ps != {} {
      var p :| p in ps;
      KeyedCounts(b, ps - {p});
      assert Keyed(b, ps) == Keyed(b, ps - {p}) + {b + "." + p};
    }
  }

  lemma {:induction false} SetSizes(a: set<string>, b: set<string>)
    ensures |a + b| <= |a| + |b| && (a <= b ==> |a| <= |b|)
  {
    assert a + b == a + (b - a) && b == (b - a) + (a * b);
    if a <= b {
      assert b == a + (b - a);
    }
  }

  lemma KeysCount(ps: set<string>)
    ensures |KeysOf(ps)| <= 4 * |ps|
  {
    var a, b, c, d := Keyed(KeyName(26), ps), Keyed(KeyName(27), ps), Keyed(KeyName(28), ps), Keyed(KeyName(29), ps);
    KeyedCounts(KeyName(26), ps);
    KeyedCounts(KeyName(27), ps);
    KeyedCounts(KeyName(28), ps);
    KeyedCounts(KeyName(29), ps);
    hide Keyed, KeyName;
    SetSizes(a, b);
    SetSizes(a + b, c);
    SetSizes(a + b + c, d);
  }

  ghost predicate OnlyKnows(r: Registry, ps: set<string>) { forall p :: r.known(p) ==> p in ps }

  lemma ScopedKeyIsKeyed(r: Registry, ps: set<string>, key: string)
    requires OnlyKnows(r, ps) && ScopedSplit(r, key).Some?
    ensures key in KeysOf(ps)
  {
    var (b, p) := ScopedSplit(r, key).value;
    hide ScopedSplit, KeyName;
    assert p in ps && key == b + "." + p;
  }

  lemma {:induction false} DistinctNamesCount(scoped: seq<Slot>)
    requires forall i, j :: 0 <= i < j < |scoped| ==> scoped[i].name != scoped[j].name
    ensures |Names(scoped)| == |scoped|
  {
    if scoped != [] {
      var init, last := scoped[..|scoped| - 1], scoped[|scoped| - 1];
      DistinctNamesCount(init);
      assert scoped == init + [last];
      OneMoreName(init, last);
      assert last.name !in Names(init);
    }
  }

  // With at most eight providers the pool holds every set of short names.
  lemma FewProvidersFit(r: Registry, y: Layer, ws: seq<Write>, ps: set<string>)
    requires Kept(r, y.store) && OnlyKnows(r, ps) && |ps| <= 8 && ShortNames(r, ws)
    ensures Fits(r, y, ws)
  {
    var taken, more := Names(y.store.scoped), NewNames(r, y, ws);
    DistinctNamesCount(y.store.scoped);
    forall key | key in taken + more ensures key in KeysOf(ps) {
      if key in taken {
        var i :| 0 <= i < |y.store.scoped| && y.store.scoped[i].name == key;
        assert KeptSlot(r, y.store.scoped[i]);
      }
      ScopedKeyIsKeyed(r, ps, key);
    }
    hide ScopedSplit, KeysOf, Names, NewNames, ShortNames;
    KeysCount(ps);
    SetSizes(taken + more, KeysOf(ps));
    Disjoint(taken, more);
  }

  lemma Disjoint(a: set<string>, b: set<string>)
    requires a !! b
    ensures |a + b| == |a| + |b|
  {
  }

  // So with at most eight providers, none with a name past 117 characters, a set of
  // writes is one intent: it is stored whole, or it changes nothing.
  lemma FewProvidersStoreWhole(r: Registry, y: Layer, ws: seq<Write>, ps: set<string>)
    requires Kept(r, y.store) && OnlyKnows(r, ps) && |ps| <= 8 && forall p :: p in ps ==> |p| < 118
    ensures SetMany(r, y, ws).1 <==> Proper(r, ws)
    ensures !SetMany(r, y, ws).1 ==> SetMany(r, y, ws).0 == y
  {
    forall i | 0 <= i < |ws| && StoresScoped(r, ws[i]) ensures |ws[i].key| < SCOPED_KEY {
      ShortKey(r, ps, ws[i].key);
    }
    FewProvidersFit(r, y, ws, ps);
    hide ScopedSplit, Proper, Fits, Kept, SetMany;
    SetManyIsAllOrNothing(r, y, ws);
  }

  lemma ShortKey(r: Registry, ps: set<string>, key: string)
    requires OnlyKnows(r, ps) && (forall p :: p in ps ==> |p| < 118) && ScopedSplit(r, key).Some?
    ensures |key| < SCOPED_KEY
  {
    var (b, p) := ScopedSplit(r, key).value;
    assert |KeyName(26)| == 5 && |KeyName(27)| == 7 && |KeyName(28)| == 4 && |KeyName(29)| == 9;
    hide ScopedSplit, KeyName;
    assert p in ps;
  }

  // The five names of the installed registry.
  function Installed(): set<string> { {"ollama:cloud", "ollama:local", "openrouter", "opencode:go", "opencode:zen"} }

  lemma InstalledStoreWhole(r: Registry, y: Layer, ws: seq<Write>)
    requires Kept(r, y.store) && forall p :: r.known(p) <==> p in Installed()
    ensures SetMany(r, y, ws).1 <==> Proper(r, ws)
    ensures !SetMany(r, y, ws).1 ==> SetMany(r, y, ws).0 == y
  {
    FiveNames("ollama:cloud", "ollama:local", "openrouter", "opencode:go", "opencode:zen");
    assert forall p :: p in Installed() ==> |p| < 118;
    hide Installed, Kept, SetMany, Proper;
    FewProvidersStoreWhole(r, y, ws, Installed());
  }

  lemma FiveNames(a: string, b: string, c: string, d: string, e: string)
    ensures |{a, b, c, d, e}| <= 8
  {
  }

  // ---- Half a set. ----

  function As(n: nat): string { seq(n, i => 'a') }

  // Every name of one or more letters a is a provider.
  const PROVIDERS: Registry := Registry(n => n != [] && forall i :: 0 <= i < |n| ==> n[i] == 'a', (b, p, v) => None)

  function Provider(i: nat): string { "model." + As(i + 1) }

  function Picks(n: nat): (ops: seq<Op>)
    ensures |ops| == n
  {
    if n == 0 then [] else Picks(n - 1) + [Set(Pick(n - 1))]
  }

  function Picked(n: nat): Layer { Layer(Store(Blanks(NKEYS), seq(n, i requires i >= 0 => Slot(Provider(i), "x"))), n) }

  function Pick(i: nat): Write { Write(Provider(i), "x") }

  lemma DotIs(s: string, i: nat, k: nat)
    requires i <= k < |s| && s[k] == '.' && forall j :: i <= j < k ==> s[j] != '.'
    ensures DotAt(s, i) == k
    decreases k - i
  {
  }

  lemma PickSplits(i: nat)
    requires i <= NSCOPED
    ensures ScopedSplit(PROVIDERS, Provider(i)) == Some(("model", As(i + 1))) && |Provider(i)| == i + 7
  {
    var key := Provider(i);
    assert KeyName(MODEL) == "model";
    assert key[..5] == "model" && key[6..] == As(i + 1);
    assert forall j :: 0 <= j < 5 ==> key[j] == "model"[j];
    DotIs(key, 0, 5);
    hide KeyName, DotAt;
    assert PROVIDERS.known(As(i + 1));
  }

  lemma PickChecks(i: nat)
    requires i <= NSCOPED
    ensures CheckWrite(PROVIDERS, Provider(i), "x") == Some("x") && Passes(PROVIDERS, Pick(i))
  {
    PickSplits(i);
    assert KeyName(MODEL) == "model";
    hide ScopedSplit, KeyName;
  }

  lemma PickFills(i: nat)
    requires i <= NSCOPED
    ensures Passes(PROVIDERS, Pick(i)) && OneWrite(PROVIDERS, Picked(i), Pick(i)) == if i < NSCOPED then Some(Picked(i + 1)) else None
    ensures ApplyOp(PROVIDERS, Picked(i), Set(Pick(i))) == if i < NSCOPED then Picked(i + 1) else Picked(i)
  {
    PickSplits(i);
    PickChecks(i);
    var scoped := Picked(i).store.scoped;
    forall j | 0 <= j < i ensures scoped[j].name != Provider(i) {
      PickSplits(j);
    }
    SlotIs(scoped, Provider(i), i);
    hide ScopedSplit, CheckWrite, Provider, SlotAt, Passes;
    assert Picked(i + 1).store.scoped == scoped + [Slot(Provider(i), "x")];
  }

  lemma NonePicked()
    ensures Picked(0) == Layer(EMPTY(), 0)
  {
    assert Picked(0).store.scoped == [];
  }

  // Picking a model for n providers, one after the other, in an empty store.
  lemma {:induction false} PicksFill(n: nat)
    requires n <= NSCOPED
    ensures Run(PROVIDERS, Layer(EMPTY(), 0), Picks(n)) == Picked(n)
  {
    hide ApplyOp, Picked, Provider, Pick, EMPTY, Blanks, KeyName;
    if n == 0 {
      NonePicked();
    } else {
      PicksFill(n - 1);
      PickFills(n - 1);
      assert Picks(n)[..n - 1] == Picks(n - 1) && Picks(n)[n - 1] == Set(Pick(n - 1));
    }
  }

  lemma ProvidersDiffer(n: nat, i: nat)
    ensures forall j :: 0 <= j < n && j != i ==> Provider(j) != Provider(i)
  {
    forall j | 0 <= j < n && j != i ensures Provider(j) != Provider(i) {
      assert |Provider(j)| == j + 7 && |Provider(i)| == i + 7;
    }
  }

  lemma PickedReads(n: nat, i: nat)
    requires n <= NSCOPED && i <= NSCOPED
    ensures Lookup(Picked(n).store, Provider(i)) == if i < n then "x" else []
  {
    var scoped := Picked(n).store.scoped;
    DottedIsNoKey("model", As(i + 1));
    assert Provider(i) == "model" + "." + As(i + 1);
    ProvidersDiffer(n, i);
    hide FindKey, Provider, SlotAt, Blanks;
    SlotIs(scoped, Provider(i), if i < n then i else n);
  }

  lemma TwoWrites(r: Registry, y: Layer, v: Write, w: Write)
    requires Passes(r, v) && Passes(r, w) && OneWrite(r, y, v).Some? && OneWrite(r, OneWrite(r, y, v).value, w).None?
    ensures Proper(r, [v, w]) && SetMany(r, y, [v, w]) == (OneWrite(r, y, v).value, false)
  {
    hide Passes, StoreWrite, RemoveWrite, CheckWrite;
    var ws := [v, w];
    assert ws[1..] == [w] && [w][1..] == [];
    assert StoreAll(r, OneWrite(r, y, v).value, [w]) == (OneWrite(r, y, v).value, false);
    assert StoreAll(r, y, ws) == StoreAll(r, OneWrite(r, y, v).value, ws[1..]);
  }

  // A registry of more names can fill it: after a model was picked for 31 providers, a
  // set that picks one for two more is refused, and half of it is in the layer.
  lemma HalfASetIsStored()
    ensures var y := Run(PROVIDERS, Layer(EMPTY(), 0), Picks(31)); var ws := [Pick(31), Pick(32)];
      && Proper(PROVIDERS, ws) && !SetMany(PROVIDERS, y, ws).1
      && Lookup(y.store, Provider(31)) == [] && Lookup(SetMany(PROVIDERS, y, ws).0.store, Provider(31)) == "x"
      && Lookup(SetMany(PROVIDERS, y, ws).0.store, Provider(32)) == []
  {
    PicksFill(31);
    PickFills(31);
    PickFills(32);
    PickedReads(31, 31);
    PickedReads(32, 31);
    PickedReads(32, 32);
    hide Picks, Picked, Run, Pick, Provider, OneWrite, Passes, Lookup, Proper, SetMany;
    TwoWrites(PROVIDERS, Picked(31), Pick(31), Pick(32));
  }
}
