// Writes to the shadow layer (src/conf.c): what one key's write, removal and reset
// do, and what every sequence of them keeps.
module ConfLayer {
  import opened Common
  import opened ConfFamilies
  import opened ConfFile
  import opened ConfKeys
  import opened ConfRoundTrip
  import opened ConfValues
  import opened Decimal

  const WRITE_SET: nat := 4

  // The layer and the program's running count of the values in it.
  datatype Layer = Layer(store: Store, count: int)

  // A write asked for; an empty value asks for a removal.
  datatype Write = Write(key: string, value: string)

  // shadow_check: the canonical text, or a refusal. The plain `model` has no
  // persisted spelling.
  function CheckWrite(r: Registry, key: string, value: string): Option<string> {
    if key == [] || value == [] || key == KeyName(MODEL) then None
    else match ScopedSplit(r, key)
      case Some(p) => NormalizeScoped(r, p.0, Cut(p.1), value)
      case None =>
        match FindKey(key)
        case None => None
        case Some(i) => Normalize(r.known, KindOf(i), value)
  }

  function Bump(before: string): int { if before == [] then 1 else 0 }

  function ScopedValue(scoped: seq<Slot>, name: string): string {
    var k := SlotAt(scoped, name, 0);
    if k < |scoped| then scoped[k].value else []
  }

  // shadow_store; None when the scoped pool has no slot for the key.
  function StoreWrite(r: Registry, y: Layer, key: string, norm: string): Option<Layer> {
    if ScopedSplit(r, key).Some? then
      match PutScoped(y.store, key, norm)
      case None => None
      case Some(s) => Some(Layer(s, y.count + Bump(ScopedValue(y.store.scoped, key))))
    else
      match FindKey(key)
      case None => None
      case Some(i) => Some(Layer(y.store.(plain := y.store.plain[i := norm]), y.count + Bump(y.store.plain[i])))
  }

  // shadow_remove_one.
  function RemoveWrite(r: Registry, y: Layer, key: string): Layer {
    if ScopedSplit(r, key).Some? then
      var k := SlotAt(y.store.scoped, key, 0);
      if k < |y.store.scoped| && y.store.scoped[k].value != [] then
        Layer(y.store.(scoped := y.store.scoped[k := Slot(key, [])]), y.count - 1)
      else y
    else
      match FindKey(key)
      case None => y
      case Some(i) => if y.store.plain[i] == [] then y else Layer(y.store.(plain := y.store.plain[i := []]), y.count - 1)
  }

  function Emptied(scoped: seq<Slot>): seq<Slot> {
    seq(|scoped|, i requires 0 <= i < |scoped| => Slot(scoped[i].name, []))
  }

  // nm_config_shadow_reset without a key.
  function ResetAll(y: Layer): Layer { Layer(Store(Blanks(NKEYS), Emptied(y.store.scoped)), 0) }

  predicate Passes(r: Registry, w: Write) { w.key != [] && (w.value == [] || CheckWrite(r, w.key, w.value).Some?) }

  predicate AllPass(r: Registry, ws: seq<Write>) { forall i :: 0 <= i < |ws| ==> Passes(r, ws[i]) }

  lemma AllPassTail(r: Registry, ws: seq<Write>)
    requires AllPass(r, ws) && ws != []
    ensures Passes(r, ws[0]) && AllPass(r, ws[1..])
  {
    hide Passes;
  }

  // The second pass of a set of writes: it stops where a slot is missing.
  function StoreAll(r: Registry, y: Layer, ws: seq<Write>): (Layer, bool)
    requires AllPass(r, ws)
    decreases |ws|
  {
    if ws == [] then (y, true)
    else
      AllPassTail(r, ws);
      if ws[0].value == [] then StoreAll(r, RemoveWrite(r, y, ws[0].key), ws[1..])
      else match StoreWrite(r, y, ws[0].key, CheckWrite(r, ws[0].key, ws[0].value).value)
        case None => (y, false)
        case Some(z) => StoreAll(r, z, ws[1..])
  }

  // nm_config_shadow_set_many, before its flush.
  function SetMany(r: Registry, y: Layer, ws: seq<Write>): (Layer, bool) {
    if !(1 <= |ws| <= WRITE_SET) then (y, false)
    else if AllPass(r, ws) then StoreAll(r, y, ws)
    else (y, false)
  }

  // ---- Counting. ----

  // How far the running count is above the number of values.
  function Drift(y: Layer): int { y.count - Filled(y.store.plain) - |Used(y.store.scoped)| }

  lemma {:induction false} FilledUpdate(values: seq<string>, i: nat, v: string)
    requires i < |values|
    ensures Filled(values[i := v]) == Filled(values) + Bump(values[i]) - Bump(v)
  {
    var after := values[i := v];
    var init := values[..|values| - 1];
    if i == |values| - 1 {
      assert after[..|after| - 1] == init;
    } else {
      assert after[..|after| - 1] == init[i := v];
      FilledUpdate(init, i, v);
    }
  }

  lemma {:induction false} UsedUpdate(scoped: seq<Slot>, i: nat, x: Slot)
    requires i < |scoped|
    ensures |Used(scoped[i := x])| == |Used(scoped)| + Bump(scoped[i].value) - Bump(x.value)
  {
    var after := scoped[i := x];
    var init := scoped[..|scoped| - 1];
    if i == |scoped| - 1 {
      assert after[..|after| - 1] == init;
    } else {
      assert after[..|after| - 1] == init[i := x];
      UsedUpdate(init, i, x);
    }
  }

  lemma {:induction false} NoneFilled(n: nat)
    ensures Filled(Blanks(n)) == 0
  {
    if n > 0 {
      assert Blanks(n)[..n - 1] == Blanks(n - 1);
      NoneFilled(n - 1);
    }
  }

  lemma {:induction false} NoneUsed(scoped: seq<Slot>)
    ensures Used(Emptied(scoped)) == []
  {
    if scoped != [] {
      var init := scoped[..|scoped| - 1];
      assert Emptied(scoped)[..|scoped| - 1] == Emptied(init);
      NoneUsed(init);
    }
  }

  // ---- What every write keeps. ----

  lemma PutKeepsKept(r: Registry, s: Store, key: string, v: string)
    requires Kept(r, s) && ScopedSplit(r, key).Some? && |v| < VAL && PutScoped(s, key, v).Some?
    ensures Kept(r, PutScoped(s, key, v).value)
  {
    assert KeptSlot(r, Slot(key, v));
    hide ScopedSplit, KeptSlot;
    var t := PutScoped(s, key, v).value;
    var k := SlotAt(s.scoped, key, 0);
    forall i | 0 <= i < |t.scoped| ensures KeptSlot(r, t.scoped[i]) {
      assert i == k || t.scoped[i] == s.scoped[i];
    }
    forall i, j | 0 <= i < j < |t.scoped| ensures t.scoped[i].name != t.scoped[j].name {
      assert i == k || t.scoped[i] == s.scoped[i];
      assert j == k || t.scoped[j] == s.scoped[j];
    }
  }

  lemma PutCounts(s: Store, key: string, v: string)
    requires PutScoped(s, key, v).Some?
    ensures PutScoped(s, key, v).value.plain == s.plain
    ensures |Used(PutScoped(s, key, v).value.scoped)| == |Used(s.scoped)| + Bump(ScopedValue(s.scoped, key)) - Bump(v)
  {
    var k := SlotAt(s.scoped, key, 0);
    if k < |s.scoped| {
      UsedUpdate(s.scoped, k, Slot(key, v));
    } else {
      assert (s.scoped + [Slot(key, v)])[..k] == s.scoped;
    }
    hide Used;
  }

  // A stored value is counted once, whatever the slot held.
  lemma StoreKeepsLayer(r: Registry, y: Layer, key: string, v: string)
    requires Kept(r, y.store) && v != [] && |v| < VAL && StoreWrite(r, y, key, v).Some?
    ensures Kept(r, StoreWrite(r, y, key, v).value.store) && Drift(StoreWrite(r, y, key, v).value) == Drift(y)
  {
    if ScopedSplit(r, key).Some? {
      PutKeepsKept(r, y.store, key, v);
      PutCounts(y.store, key, v);
      hide Used, Kept, ScopedSplit;
    } else {
      FilledUpdate(y.store.plain, FindKey(key).value, v);
      hide Filled, Used;
    }
  }

  lemma RemoveKeepsLayer(r: Registry, y: Layer, key: string)
    requires Kept(r, y.store)
    ensures Kept(r, RemoveWrite(r, y, key).store) && Drift(RemoveWrite(r, y, key)) == Drift(y)
  {
    hide ScopedSplit, Used, Filled;
    if ScopedSplit(r, key).Some? {
      var k := SlotAt(y.store.scoped, key, 0);
      if k < |y.store.scoped| {
        UsedUpdate(y.store.scoped, k, Slot(key, []));
      }
      hide Kept;
    } else if FindKey(key).Some? {
      FilledUpdate(y.store.plain, FindKey(key).value, []);
      hide KeptSlot;
    }
  }

  lemma ResetKeepsLayer(r: Registry, y: Layer)
    requires Kept(r, y.store)
    ensures Kept(r, ResetAll(y).store) && Drift(ResetAll(y)) == 0
  {
    NoneFilled(NKEYS);
    NoneUsed(y.store.scoped);
    hide Used, Filled, ScopedSplit;
  }

  lemma CheckedIsShort(r: Registry, key: string, value: string)
    requires Sound(r) && CheckWrite(r, key, value).Some?
    ensures |CheckWrite(r, key, value).value| < VAL && CheckWrite(r, key, value).value != []
  {
    hide ScopedSplit, FindKey, KeyName;
    if ScopedSplit(r, key).None? {
      NormalizedIsShort(r.known, KindOf(FindKey(key).value), value);
    }
    hide Normalize;
  }

  lemma NormalizedIsShort(known: string -> bool, k: Kind, raw: string)
    requires Normalize(known, k, raw).Some?
    ensures |Normalize(known, k, raw).value| < VAL && (raw != [] ==> Normalize(known, k, raw).value != [])
  {
    hide IntValue, Mode, Temperature, FamilySet, IsOff, Duration, Digits, CleanValue;
    ModesAreClean(raw);
    ModesAreShort(raw);
    if Temperature(raw).Some? {
      DecimalIsSolid(raw);
      CleanIsShort(Temperature(raw).value);
    }
    if FamilySet(raw).Some? {
      FamiliesAreClean(raw);
      CleanIsShort(FamilySet(raw).value);
    }
  }

  lemma CleanIsShort(v: string)
    requires CleanValue(v)
    ensures v != [] && |v| < VAL
  {
  }

  lemma ModesAreShort(raw: string)
    ensures Mode(raw, EchoRows()).Some? ==> Mode(raw, EchoRows()).value != [] && |Mode(raw, EchoRows()).value| < VAL
    ensures Mode(raw, KbdRows()).Some? ==> Mode(raw, KbdRows()).value != [] && |Mode(raw, KbdRows()).value| < VAL
    ensures Mode(raw, ColorRows()).Some? ==> Mode(raw, ColorRows()).value != [] && |Mode(raw, ColorRows()).value| < VAL
    ensures Mode(raw, BoolRows()).Some? ==> Mode(raw, BoolRows()).value != [] && |Mode(raw, BoolRows()).value| < VAL
  {
    ModesAreClean(raw);
    hide Mode, EchoRows, KbdRows, ColorRows, BoolRows;
  }

  // ---- A write's effect on the map. ----

  lemma SlotIs(scoped: seq<Slot>, name: string, k: nat)
    requires k <= |scoped| && (k < |scoped| ==> scoped[k].name == name)
    requires forall j :: 0 <= j < k ==> scoped[j].name != name
    ensures SlotAt(scoped, name, 0) == k
  {
  }

  lemma ReplacingOneSlot(scoped: seq<Slot>, key: string, v: string, other: string)
    requires SlotAt(scoped, key, 0) < |scoped|
    ensures var after := scoped[SlotAt(scoped, key, 0) := Slot(key, v)];
      ScopedValue(after, key) == v && (other != key ==> ScopedValue(after, other) == ScopedValue(scoped, other))
  {
    var k := SlotAt(scoped, key, 0);
    var after := scoped[k := Slot(key, v)];
    SlotIs(after, key, k);
    if other != key {
      SlotIs(after, other, SlotAt(scoped, other, 0));
    }
  }

  lemma AppendingOneSlot(scoped: seq<Slot>, key: string, v: string, other: string)
    requires SlotAt(scoped, key, 0) == |scoped|
    ensures var after := scoped + [Slot(key, v)];
      ScopedValue(after, key) == v && (other != key ==> ScopedValue(after, other) == ScopedValue(scoped, other))
  {
    var after := scoped + [Slot(key, v)];
    SlotIs(after, key, |scoped|);
    if other != key {
      var m := SlotAt(scoped, other, 0);
      SlotIs(after, other, if m < |scoped| then m else |after|);
    }
  }

  // The written key reads back as written, and no other key changes.
  lemma StoreWritesOneKey(r: Registry, y: Layer, key: string, v: string, other: string)
    requires Sound(r) && StoreWrite(r, y, key, v).Some?
    ensures Lookup(StoreWrite(r, y, key, v).value.store, key) == v
    ensures other != key ==> Lookup(StoreWrite(r, y, key, v).value.store, other) == Lookup(y.store, other)
  {
    if ScopedSplit(r, key).Some? {
      ScopedNamesAreClean(r, key);
      hide ScopedSplit, KeyName, FindKey, SlotAt;
      var scoped := y.store.scoped;
      if SlotAt(scoped, key, 0) < |scoped| {
        ReplacingOneSlot(scoped, key, v, other);
      } else {
        AppendingOneSlot(scoped, key, v, other);
      }
    } else {
      hide ScopedSplit, KeyName, SlotAt;
    }
  }

  // A removed key reads as unset, and no other key changes.
  lemma RemoveClearsOneKey(r: Registry, y: Layer, key: string, other: string)
    requires Sound(r) && Kept(r, y.store)
    ensures Lookup(RemoveWrite(r, y, key).store, key) == []
    ensures other != key ==> Lookup(RemoveWrite(r, y, key).store, other) == Lookup(y.store, other)
  {
    var scoped := y.store.scoped;
    if ScopedSplit(r, key).Some? {
      ScopedNamesAreClean(r, key);
      hide ScopedSplit, KeyName, FindKey, SlotAt, KeptSlot;
      if SlotAt(scoped, key, 0) < |scoped| {
        ReplacingOneSlot(scoped, key, [], other);
      }
    } else {
      var k := SlotAt(scoped, key, 0);
      assert k < |scoped| ==> KeptSlot(r, scoped[k]);
      hide ScopedSplit, KeyName, SlotAt;
    }
  }

  // A reset leaves every key unset.
  lemma ResetClearsEveryKey(y: Layer, name: string)
    ensures Lookup(ResetAll(y).store, name) == [] && ResetAll(y).count == 0
  {
    hide KeyName;
  }

  // ---- Writes and the file. ----

  lemma OneScopedRestores(r: Registry, s: Store, key: string, v: string)
    requires Restores(r, s) && ScopedRestores(r, Slot(key, v)) && PutScoped(s, key, v).Some?
    ensures Restores(r, PutScoped(s, key, v).value)
  {
    hide ScopedRestores, PlainRestores;
  }

  lemma OnePlainRestores(r: Registry, s: Store, i: nat, v: string)
    requires i < NKEYS && Restores(r, s) && PlainRestores(r, i, v)
    ensures Restores(r, s.(plain := s.plain[i := v]))
  {
    hide ScopedRestores, PlainRestores;
  }

  // An accepted clean spelling keeps the layer one that the file restores.
  lemma CleanWritesRestore(r: Registry, y: Layer, key: string, value: string)
    requires Sound(r) && Kept(r, y.store) && Restores(r, y.store) && CleanValue(value)
    requires CheckWrite(r, key, value).Some? && StoreWrite(r, y, key, CheckWrite(r, key, value).value).Some?
    ensures Restores(r, StoreWrite(r, y, key, CheckWrite(r, key, value).value).value.store)
  {
    CleanIsShort(value);
    hide CleanValue, Normalize, NormalizeScoped, KeyName, ScopedSplit, Restores, PutScoped, PlainRestores, ScopedRestores, Sound, Kept;
    var v := CheckWrite(r, key, value).value;
    if ScopedSplit(r, key).Some? {
      AcceptedScopedRestores(r, key, value);
      OneScopedRestores(r, y.store, key, v);
    } else {
      AcceptedPlainRestores(r, FindKey(key).value, value);
      OnePlainRestores(r, y.store, FindKey(key).value, v);
    }
  }

  lemma RemovalsRestore(r: Registry, y: Layer, key: string)
    requires Kept(r, y.store) && Restores(r, y.store)
    ensures Restores(r, RemoveWrite(r, y, key).store)
  {
    hide CleanValue, Normalize, NormalizeScoped, KeyName, ScopedSplit;
  }

  // ---- Every sequence of writes. ----

  datatype Op = Set(write: Write) | SetSeveral(writes: seq<Write>) | Reset | ResetKey(key: string)

  // The layer after one call, whatever its flush answered.
  function ApplyOp(r: Registry, y: Layer, op: Op): Layer {
    match op
    case Set(w) =>
      if w.value == [] then RemoveWrite(r, y, w.key)
      else (match CheckWrite(r, w.key, w.value)
            case None => y
            case Some(norm) => (match StoreWrite(r, y, w.key, norm) case None => y case Some(z) => z))
    case SetSeveral(ws) => SetMany(r, y, ws).0
    case Reset => ResetAll(y)
    case ResetKey(key) => RemoveWrite(r, y, key)
  }

  // Whether the call goes on to write the file.
  predicate Applies(r: Registry, y: Layer, op: Op) {
    match op
    case Set(w) =>
      if w.value == [] then ScopedSplit(r, w.key).Some? || FindKey(w.key).Some?
      else CheckWrite(r, w.key, w.value).Some? && StoreWrite(r, y, w.key, CheckWrite(r, w.key, w.value).value).Some?
    case SetSeveral(ws) => SetMany(r, y, ws).1
    case Reset => true
    case ResetKey(key) => ScopedSplit(r, key).Some? || FindKey(key).Some?
  }

  // Clean spellings, so that what the layer keeps also survives the file.
  predicate CleanWrite(w: Write) { w.value == [] || CleanValue(w.value) }

  predicate CleanOp(op: Op) {
    match op
    case Set(w) => CleanWrite(w)
    case SetSeveral(ws) => forall i :: 0 <= i < |ws| ==> CleanWrite(ws[i])
    case _ => true
  }

  // Well kept, with the count so far off.
  predicate Sane(r: Registry, y: Layer, drift: int) { Kept(r, y.store) && Drift(y) == drift }

  // One acceptable write, stored or removed.
  function OneWrite(r: Registry, y: Layer, w: Write): Option<Layer>
    requires Passes(r, w)
  {
    if w.value == [] then Some(RemoveWrite(r, y, w.key)) else StoreWrite(r, y, w.key, CheckWrite(r, w.key, w.value).value)
  }

  lemma OneWriteKeeps(r: Registry, y: Layer, w: Write)
    requires Sound(r) && Kept(r, y.store) && Passes(r, w) && OneWrite(r, y, w).Some?
    ensures Sane(r, OneWrite(r, y, w).value, Drift(y))
    ensures CleanWrite(w) && Restores(r, y.store) ==> Restores(r, OneWrite(r, y, w).value.store)
  {
    if w.value == [] {
      RemoveKeepsLayer(r, y, w.key);
      if Restores(r, y.store) {
        RemovalsRestore(r, y, w.key);
      }
    } else {
      CheckedIsShort(r, w.key, w.value);
      StoreKeepsLayer(r, y, w.key, CheckWrite(r, w.key, w.value).value);
      if CleanWrite(w) && Restores(r, y.store) {
        hide StoreWrite, CheckWrite, CleanValue;
        CleanWritesRestore(r, y, w.key, w.value);
      }
    }
    hide StoreWrite, RemoveWrite, CheckWrite, Restores, Kept, Drift, CleanValue;
  }

  lemma {:induction false} StoreAllKeeps(r: Registry, y: Layer, ws: seq<Write>)
    requires Sound(r) && Kept(r, y.store) && AllPass(r, ws)
    ensures Sane(r, StoreAll(r, y, ws).0, Drift(y))
    ensures (forall i :: 0 <= i < |ws| ==> CleanWrite(ws[i])) && Restores(r, y.store) ==> Restores(r, StoreAll(r, y, ws).0.store)
    decreases |ws|
  {
    if ws != [] {
      AllPassTail(r, ws);
      hide Kept, Drift, Passes, AllPass, StoreWrite, RemoveWrite, CheckWrite, Restores, CleanWrite, Sound;
      assert forall i :: 0 <= i < |ws[1..]| ==> ws[1..][i] == ws[i + 1];
      if OneWrite(r, y, ws[0]).Some? {
        OneWriteKeeps(r, y, ws[0]);
        StoreAllKeeps(r, OneWrite(r, y, ws[0]).value, ws[1..]);
      }
    }
  }

  lemma OpKeeps(r: Registry, y: Layer, op: Op)
    requires Sound(r) && Kept(r, y.store)
    ensures Sane(r, ApplyOp(r, y, op), if op.Reset? then 0 else Drift(y))
    ensures CleanOp(op) && Restores(r, y.store) ==> Restores(r, ApplyOp(r, y, op).store)
  {
    hide StoreWrite, RemoveWrite, CheckWrite, Restores, Sound, StoreAll, CleanValue, Kept, Drift;
    match op
    case Set(w) =>
      if w.value == [] {
        RemovalKeeps(r, y, w.key);
      } else if Passes(r, w) {
        if OneWrite(r, y, w).Some? {
          OneWriteKeeps(r, y, w);
        }
      } else {
        NoKeyNoCheck(r, w);
      }
    case SetSeveral(ws) =>
      if AllPass(r, ws) {
        StoreAllKeeps(r, y, ws);
      }
    case Reset =>
      ResetKeepsLayer(r, y);
      ResetRestores(r, y);
    case ResetKey(key) =>
      RemovalKeeps(r, y, key);
  }

  lemma NoKeyNoCheck(r: Registry, w: Write)
    requires !Passes(r, w) && w.value != []
    ensures CheckWrite(r, w.key, w.value).None?
  {
    hide ScopedSplit, FindKey, KeyName;
  }

  lemma RemovalKeeps(r: Registry, y: Layer, key: string)
    requires Kept(r, y.store)
    ensures Sane(r, RemoveWrite(r, y, key), Drift(y))
    ensures Restores(r, y.store) ==> Restores(r, RemoveWrite(r, y, key).store)
  {
    RemoveKeepsLayer(r, y, key);
    if Restores(r, y.store) {
      RemovalsRestore(r, y, key);
    }
    hide RemoveWrite, Restores, Kept, Drift;
  }

  lemma ResetRestores(r: Registry, y: Layer)
    ensures Restores(r, ResetAll(y).store)
  {
    hide CleanValue, Normalize, NormalizeScoped, ScopedSplit;
  }

  function Run(r: Registry, start: Layer, ops: seq<Op>): Layer {
    if ops == [] then start
    else ApplyOp(r, Run(r, start, ops[..|ops| - 1]), ops[|ops| - 1])
  }

  predicate AnyReset(ops: seq<Op>) { exists i :: 0 <= i < |ops| && ops[i].Reset? }

  predicate AllClean(ops: seq<Op>) { forall i :: 0 <= i < |ops| ==> CleanOp(ops[i]) }

  lemma OneMoreOp(ops: seq<Op>)
    requires ops != []
    ensures var before, op := ops[..|ops| - 1], ops[|ops| - 1];
      (AnyReset(ops) <==> AnyReset(before) || op.Reset?) && (AllClean(ops) <==> AllClean(before) && CleanOp(op))
  {
    hide CleanOp;
    var before := ops[..|ops| - 1];
    assert forall i :: 0 <= i < |before| ==> before[i] == ops[i];
  }

  // Whatever layer the calls start from, it stays well kept, and its count stays as
  // far above the number of values as it was, until a reset brings it level; after
  // calls with clean spellings the file restores it.
  lemma {:induction false} EveryRunKeeps(r: Registry, start: Layer, ops: seq<Op>)
    requires Sound(r) && Kept(r, start.store)
    ensures Sane(r, Run(r, start, ops), if AnyReset(ops) then 0 else Drift(start))
    ensures AllClean(ops) && Restores(r, start.store) ==> Restores(r, Run(r, start, ops).store)
  {
    if ops != [] {
      EveryRunKeeps(r, start, ops[..|ops| - 1]);
      OneMoreOp(ops);
      hide Kept, Drift, Restores, CleanOp, ApplyOp, Sound, AnyReset, AllClean;
      OpKeeps(r, Run(r, start, ops[..|ops| - 1]), ops[|ops| - 1]);
    }
  }

  lemma EmptyIsSane(r: Registry)
    ensures Sane(r, Layer(EMPTY(), 0), 0) && Restores(r, EMPTY())
  {
    EmptyRestores(r);
    NoneFilled(NKEYS);
    hide Filled, Restores, ScopedSplit;
  }

  // The store's own law: whatever clean values were set, replaced, removed and
  // reset, in whatever order, the file written last gives back every key's value.
  lemma SavedSettingsReadBack(r: Registry, start: Layer, ops: seq<Op>, name: string)
    requires Sound(r) && Kept(r, start.store) && Restores(r, start.store) && AllClean(ops)
    requires |Render(Run(r, start, ops).store)| <= FILE_MAX
    ensures var end := Run(r, start, ops);
      Reload(r, Render(end.store)).count == end.count - if AnyReset(ops) then 0 else Drift(start)
    ensures var end := Run(r, start, ops);
      Lookup(Reload(r, Render(end.store)).store, name) == Lookup(end.store, name)
  {
    EveryRunKeeps(r, start, ops);
    var y := Run(r, start, ops);
    assert Kept(r, y.store) && y.count - Filled(y.store.plain) - |Used(y.store.scoped)| == if AnyReset(ops) then 0 else Drift(start);
    hide Run, Render, Restores, Reload, Lookup, Sound, AllClean, AnyReset, Drift;
    WrittenReadsBack(r, y.store);
    DroppingEmptySlots(y.store, name);
  }

  // ---- A file read at startup. ----

  lemma AcceptKeepsKept(r: Registry, l: Loaded, key: string, val: string)
    requires Sound(r) && Kept(r, l.store)
    ensures Kept(r, Accept(r, l, key, val).store)
  {
    hide Normalize, NormalizeScoped, ScopedSplit, KeptSlot, PutScoped, Sound;
    match FindKey(key)
    case Some(i) =>
      if Normalize(r.known, KindOf(i), val).Some? {
        NormalizedIsShort(r.known, KindOf(i), val);
      }
    case None =>
      if ScopedSplit(r, key).Some? {
        var p := ScopedSplit(r, key).value;
        var norm := NormalizeScoped(r, p.0, Cut(p.1), val);
        if norm.Some? {
          ScopedIsShort(r, p.0, Cut(p.1), val);
          if PutScoped(l.store, key, norm.value).Some? {
            PutKeepsKept(r, l.store, key, norm.value);
          }
        }
      }
      hide Kept;
  }

  lemma ScopedIsShort(r: Registry, base: string, provider: string, raw: string)
    requires Sound(r) && NormalizeScoped(r, base, provider, raw).Some?
    ensures |NormalizeScoped(r, base, provider, raw).value| < VAL
  {
    hide KeyName;
  }

  lemma {:induction false} ScanKeepsKept(r: Registry, l: Loaded, s: string)
    requires Sound(r) && Kept(r, l.store)
    ensures Kept(r, Scan(r, l, s).store)
    decreases |s|
  {
    hide Kept, Accept, Sound;
    var a := DropSpace(s);
    if a != [] {
      if a[0] == '#' {
        ScanKeepsKept(r, l, a[LineLen(a)..]);
      } else {
        var k := KeyLen(a);
        if k == |a| || a[k] == '\n' {
          ScanKeepsKept(r, l, a[k..]);
        } else {
          var b := DropBlanks(a[k + 1..]);
          var v := LineLen(b);
          AcceptKeepsKept(r, l, TrimEnd(a[..k]), TrimEnd(b[..v]));
          ScanKeepsKept(r, Accept(r, l, TrimEnd(a[..k]), TrimEnd(b[..v])), b[v..]);
        }
      }
    }
  }

  // The layer nm_config_load leaves.
  function FromFile(r: Registry, text: string): Layer { Layer(Reload(r, text).store, Reload(r, text).count) }

  lemma FromFileIsKept(r: Registry, text: string)
    requires Sound(r)
    ensures Kept(r, FromFile(r, text).store) && Restores(r, FromFile(r, text).store)
  {
    EmptyIsSane(r);
    hide Scan, Restores, Kept, Sound;
    var buf := if |text| <= FILE_MAX then text else text[..FILE_MAX];
    var l := Loaded(EMPTY(), 0);
    assert Kept(r, l.store);
    ScanKeepsKept(r, l, buf);
    ScanRestores(r, l, buf);
  }

  // A session that starts from any file at all: what it changes with clean
  // spellings, and what it leaves alone, comes back from the file it writes.
  lemma SessionsReadBack(r: Registry, text: string, ops: seq<Op>, name: string)
    requires Sound(r) && AllClean(ops)
    ensures var end := Run(r, FromFile(r, text), ops);
      |Render(end.store)| <= FILE_MAX ==>
        Lookup(Reload(r, Render(end.store)).store, name) == Lookup(end.store, name)
  {
    FromFileIsKept(r, text);
    hide Reload, Run, Render, Restores, Kept, Lookup, Sound, AllClean, AnyReset, Drift;
    if |Render(Run(r, FromFile(r, text), ops).store)| <= FILE_MAX {
      SavedSettingsReadBack(r, FromFile(r, text), ops, name);
    }
  }

  // Whatever a file holds, rewriting what was read from it changes no value.
  lemma RewritingAFileIsHarmless(r: Registry, text: string, name: string)
    requires Sound(r)
    ensures |Render(Reload(r, text).store)| <= FILE_MAX ==>
      Lookup(Reload(r, Render(Reload(r, text).store)).store, name) == Lookup(Reload(r, text).store, name)
  {
    hide Reload, Render, Restores, Kept, Lookup, Sound, CleanOp, Drift;
    SessionsReadBack(r, text, [], name);
  }
}
