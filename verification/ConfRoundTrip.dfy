// When the shadow file reads back as the layer that was written (src/conf.c).
module ConfRoundTrip {
  import opened Common
  import opened ConfFamilies
  import opened ConfFile
  import opened ConfKeys
  import opened ConfValues
  import opened Decimal

  // What every shadow layer keeps: a slot per key, each within its buffer, and a
  // bounded pool of distinct, well-named scoped slots.
  predicate Kept(r: Registry, s: Store) {
    && |s.scoped| <= NSCOPED
    && (forall i :: 0 <= i < NKEYS ==> |s.plain[i]| < VAL)
    && (forall i :: 0 <= i < |s.scoped| ==> KeptSlot(r, s.scoped[i]))
    && (forall i, j :: 0 <= i < j < |s.scoped| ==> s.scoped[i].name != s.scoped[j].name)
  }

  predicate KeptSlot(r: Registry, x: Slot) {
    ScopedSplit(r, x.name).Some? && |x.name| < SCOPED_KEY && |x.value| < VAL
  }

  // A slot's value survives the file: it is clean, and accepting it again gives it
  // back.
  predicate PlainRestores(r: Registry, i: nat, v: string) { v == [] || (CleanValue(v) && Normalize(r.known, KindOf(i), v) == Some(v)) }

  predicate ScopedRestores(r: Registry, x: Slot) {
    x.value == [] || (CleanValue(x.value) && ScopedSplit(r, x.name).Some?
                      && NormalizeScoped(r, ScopedSplit(r, x.name).value.0, Cut(ScopedSplit(r, x.name).value.1), x.value) == Some(x.value))
  }

  predicate Restores(r: Registry, s: Store) {
    && (forall i :: 0 <= i < NKEYS ==> PlainRestores(r, i, s.plain[i]))
    && (forall i :: 0 <= i < |s.scoped| ==> ScopedRestores(r, s.scoped[i]))
  }

  // ---- Written, then read. ----

  function Filled(values: seq<string>): nat {
    if values == [] then 0 else Filled(values[..|values| - 1]) + (if values[|values| - 1] == [] then 0 else 1)
  }

  // The scoped slots that hold a value.
  function Used(scoped: seq<Slot>): seq<Slot> {
    if scoped == [] then []
    else Used(scoped[..|scoped| - 1]) + (if scoped[|scoped| - 1].value == [] then [] else [scoped[|scoped| - 1]])
  }

  function Upto(plain: Slots, i: nat): Slots
    requires i <= NKEYS
  {
    plain[..i] + Blanks(NKEYS - i)
  }

  lemma UptoNext(plain: Slots, i: nat)
    requires i < NKEYS
    ensures Upto(plain, i)[i := plain[i]] == Upto(plain, i + 1)
    ensures plain[i] == [] ==> Upto(plain, i) == Upto(plain, i + 1)
    ensures Filled(plain[..i + 1]) == Filled(plain[..i]) + (if plain[i] == [] then 0 else 1)
  {
    assert plain[..i + 1][..i] == plain[..i];
  }

  // Accepting a plain key's own line.
  lemma AcceptPlain(r: Registry, l: Loaded, i: nat, v: string)
    requires i < NKEYS && v != [] && PlainRestores(r, i, v)
    ensures Accept(r, l, KeyName(i), v) == Loaded(l.store.(plain := l.store.plain[i := v]), l.count + 1)
  {
    PlainNamesAreClean(i);
    KeyIsFound(0, i);
    hide KeyName, Normalize;
  }

  lemma {:induction false} PlainReadsBack(r: Registry, s: Store, i: nat, rest: string)
    requires i <= NKEYS && Restores(r, s)
    ensures Scan(r, Loaded(Store(Upto(s.plain, i), []), Filled(s.plain[..i])), RenderPlain(s.plain, i) + rest)
         == Scan(r, Loaded(Store(s.plain, []), Filled(s.plain)), rest)
    decreases NKEYS - i
  {
    hide Accept, Scan, KeyName, Normalize, Filled, Upto, LineOf;
    if i == NKEYS {
      assert s.plain[..i] == s.plain;
      UptoAll(s.plain);
      assert RenderPlain(s.plain, i) + rest == rest;
    } else {
      var v := s.plain[i];
      var l := Loaded(Store(Upto(s.plain, i), []), Filled(s.plain[..i]));
      UptoNext(s.plain, i);
      var more := RenderPlain(s.plain, i + 1);
      Assoc(LineOf(KeyName(i), v), more, rest);
      PlainReadsBack(r, s, i + 1, rest);
      if v == [] {
        NoLine(KeyName(i), more + rest);
      } else {
        PlainNamesAreClean(i);
        PrintedLineIsAccepted(r, l, KeyName(i), v, more + rest);
        AcceptPlain(r, l, i, v);
      }
    }
  }

  lemma UptoAll(plain: Slots)
    ensures Upto(plain, NKEYS) == plain && Upto(plain, 0) == EMPTY().plain
    ensures Filled(plain[..0]) == 0
  {
  }

  lemma NoLine(name: string, rest: string)
    ensures LineOf(name, []) + rest == rest
  {
  }

  lemma {:induction false} UsedAreSlots(scoped: seq<Slot>)
    ensures |Used(scoped)| <= |scoped|
    ensures forall x :: x in Used(scoped) ==> x in scoped
  {
    if scoped != [] {
      UsedAreSlots(scoped[..|scoped| - 1]);
    }
  }

  // Accepting a scoped slot's own line appends it to the slots read so far.
  lemma AcceptScoped(r: Registry, l: Loaded, x: Slot)
    requires Sound(r) && |l.store.scoped| < NSCOPED
    requires KeptSlot(r, x) && x.value != [] && ScopedRestores(r, x)
    requires forall y :: y in l.store.scoped ==> y.name != x.name
    ensures Accept(r, l, x.name, x.value) == Loaded(l.store.(scoped := l.store.scoped + [x]), l.count + 1)
  {
    ScopedNamesAreClean(r, x.name);
    hide ScopedSplit, NormalizeScoped, FindKey;
    assert SlotAt(l.store.scoped, x.name, 0) == |l.store.scoped|;
  }

  lemma {:induction false} ScopedReadsBack(r: Registry, s: Store, j: nat)
    requires Sound(r) && Kept(r, s) && Restores(r, s) && j <= |s.scoped|
    ensures Scan(r, Loaded(Store(s.plain, Used(s.scoped[..j])), Filled(s.plain) + |Used(s.scoped[..j])|), RenderScoped(s.scoped[j..]))
         == Loaded(Store(s.plain, Used(s.scoped)), Filled(s.plain) + |Used(s.scoped)|)
    decreases |s.scoped| - j
  {
    hide Accept, Scan, Normalize, Filled, Used, LineOf, KeptSlot, ScopedRestores, NormalizeScoped, ScopedSplit;
    if j == |s.scoped| {
      assert s.scoped[..j] == s.scoped && s.scoped[j..] == [];
      EmptyScan(r, Loaded(Store(s.plain, Used(s.scoped)), Filled(s.plain) + |Used(s.scoped)|));
    } else {
      var x := s.scoped[j];
      var l := Loaded(Store(s.plain, Used(s.scoped[..j])), Filled(s.plain) + |Used(s.scoped[..j])|);
      UsedNext(s.scoped, j);
      UsedAreSlots(s.scoped[..j]);
      assert s.scoped[j..][1..] == s.scoped[j + 1..];
      ScopedReadsBack(r, s, j + 1);
      if x.value == [] {
        NoLine(x.name, RenderScoped(s.scoped[j + 1..]));
        assert Used(s.scoped[..j + 1]) == Used(s.scoped[..j]);
      } else {
        RestoredSlot(r, x);
        PrintedLineIsAccepted(r, l, x.name, x.value, RenderScoped(s.scoped[j + 1..]));
        AcceptScoped(r, l, x);
      }
    }
  }

  lemma RestoredSlot(r: Registry, x: Slot)
    requires Sound(r) && KeptSlot(r, x) && x.value != [] && ScopedRestores(r, x)
    ensures CleanName(x.name) && CleanValue(x.value)
  {
    ScopedNamesAreClean(r, x.name);
  }

  lemma UsedNext(scoped: seq<Slot>, j: nat)
    requires j < |scoped|
    ensures Used(scoped[..j + 1]) == Used(scoped[..j]) + (if scoped[j].value == [] then [] else [scoped[j]])
  {
    assert scoped[..j + 1][..j] == scoped[..j];
  }

  lemma EmptyScan(r: Registry, l: Loaded)
    ensures Scan(r, l, []) == l
  {
  }

  // A layer whose values survive is read back slot for slot, less the empty scoped
  // slots, and the scan counts its values.
  lemma WrittenReadsBack(r: Registry, s: Store)
    requires Sound(r) && Kept(r, s) && Restores(r, s) && |Render(s)| <= FILE_MAX
    ensures Reload(r, Render(s)) == Loaded(Store(s.plain, Used(s.scoped)), Filled(s.plain) + |Used(s.scoped)|)
  {
    hide Scan, RenderPlain, RenderScoped, Restores, Kept, Filled, Used;
    PlainPart(r, s);
    ScopedPart(r, s);
  }

  // The scan of the plain half of what was written, and of the scoped half after it.
  lemma PlainPart(r: Registry, s: Store)
    requires Sound(r) && Kept(r, s) && Restores(r, s)
    ensures Scan(r, Loaded(EMPTY(), 0), RenderPlain(s.plain, 0) + RenderScoped(s.scoped))
      == Scan(r, Loaded(Store(s.plain, []), Filled(s.plain)), RenderScoped(s.scoped))
  {
    UptoAll(s.plain);
    hide Scan, RenderPlain, RenderScoped, Restores, Kept, Filled, Upto;
    PlainReadsBack(r, s, 0, RenderScoped(s.scoped));
  }

  lemma NoneUsedYet(scoped: seq<Slot>)
    ensures scoped[0..] == scoped && Used(scoped[..0]) == []
  {
  }

  lemma ScopedPart(r: Registry, s: Store)
    requires Sound(r) && Kept(r, s) && Restores(r, s)
    ensures Scan(r, Loaded(Store(s.plain, []), Filled(s.plain)), RenderScoped(s.scoped))
      == Loaded(Store(s.plain, Used(s.scoped)), Filled(s.plain) + |Used(s.scoped)|)
  {
    hide Scan, RenderScoped, Restores, Kept, Filled, Used, Sound;
    NoneUsedYet(s.scoped);
    ScopedReadsBack(r, s, 0);
    var none := Used(s.scoped[..0]);
    assert |none| == 0 && Filled(s.plain) + |none| == Filled(s.plain);
  }

  // ---- The layer as a map. ----

  // The value under a key's name; empty when the key is not set.
  function Lookup(s: Store, name: string): string {
    match FindKey(name)
    case Some(i) => s.plain[i]
    case None =>
      var k := SlotAt(s.scoped, name, 0);
      if k < |s.scoped| then s.scoped[k].value else []
  }

  ghost predicate SameMap(a: Store, b: Store) { forall name :: Lookup(a, name) == Lookup(b, name) }

  lemma {:induction false} UsedAreThere(scoped: seq<Slot>, x: Slot)
    requires x in scoped && x.value != []
    ensures x in Used(scoped)
  {
    var init := scoped[..|scoped| - 1];
    if x in init {
      UsedAreThere(init, x);
    } else {
      assert scoped == init + [scoped[|scoped| - 1]];
    }
  }

  lemma {:induction false} UsedHoldValues(scoped: seq<Slot>)
    ensures forall x :: x in Used(scoped) ==> x.value != []
  {
    if scoped != [] {
      UsedHoldValues(scoped[..|scoped| - 1]);
    }
  }

  predicate Distinct(scoped: seq<Slot>) { forall i, j :: 0 <= i < j < |scoped| ==> scoped[i].name != scoped[j].name }

  // Dropping the empty slots changes no value.
  lemma DroppingEmptySlots(s: Store, name: string)
    requires Distinct(s.scoped)
    ensures Lookup(Store(s.plain, Used(s.scoped)), name) == Lookup(s, name)
  {
    hide FindKey;
    var t := Used(s.scoped);
    UsedAreSlots(s.scoped);
    UsedHoldValues(s.scoped);
    var k := SlotAt(s.scoped, name, 0);
    var m := SlotAt(t, name, 0);
    if m < |t| {
      assert t[m] in s.scoped;
    } else if k < |s.scoped| && s.scoped[k].value != [] {
      UsedAreThere(s.scoped, s.scoped[k]);
      assert false;
    }
  }

  // ---- Whatever is read restores. ----

  // A parsed value: empty, or clean; at most a line's worth.
  lemma ParsedValueIsClean(b: string, v: nat)
    requires b == [] || !Blank(b[0])
    requires v <= |b| && forall i :: 0 <= i < v ==> b[i] != '\n'
    requires |TrimEnd(b[..v])| < VAL
    ensures TrimEnd(b[..v]) == [] || CleanValue(TrimEnd(b[..v]))
  {
    var t := TrimEnd(b[..v]);
    assert t <= b[..v];
    assert forall i :: 0 <= i < |t| ==> t[i] == b[i];
  }

  lemma TextIsClean(d: Number)
    requires 1 <= |d.whole| <= 8 && |d.frac| <= 9
    ensures CleanValue(Text(d))
  {
    var t := Text(d);
    assert forall i :: 0 <= i < |t| ==> IsDigit(t[i]) || t[i] == '.';
    assert t[0] == d.whole[0] && (d.frac != [] ==> t[|t| - 1] == d.frac[|d.frac| - 1]);
  }

  lemma DecimalIsSolid(raw: string)
    requires Temperature(raw).Some?
    ensures CleanValue(Temperature(raw).value)
  {
    hide Read, Text, CleanValue, Canon;
    var d := Read(raw, 8).value;
    ReadIffSpells(raw, 8, d);
    CanonKeepsValue(d);
    TextIsClean(Canon(d));
  }

  lemma RowsAreClean(rows: seq<Row>, raw: string)
    requires Mode(raw, rows).Some? && forall i :: 0 <= i < |rows| ==> CleanValue(rows[i].canon)
    ensures CleanValue(Mode(raw, rows).value)
  {
    ModeIsARow(raw, rows);
  }

  lemma ModesAreClean(raw: string)
    ensures Mode(raw, EchoRows()).Some? ==> CleanValue(Mode(raw, EchoRows()).value)
    ensures Mode(raw, KbdRows()).Some? ==> CleanValue(Mode(raw, KbdRows()).value)
    ensures Mode(raw, ColorRows()).Some? ==> CleanValue(Mode(raw, ColorRows()).value)
    ensures Mode(raw, BoolRows()).Some? ==> CleanValue(Mode(raw, BoolRows()).value)
  {
    assert forall i :: 0 <= i < |EchoRows()| ==> CleanValue(EchoRows()[i].canon);
    assert forall i :: 0 <= i < |KbdRows()| ==> CleanValue(KbdRows()[i].canon);
    assert forall i :: 0 <= i < |ColorRows()| ==> CleanValue(ColorRows()[i].canon);
    assert forall i :: 0 <= i < |BoolRows()| ==> CleanValue(BoolRows()[i].canon);
    hide CleanValue, EchoRows, KbdRows, ColorRows, BoolRows, Mode;
    if Mode(raw, EchoRows()).Some? { RowsAreClean(EchoRows(), raw); }
    if Mode(raw, KbdRows()).Some? { RowsAreClean(KbdRows(), raw); }
    if Mode(raw, ColorRows()).Some? { RowsAreClean(ColorRows(), raw); }
    if Mode(raw, BoolRows()).Some? { RowsAreClean(BoolRows(), raw); }
  }

  lemma FamiliesAreClean(raw: string)
    requires FamilySet(raw).Some?
    ensures CleanValue(FamilySet(raw).value)
  {
    hide Words;
    assert SetText([Neither]) == Some("none") && SetText([V4]) == Some("IPv4");
    assert SetText([V6]) == Some("IPv6") && SetText([V4, V6]) == Some("IPv4+IPv6");
  }

  lemma OffIsClean()
    ensures CleanValue("off")
  {
  }

  lemma DigitsAreClean(s: DigitString)
    requires s != [] && |s| < VAL
    ensures CleanValue(s)
  {
  }

  // What a clean spelling is canonicalised to is clean, except an endpoint's empty
  // value; only provider and endpoint copy free text.
  lemma NormalizedIsClean(known: string -> bool, k: Kind, raw: string)
    requires Normalize(known, k, raw).Some?
    requires k == Provider || k == Endpoint ==> raw == [] || CleanValue(raw)
    ensures Normalize(known, k, raw).value == [] || CleanValue(Normalize(known, k, raw).value)
  {
    hide IntValue, Mode, Temperature, FamilySet, IsOff, CleanValue;
    OffIsClean();
    match k {
      case Provider => ShortFits(raw);
      case Positive => FitKeepsDigits(raw); DigitsAreClean(Fit(raw));
      case ImageLive => if !IsOff(raw) { FitKeepsDigits(raw); DigitsAreClean(Fit(raw)); }
      case Sampling => DecimalIsSolid(raw);
      case Echo => ModesAreClean(raw);
      case Kbd => ModesAreClean(raw);
      case Color => ModesAreClean(raw);
      case Budget => if !IsOff(raw) { FitKeepsDigits(raw); DigitsAreClean(Fit(raw)); }
      case Ttl => if !IsOff(raw) { FitKeepsDigits(raw); DigitsAreClean(Fit(raw)); }
      case Poll => if !IsOff(raw) { FitKeepsDigits(raw); DigitsAreClean(Fit(raw)); }
      case Flag => ModesAreClean(raw);
      case Families => FamiliesAreClean(raw);
      case Endpoint => ShortFits(raw);
    }
  }

  lemma ShortFits(raw: string)
    requires raw == [] || CleanValue(raw)
    ensures Fit(raw) == raw
  {
  }

  // A plain line leaves a value that survives.
  lemma AcceptedPlainRestores(r: Registry, i: nat, val: string)
    requires i < NKEYS && |val| < VAL && (val == [] || CleanValue(val)) && Normalize(r.known, KindOf(i), val).Some?
    ensures PlainRestores(r, i, Normalize(r.known, KindOf(i), val).value)
  {
    NormalizedIsClean(r.known, KindOf(i), val);
    NormalizeIsIdempotentIff(r.known, KindOf(i), val);
    hide Normalize, CleanValue;
  }

  // A scoped line too.
  lemma AcceptedScopedRestores(r: Registry, key: string, val: string)
    requires Sound(r) && |val| < VAL && (val == [] || CleanValue(val)) && ScopedSplit(r, key).Some?
    requires var p := ScopedSplit(r, key).value; NormalizeScoped(r, p.0, Cut(p.1), val).Some?
    ensures var p := ScopedSplit(r, key).value; ScopedRestores(r, Slot(key, NormalizeScoped(r, p.0, Cut(p.1), val).value))
  {
    hide CleanValue, KeyName, ScopedSplit;
  }

  lemma AcceptKeepsRestores(r: Registry, l: Loaded, key: string, val: string)
    requires Sound(r) && Restores(r, l.store) && (|val| < VAL ==> val == [] || CleanValue(val))
    ensures Restores(r, Accept(r, l, key, val).store)
  {
    hide CleanValue, Normalize, NormalizeScoped, ScopedSplit, PlainRestores, ScopedRestores, Sound;
    if |val| < VAL {
      match FindKey(key)
      case Some(i) => if Normalize(r.known, KindOf(i), val).Some? { AcceptedPlainRestores(r, i, val); }
      case None =>
        if ScopedSplit(r, key).Some? && NormalizeScoped(r, ScopedSplit(r, key).value.0, Cut(ScopedSplit(r, key).value.1), val).Some? {
          AcceptedScopedRestores(r, key, val);
        }
    }
  }

  // Whatever the file holds, what is read from it survives being written back.
  lemma {:induction false} ScanRestores(r: Registry, l: Loaded, s: string)
    requires Sound(r) && Restores(r, l.store)
    ensures Restores(r, Scan(r, l, s).store)
    decreases |s|
  {
    hide Restores, Accept, CleanValue, Sound;
    var a := DropSpace(s);
    if a != [] {
      if a[0] == '#' {
        ScanRestores(r, l, a[LineLen(a)..]);
      } else {
        var k := KeyLen(a);
        if k == |a| || a[k] == '\n' {
          ScanRestores(r, l, a[k..]);
        } else {
          var b := DropBlanks(a[k + 1..]);
          var v := LineLen(b);
          if |TrimEnd(b[..v])| < VAL {
            ParsedValueIsClean(b, v);
          }
          AcceptKeepsRestores(r, l, TrimEnd(a[..k]), TrimEnd(b[..v]));
          ScanRestores(r, Accept(r, l, TrimEnd(a[..k]), TrimEnd(b[..v])), b[v..]);
        }
      }
    }
  }

  // The file reads back as the layer that was written, key for key, exactly when
  // every value in it survives: no newline, no blank at the front, no space at the
  // end, and its own canonical text.
  lemma RoundTripIff(r: Registry, s: Store)
    requires Sound(r) && Kept(r, s) && |Render(s)| <= FILE_MAX
    ensures SameMap(Reload(r, Render(s)).store, s) <==> Restores(r, s)
  {
    var back := Reload(r, Render(s)).store;
    EmptyRestores(r);
    ScanRestores(r, Loaded(EMPTY(), 0), Render(s));
    if Restores(r, s) {
      WrittenReadsBack(r, s);
      forall name ensures Lookup(back, name) == Lookup(s, name) {
        DroppingEmptySlots(s, name);
      }
    }
    if SameMap(back, s) {
      hide Scan, Render, FindKey;
      MapRestores(r, s, back);
    }
  }

  lemma EmptyRestores(r: Registry)
    ensures Restores(r, EMPTY())
  {
    hide CleanValue, Normalize;
  }

  lemma MapRestores(r: Registry, s: Store, back: Store)
    requires Sound(r) && Kept(r, s) && Restores(r, back) && SameMap(back, s)
    ensures Restores(r, s)
  {
    hide CleanValue, Normalize, NormalizeScoped, ScopedSplit, KeyName;
    forall i | 0 <= i < NKEYS ensures PlainRestores(r, i, s.plain[i]) {
      KeyIsFound(0, i);
      assert Lookup(back, KeyName(i)) == Lookup(s, KeyName(i));
    }
    forall j | 0 <= j < |s.scoped| ensures ScopedRestores(r, s.scoped[j]) {
      var x := s.scoped[j];
      ScopedNamesAreClean(r, x.name);
      assert Lookup(back, x.name) == Lookup(s, x.name) == x.value;
    }
  }
}
