// The configuration store's shadow layer as the program keeps it (src/conf.c): slot
// tables updated in place, the file scanned and rendered character by character.
// Each method is proved against ConfFile (the parser and the printer) or ConfLayer
// (one call's effect on the layer), whose laws, the round trip through the file and
// the all-or-nothing set of writes, are proved in ConfRoundTrip and ConfLayer.
module ConfShadow {
  import opened Common
  import opened ConfFile
  import opened ConfKeys
  import opened ConfLayer
  import opened ConfValues

  // ---- Cursor loops of the scan. ----

  method SkipSpace(s: string, from: nat) returns (p: nat)
    requires from <= |s|
    ensures from <= p <= |s| && s[p..] == DropSpace(s[from..])
    ensures p < |s| ==> !IsSpace(s[p])
  {
    p := from;
    while p < |s| && IsSpace(s[p])
      invariant from <= p <= |s| && DropSpace(s[from..]) == DropSpace(s[p..])
    {
      assert s[p..][1..] == s[p + 1..];
      p := p + 1;
    }
  }

  method SkipBlankRun(s: string, from: nat) returns (p: nat)
    requires from <= |s|
    ensures from <= p <= |s| && s[p..] == DropBlanks(s[from..])
  {
    p := from;
    while p < |s| && (s[p] == ' ' || s[p] == '\t')
      invariant from <= p <= |s| && DropBlanks(s[from..]) == DropBlanks(s[p..])
    {
      assert s[p..][1..] == s[p + 1..];
      p := p + 1;
    }
  }

  method LineEnd(s: string, from: nat) returns (p: nat)
    requires from <= |s|
    ensures p == from + LineLen(s[from..]) <= |s|
  {
    p := from;
    while p < |s| && s[p] != '\n'
      invariant from <= p <= |s| && p - from + LineLen(s[p..]) == LineLen(s[from..])
    {
      assert s[p..][1..] == s[p + 1..];
      p := p + 1;
    }
  }

  method KeyEnd(s: string, from: nat) returns (p: nat)
    requires from <= |s|
    ensures p == from + KeyLen(s[from..]) <= |s|
  {
    p := from;
    while p < |s| && s[p] != '=' && s[p] != '\n'
      invariant from <= p <= |s| && p - from + KeyLen(s[p..]) == KeyLen(s[from..])
    {
      assert s[p..][1..] == s[p + 1..];
      p := p + 1;
    }
  }

  method TrimBack(s: string, from: nat, to: nat) returns (e: nat)
    requires from <= to <= |s|
    ensures from <= e <= to && s[from..e] == TrimEnd(s[from..to])
  {
    e := to;
    while e > from && IsSpace(s[e - 1])
      invariant from <= e <= to && TrimEnd(s[from..to]) == TrimEnd(s[from..e])
    {
      assert s[from..e][..|s[from..e]| - 1] == s[from..e - 1];
      assert s[from..e][|s[from..e]| - 1] == s[e - 1];
      e := e - 1;
    }
  }

  // What one turn of the scan finds: the end, a line to skip, or an assignment; and
  // where the scan goes on.
  datatype Found = AtEnd | Nothing | Assignment(key: string, val: string)

  // `l` is what the scan has stored so far; it only serves to say what follows.
  method NextLine(ghost r: Registry, ghost l: Loaded, s: string, from: nat) returns (f: Found, p: nat)
    requires from <= |s|
    ensures from <= p <= |s|
    ensures f != AtEnd ==> from < p
    ensures f.AtEnd? ==> Scan(r, l, s[from..]) == l
    ensures f.Nothing? ==> Scan(r, l, s[from..]) == Scan(r, l, s[p..])
    ensures f.Assignment? ==> Scan(r, l, s[from..]) == Scan(r, Accept(r, l, f.key, f.val), s[p..])
  {
    hide Accept, DropSpace, DropBlanks, KeyLen, LineLen, TrimEnd;
    p := SkipSpace(s, from);
    if p == |s| {
      return AtEnd, p;
    }
    var a := p;
    if s[p] == '#' {
      p := LineEnd(s, p);
      assert s[a..][p - a..] == s[p..];
      return Nothing, p;
    }
    p := KeyEnd(s, p);
    assert s[a..][p - a..] == s[p..];
    if p == |s| || s[p] != '=' {
      return Nothing, p;
    }
    f, p := ReadAssignment(r, l, s, from, a, p);
  }

  method ReadAssignment(ghost r: Registry, ghost l: Loaded, s: string, ghost from: nat, a: nat, eq: nat) returns (f: Found, p: nat)
    requires from <= a <= eq < |s|
    requires s[a..] == DropSpace(s[from..]) && s[a] != '#' && eq == a + KeyLen(s[a..]) && s[eq] == '='
    ensures eq < p <= |s| && f.Assignment?
    ensures Scan(r, l, s[from..]) == Scan(r, Accept(r, l, f.key, f.val), s[p..])
  {
    hide Scan, Accept, DropSpace, DropBlanks, KeyLen, LineLen, TrimEnd;
    var keyEnd := TrimBack(s, a, eq);
    p := SkipBlankRun(s, eq + 1);
    var b := p;
    p := LineEnd(s, p);
    var valEnd := TrimBack(s, b, p);
    f := Assignment(s[a..keyEnd], s[b..valEnd]);
    AssignmentStep(r, l, s, from, a, eq, b, p);
  }

  lemma PieceIs(s: string, a: nat, k: nat, end: nat)
    requires a + k == end <= |s|
    ensures s[a..][..k] == s[a..end] && s[a..][k..] == s[end..]
  {
  }

  // A key up to its '=', a value up to the end of its line.
  lemma AssignmentStep(r: Registry, l: Loaded, s: string, from: nat, a: nat, eq: nat, b: nat, p: nat)
    requires from <= a <= eq < b <= p <= |s|
    requires s[a..] == DropSpace(s[from..]) && s[a] != '#' && eq == a + KeyLen(s[a..]) && s[eq] == '='
    requires s[b..] == DropBlanks(s[eq + 1..]) && p == b + LineLen(s[b..])
    ensures Scan(r, l, s[from..]) == Scan(r, Accept(r, l, TrimEnd(s[a..eq]), TrimEnd(s[b..p])), s[p..])
  {
    hide Scan, Accept, DropSpace, DropBlanks, KeyLen, LineLen, TrimEnd;
    var k, v := KeyLen(s[a..]), LineLen(s[b..]);
    PieceIs(s, a, k, eq);
    PieceIs(s, a, k + 1, eq + 1);
    PieceIs(s, b, v, p);
    ScanStep(r, l, s[from..], s[a..], k, s[b..], v);
  }

  function ResetOf(key: Option<string>): Op { match key case None => Reset case Some(name) => ResetKey(name) }

  class Config {
    var plain: Slots
    var scoped: seq<Slot>
    var shadowCount: int
    // The shadow file; empty when there is none.
    var file: string

    ghost function Contents(): Layer
      reads this
    {
      Layer(Store(plain, scoped), shadowCount)
    }

    constructor ()
      ensures Contents() == Layer(EMPTY(), 0) && file == []
    {
      plain, scoped, shadowCount, file := Blanks(NKEYS), [], 0, [];
    }

    method FindSlot(name: string) returns (k: nat)
      ensures k == SlotAt(scoped, name, 0)
    {
      k := 0;
      while k < |scoped| && scoped[k].name != name
        invariant k <= |scoped| && SlotAt(scoped, name, 0) == SlotAt(scoped, name, k)
      {
        k := k + 1;
      }
    }

    // scoped_get_or_create, and the write into the slot it gives.
    method PutSlot(name: string, v: string) returns (ok: bool)
      modifies this`scoped
      ensures ok <==> PutScoped(old(Contents().store), name, v).Some?
      ensures ok ==> Contents().store == PutScoped(old(Contents().store), name, v).value
      ensures !ok ==> scoped == old(scoped)
    {
      if |name| >= SCOPED_KEY {
        return false;
      }
      var k := FindSlot(name);
      if k < |scoped| {
        scoped := scoped[k := Slot(name, v)];
        return true;
      }
      if |scoped| >= NSCOPED {
        return false;
      }
      scoped := scoped + [Slot(name, v)];
      ok := true;
    }

    // One assignment of a file; `accepted` lines are counted.
    method AcceptLine(r: Registry, key: string, val: string, count: nat) returns (accepted: nat)
      modifies this`plain, this`scoped
      ensures Loaded(Contents().store, accepted) == Accept(r, Loaded(old(Contents().store), count), key, val)
    {
      hide ScopedSplit, NormalizeScoped, Normalize, FindKey, PutScoped;
      accepted := count;
      if key == [] || |key| >= LINE || |val| >= VAL {
        return;
      }
      var k := FindKey(key);
      if k.Some? {
        var norm := Normalize(r.known, KindOf(k.value), val);
        if norm.None? {
          return;
        }
        plain := plain[k.value := norm.value];
        return count + 1;
      }
      var p := ScopedSplit(r, key);
      if p.None? {
        return;
      }
      var norm := NormalizeScoped(r, p.value.0, Cut(p.value.1), val);
      if norm.None? {
        return;
      }
      var ok := PutSlot(key, norm.value);
      accepted := if ok then count + 1 else count;
    }

    // scan_file into the shadow slots, over the text the reader's buffer holds.
    method ScanFile(r: Registry, text: string) returns (count: nat)
      modifies this`plain, this`scoped
      ensures Loaded(Contents().store, count) == Scan(r, Loaded(old(Contents().store), 0), text)
    {
      hide Scan, Accept;
      count := 0;
      var p := 0;
      assert text[0..] == text;
      ghost var start := Loaded(Contents().store, 0);
      while true
        invariant p <= |text|
        invariant Scan(r, start, text) == Scan(r, Loaded(Contents().store, count), text[p..])
        decreases |text| - p
      {
        var f, next := NextLine(r, Loaded(Contents().store, count), text, p);
        match f {
          case AtEnd => return;
          case Nothing =>
          case Assignment(key, val) => count := AcceptLine(r, key, val, count);
        }
        p := next;
      }
    }

    // The shadow half of nm_config_load: whatever was there is replaced.
    method Load(r: Registry)
      requires Contents() == Layer(EMPTY(), 0)
      modifies this`plain, this`scoped, this`shadowCount
      ensures file == old(file)
      ensures var l := Reload(r, file); Contents() == Layer(l.store, l.count)
    {
      var buf := if |file| <= FILE_MAX then file else file[..FILE_MAX];
      var n := ScanFile(r, buf);
      shadowCount := n;
    }

    method Line(name: string, value: string) returns (out: string)
      ensures out == LineOf(name, value)
    {
      if value == [] {
        return [];
      }
      out := name + " = " + value + "\n";
    }

    method RenderPlainKeys() returns (out: string)
      ensures out == RenderPlain(plain, 0)
    {
      hide LineOf, KeyName, RenderPlain;
      out := [];
      assert out + RenderPlain(plain, 0) == RenderPlain(plain, 0);
      for i := 0 to NKEYS
        invariant out + RenderPlain(plain, i) == RenderPlain(plain, 0)
      {
        PlainStep(plain, i);
        var line := Line(KeyName(i), plain[i]);
        Assoc(out, line, RenderPlain(plain, i + 1));
        out := out + line;
      }
      PlainEnd(plain);
    }

    // shadow_render.
    method ShadowRender() returns (out: string)
      ensures out == Render(Contents().store)
    {
      hide LineOf, RenderPlain;
      out := RenderPlainKeys();
      ghost var head := out;
      assert scoped[0..] == scoped;
      for i := 0 to |scoped|
        invariant out + RenderScoped(scoped[i..]) == head + RenderScoped(scoped)
      {
        var line := Line(scoped[i].name, scoped[i].value);
        assert scoped[i..][1..] == scoped[i + 1..];
        Assoc(out, line, RenderScoped(scoped[i + 1..]));
        out := out + line;
      }
      assert scoped[|scoped|..] == [];
      assert out + [] == out;
    }

    // shadow_flush; `hasPath` and `wrote` are what the file system answers.
    method ShadowFlush(hasPath: bool, wrote: bool) returns (ok: bool)
      modifies this`file
      ensures ok <==> hasPath && (wrote || Render(Contents().store) == [])
      ensures file == if hasPath && wrote then Render(Contents().store) else old(file)
    {
      if !hasPath {
        return false;
      }
      var out := ShadowRender();
      hide Render;
      if out == [] {
        file := if wrote then [] else file;
        return true;
      }
      if !wrote {
        return false;
      }
      file := out;
      ok := true;
    }

    // shadow_store.
    method ShadowStore(r: Registry, key: string, norm: string) returns (ok: bool)
      modifies this`plain, this`scoped, this`shadowCount
      ensures ok <==> StoreWrite(r, old(Contents()), key, norm).Some?
      ensures ok ==> Contents() == StoreWrite(r, old(Contents()), key, norm).value
      ensures !ok ==> Contents() == old(Contents())
    {
      hide ScopedSplit, FindKey, PutScoped;
      if ScopedSplit(r, key).Some? {
        var k := FindSlot(key);
        var was := if k < |scoped| then scoped[k].value else [];
        ok := PutSlot(key, norm);
        if ok && was == [] {
          shadowCount := shadowCount + 1;
        }
        return;
      }
      var i := FindKey(key);
      if i.None? {
        return false;
      }
      if plain[i.value] == [] {
        shadowCount := shadowCount + 1;
      }
      plain := plain[i.value := norm];
      ok := true;
    }

    // shadow_remove_one.
    method ShadowRemoveOne(r: Registry, key: string)
      modifies this`plain, this`scoped, this`shadowCount
      ensures Contents() == RemoveWrite(r, old(Contents()), key)
    {
      hide ScopedSplit, FindKey;
      if ScopedSplit(r, key).Some? {
        var k := FindSlot(key);
        if k < |scoped| && scoped[k].value != [] {
          scoped := scoped[k := Slot(key, [])];
          shadowCount := shadowCount - 1;
        }
        return;
      }
      var i := FindKey(key);
      if i.Some? && plain[i.value] != [] {
        plain := plain[i.value := []];
        shadowCount := shadowCount - 1;
      }
    }

    // nm_config_shadow_reset, for every key or for one; an unknown key is refused.
    method ShadowReset(r: Registry, key: Option<string>, hasPath: bool, wrote: bool) returns (ok: bool)
      modifies this
      ensures Contents() == ApplyOp(r, old(Contents()), ResetOf(key))
      ensures ok <==> Applies(r, old(Contents()), ResetOf(key)) && hasPath && (wrote || Render(Contents().store) == [])
      ensures file == if Applies(r, old(Contents()), ResetOf(key)) && hasPath && wrote then Render(Contents().store) else old(file)
    {
      hide ScopedSplit, FindKey, Render;
      match key {
        case None =>
          ClearAll();
        case Some(name) =>
          if ScopedSplit(r, name).None? && FindKey(name).None? {
            return false;
          }
          ShadowRemoveOne(r, name);
      }
      ok := ShadowFlush(hasPath, wrote);
    }

    method ClearAll()
      modifies this`plain, this`scoped, this`shadowCount
      ensures Contents() == ResetAll(old(Contents()))
    {
      ghost var was := scoped;
      for i := 0 to NKEYS
        invariant scoped == was && forall j :: 0 <= j < i ==> plain[j] == []
      {
        plain := plain[i := []];
      }
      assert plain == Blanks(NKEYS);
      for i := 0 to |scoped|
        invariant |scoped| == |was| && plain == Blanks(NKEYS)
        invariant forall j :: 0 <= j < |was| ==> scoped[j] == if j < i then Slot(was[j].name, []) else was[j]
      {
        scoped := scoped[i := Slot(scoped[i].name, [])];
      }
      assert scoped == Emptied(was);
      shadowCount := 0;
    }

    // nm_config_shadow_set: an empty value resets the key.
    method ShadowSet(r: Registry, key: string, value: string, hasPath: bool, wrote: bool) returns (ok: bool)
      modifies this
      ensures Contents() == ApplyOp(r, old(Contents()), Set(Write(key, value)))
      ensures ok <==> Applies(r, old(Contents()), Set(Write(key, value))) && hasPath && (wrote || Render(Contents().store) == [])
      ensures file == if Applies(r, old(Contents()), Set(Write(key, value))) && hasPath && wrote then Render(Contents().store) else old(file)
    {
      hide CheckWrite, StoreWrite, RemoveWrite, Render;
      if value == [] {
        ok := ShadowReset(r, Some(key), hasPath, wrote);
        return;
      }
      var norm := CheckWrite(r, key, value);
      if norm.None? {
        return false;
      }
      var stored := ShadowStore(r, key, norm.value);
      if !stored {
        return false;
      }
      ok := ShadowFlush(hasPath, wrote);
    }

    // nm_config_shadow_set_many: every value is checked before any is stored.
    method ShadowSetMany(r: Registry, ws: seq<Write>, hasPath: bool, wrote: bool) returns (ok: bool)
      modifies this
      ensures Contents() == ApplyOp(r, old(Contents()), SetSeveral(ws))
      ensures ok <==> Applies(r, old(Contents()), SetSeveral(ws)) && hasPath && (wrote || Render(Contents().store) == [])
      ensures file == if Applies(r, old(Contents()), SetSeveral(ws)) && hasPath && wrote then Render(Contents().store) else old(file)
    {
      hide CheckWrite, StoreWrite, RemoveWrite, Render, StoreAll;
      if |ws| == 0 || |ws| > WRITE_SET {
        return false;
      }
      var norm := CheckAll(r, ws);
      if norm.None? {
        return false;
      }
      var stored := StoreChecked(r, ws, norm.value);
      if !stored {
        return false;
      }
      ok := ShadowFlush(hasPath, wrote);
    }

    method CheckAll(r: Registry, ws: seq<Write>) returns (norm: Option<seq<string>>)
      ensures norm.Some? <==> AllPass(r, ws)
      ensures norm.Some? ==> |norm.value| == |ws|
      ensures norm.Some? ==> forall i :: 0 <= i < |ws| && ws[i].value != [] ==> CheckWrite(r, ws[i].key, ws[i].value) == Some(norm.value[i])
    {
      hide CheckWrite;
      var out: seq<string> := [];
      for i := 0 to |ws|
        invariant |out| == i
        invariant forall j :: 0 <= j < i ==> Passes(r, ws[j])
        invariant forall j :: 0 <= j < i && ws[j].value != [] ==> CheckWrite(r, ws[j].key, ws[j].value) == Some(out[j])
      {
        if ws[i].key == [] {
          assert !Passes(r, ws[i]);
          return None;
        }
        if ws[i].value == [] {
          out := out + [[]];
          continue;
        }
        var one := CheckWrite(r, ws[i].key, ws[i].value);
        if one.None? {
          assert !Passes(r, ws[i]);
          return None;
        }
        out := out + [one.value];
      }
      norm := Some(out);
    }

    method StoreChecked(r: Registry, ws: seq<Write>, norm: seq<string>) returns (ok: bool)
      requires |norm| == |ws| && AllPass(r, ws)
      requires forall i :: 0 <= i < |ws| && ws[i].value != [] ==> CheckWrite(r, ws[i].key, ws[i].value) == Some(norm[i])
      modifies this`plain, this`scoped, this`shadowCount
      ensures (Contents(), ok) == StoreAll(r, old(Contents()), ws)
    {
      hide CheckWrite, StoreWrite, RemoveWrite, Passes, AllPass;
      assert ws[0..] == ws;
      for i := 0 to |ws|
        invariant AllPass(r, ws[i..])
        invariant StoreAll(r, old(Contents()), ws) == StoreAll(r, Contents(), ws[i..])
      {
        assert ws[i..][0] == ws[i];
        assert ws[i..][1..] == ws[i + 1..];
        AllPassTail(r, ws[i..]);
        if ws[i].value == [] {
          ShadowRemoveOne(r, ws[i].key);
          continue;
        }
        ok := ShadowStore(r, ws[i].key, norm[i]);
        if !ok {
          return;
        }
      }
      ok := true;
    }
  }
}
