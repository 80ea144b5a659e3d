// The shadow file of the configuration store: its printer and its parser
// (src/conf.c), and when one undoes the other.
module ConfFile {
  import opened Common
  import opened ConfFamilies
  import opened ConfKeys
  import opened ConfValues

  const FILE_MAX: nat := 16384
  const LINE: nat := 2048
  const SCOPED_KEY: nat := 128
  const NSCOPED: nat := 32
  const MODEL: nat := 26

  // The hooks main installs: the providers that exist, and their knobs' vocabulary.
  datatype Registry = Registry(known: string -> bool, knob: (string, string, string) -> Option<string>)

  predicate IsSpace(c: char) { c == ' ' || c == '\t' || c == '\r' || c == '\n' || c as int == 12 || c as int == 11 }

  // A name the parser reads back whole: no '=', no newline, no trailing space.
  predicate CleanName(s: string) {
    && s != [] && !IsSpace(s[0]) && s[0] != '#' && !IsSpace(s[|s| - 1])
    && (forall i :: 0 <= i < |s| ==> s[i] != '=' && s[i] != '\n')
  }

  // A value the parser reads back whole.
  predicate CleanValue(v: string) {
    && v != [] && |v| < VAL && !Blank(v[0]) && !IsSpace(v[|v| - 1])
    && (forall i :: 0 <= i < |v| ==> v[i] != '\n')
  }

  // Provider names are clean and a knob's canonical value is clean and its own
  // canonical value.
  ghost predicate Sound(r: Registry) {
    && (forall n :: r.known(n) && n != [] ==> CleanName(n))
    && (forall b, p, v, w :: r.knob(b, p, v) == Some(w) ==> CleanValue(w) && r.knob(b, p, w) == Some(w))
  }

  // The shadow layer: the plain keys' slots, then the provider-scoped ones.
  type Slots = s: seq<string> | |s| == NKEYS witness Blanks(NKEYS)
  datatype Slot = Slot(name: string, value: string)
  datatype Store = Store(plain: Slots, scoped: seq<Slot>)

  function Blanks(n: nat): seq<string> { seq(n, i => []) }

  function EMPTY(): Store { Store(Blanks(NKEYS), []) }

  // ---- Names. ----

  function KeyFrom(key: string, i: nat): (k: Option<nat>)
    requires i <= NKEYS
    ensures k.Some? ==> i <= k.value < NKEYS && KeyName(k.value) == key
    decreases NKEYS - i
  {
    if i == NKEYS then None else if KeyName(i) == key then Some(i) else KeyFrom(key, i + 1)
  }

  // key_by_name.
  function FindKey(key: string): (k: Option<nat>)
    ensures k.Some? ==> k.value < NKEYS && KeyName(k.value) == key
  {
    KeyFrom(key, 0)
  }

  lemma {:induction false} KeyIsFound(i: nat, k: nat)
    requires i <= k < NKEYS
    ensures KeyFrom(KeyName(k), i) == Some(k)
    decreases k - i
  {
    hide KeyName;
    if KeyName(i) == KeyName(k) {
      NamesAreDistinct(i, k);
    } else {
      KeyIsFound(i + 1, k);
    }
  }

  function DotAt(s: string, i: nat): (k: nat)
    requires i <= |s|
    ensures i <= k <= |s| && (k < |s| ==> s[k] == '.')
    ensures forall j :: i <= j < k ==> s[j] != '.'
    decreases |s| - i
  {
    if i < |s| && s[i] != '.' then DotAt(s, i + 1) else i
  }

  predicate IsBase(b: string) { b == KeyName(26) || b == KeyName(27) || b == KeyName(28) || b == KeyName(29) }

  // scoped_split: a base and a provider the registry knows.
  function ScopedSplit(r: Registry, key: string): (p: Option<(string, string)>)
    ensures p.Some? ==> key == p.value.0 + "." + p.value.1 && IsBase(p.value.0) && r.known(p.value.1) && p.value.1 != []
  {
    var dot := DotAt(key, 0);
    if dot == |key| || dot == 0 || dot + 1 == |key| || dot >= SCOPED_KEY then None
    else if !IsBase(key[..dot]) || !r.known(key[dot + 1..]) then None
    else Some((key[..dot], key[dot + 1..]))
  }

  lemma BaseIsANamedKey(b: string)
    requires IsBase(b)
    ensures 3 <= |b| <= 19 && forall j :: 0 <= j < |b| ==> NameChar(b[j])
  {
    NamesAreNamed(26); NamesAreNamed(27); NamesAreNamed(28); NamesAreNamed(29);
    hide KeyName;
  }

  lemma PlainNamesAreClean(i: nat)
    requires i < NKEYS
    ensures CleanName(KeyName(i)) && |KeyName(i)| < LINE
  {
    NamesAreNamed(i);
    hide KeyName;
  }

  lemma DottedIsNoKey(b: string, p: string)
    ensures FindKey(b + "." + p).None?
  {
    hide KeyName;
    var key := b + "." + p;
    assert key[|b|] == '.';
    if FindKey(key).Some? {
      NamesAreNamed(FindKey(key).value);
    }
  }

  lemma ScopedNamesAreClean(r: Registry, key: string)
    requires Sound(r) && ScopedSplit(r, key).Some?
    ensures CleanName(key) && FindKey(key).None?
  {
    hide IsBase, KeyName;
    var (b, p) := ScopedSplit(r, key).value;
    hide ScopedSplit;
    BaseIsANamedKey(b);
    hide CleanName;
    DottedIsNoKey(b, p);
  }

  // ---- Values. ----

  // normalize_scoped_value.
  function NormalizeScoped(r: Registry, base: string, provider: string, raw: string): Option<string> {
    if base == KeyName(MODEL) then (if raw == [] then None else Some(Fit(raw)))
    else r.knob(base, provider, raw)
  }

  function Cut(provider: string): string { if |provider| < SCOPED_KEY then provider else provider[..SCOPED_KEY - 1] }

  function SlotAt(scoped: seq<Slot>, name: string, i: nat): (k: nat)
    requires i <= |scoped|
    ensures i <= k <= |scoped| && (k < |scoped| ==> scoped[k].name == name)
    ensures forall j :: i <= j < k ==> scoped[j].name != name
    decreases |scoped| - i
  {
    if i < |scoped| && scoped[i].name != name then SlotAt(scoped, name, i + 1) else i
  }

  // scoped_get_or_create, and the write into the slot it gives; None when the pool
  // is full or cannot hold the name.
  function PutScoped(s: Store, name: string, v: string): Option<Store> {
    var k := SlotAt(s.scoped, name, 0);
    if |name| >= SCOPED_KEY then None
    else if k < |s.scoped| then Some(s.(scoped := s.scoped[k := Slot(name, v)]))
    else if |s.scoped| >= NSCOPED then None
    else Some(s.(scoped := s.scoped + [Slot(name, v)]))
  }

  // What a scan has stored, and how many lines it accepted.
  datatype Loaded = Loaded(store: Store, count: nat)

  // One `key = value` line.
  function Accept(r: Registry, l: Loaded, key: string, val: string): Loaded {
    if key == [] || |key| >= LINE || |val| >= VAL then l
    else match FindKey(key)
      case Some(i) =>
        (match Normalize(r.known, KindOf(i), val)
         case None => l
         case Some(norm) => Loaded(l.store.(plain := l.store.plain[i := norm]), l.count + 1))
      case None =>
        match ScopedSplit(r, key)
        case None => l
        case Some(p) =>
          match NormalizeScoped(r, p.0, Cut(p.1), val)
          case None => l
          case Some(norm) =>
            match PutScoped(l.store, key, norm)
            case None => l
            case Some(s) => Loaded(s, l.count + 1)
  }

  // ---- The parser. ----

  function DropSpace(s: string): (r: string)
    ensures |r| <= |s| && (r != [] ==> !IsSpace(r[0]))
  {
    if s != [] && IsSpace(s[0]) then DropSpace(s[1..]) else s
  }

  function DropBlanks(s: string): (r: string)
    ensures |r| <= |s| && (r != [] ==> !Blank(r[0]))
  {
    if s != [] && Blank(s[0]) then DropBlanks(s[1..]) else s
  }

  function TrimEnd(s: string): (r: string)
    ensures r <= s && (r != [] ==> !IsSpace(r[|r| - 1]))
  {
    if s != [] && IsSpace(s[|s| - 1]) then TrimEnd(s[..|s| - 1]) else s
  }

  function LineLen(s: string): (n: nat)
    ensures n <= |s| && (n < |s| ==> s[n] == '\n')
    ensures forall i :: 0 <= i < n ==> s[i] != '\n'
  {
    if s == [] || s[0] == '\n' then 0
    else
      var n := LineLen(s[1..]);
      assert forall i :: 0 <= i < n ==> s[i + 1] == s[1..][i];
      n + 1
  }

  function KeyLen(s: string): (n: nat)
    ensures n <= |s| && (n < |s| ==> s[n] == '\n' || s[n] == '=')
    ensures forall i :: 0 <= i < n ==> s[i] != '\n' && s[i] != '='
  {
    if s == [] || s[0] == '\n' || s[0] == '=' then 0
    else
      var n := KeyLen(s[1..]);
      assert forall i :: 0 <= i < n ==> s[i + 1] == s[1..][i];
      n + 1
  }

  // scan_file over the text it read: blank lines and comments skipped, a line
  // without '=' ignored.
  function Scan(r: Registry, l: Loaded, s: string): Loaded
    decreases |s|
  {
    var a := DropSpace(s);
    if a == [] then l
    else if a[0] == '#' then Scan(r, l, a[LineLen(a)..])
    else
      var k := KeyLen(a);
      if k == |a| || a[k] == '\n' then Scan(r, l, a[k..])
      else
        var b := DropBlanks(a[k + 1..]);
        var v := LineLen(b);
        Scan(r, Accept(r, l, TrimEnd(a[..k]), TrimEnd(b[..v])), b[v..])
  }

  // The file as far as the reader's buffer goes.
  function Reload(r: Registry, text: string): Loaded {
    Scan(r, Loaded(EMPTY(), 0), if |text| <= FILE_MAX then text else text[..FILE_MAX])
  }

  // ---- The printer. ----

  function LineOf(name: string, value: string): string { if value == [] then [] else name + " = " + value + "\n" }

  function RenderPlain(plain: Slots, i: nat): string
    requires i <= NKEYS
    decreases NKEYS - i
  {
    if i == NKEYS then [] else LineOf(KeyName(i), plain[i]) + RenderPlain(plain, i + 1)
  }

  lemma PlainStep(plain: Slots, i: nat)
    requires i < NKEYS
    ensures RenderPlain(plain, i) == LineOf(KeyName(i), plain[i]) + RenderPlain(plain, i + 1)
  {
  }

  lemma PlainEnd(plain: Slots)
    ensures RenderPlain(plain, NKEYS) == []
  {
  }

  function RenderScoped(scoped: seq<Slot>): string {
    if scoped == [] then [] else LineOf(scoped[0].name, scoped[0].value) + RenderScoped(scoped[1..])
  }

  // shadow_render.
  function Render(s: Store): string {
    RenderPlain(s.plain, 0) + RenderScoped(s.scoped)
  }

  // ---- One printed line read back. ----

  lemma TrimOne(s: string)
    requires s != [] && !IsSpace(s[|s| - 1])
    ensures TrimEnd(s) == s && TrimEnd(s + " ") == s
  {
    assert (s + " ")[..|s|] == s;
  }

  lemma ScanStep(r: Registry, l: Loaded, s: string, a: string, k: nat, b: string, v: nat)
    requires a != [] && DropSpace(s) == a && a[0] != '#'
    requires k < |a| && KeyLen(a) == k && a[k] == '=' && DropBlanks(a[k + 1..]) == b && LineLen(b) == v
    ensures Scan(r, l, s) == Scan(r, Accept(r, l, TrimEnd(a[..k]), TrimEnd(b[..v])), b[v..])
  {
    hide DropSpace, KeyLen, DropBlanks, LineLen, TrimEnd, Accept;
  }

  lemma NewlineIsSkipped(r: Registry, l: Loaded, rest: string)
    ensures Scan(r, l, "\n" + rest) == Scan(r, l, rest)
  {
    assert ("\n" + rest)[1..] == rest;
    assert DropSpace("\n" + rest) == DropSpace(rest);
    OnlyWhatFollowsCounts(r, l, "\n" + rest, rest);
  }

  lemma OnlyWhatFollowsCounts(r: Registry, l: Loaded, s: string, t: string)
    requires DropSpace(s) == DropSpace(t)
    ensures Scan(r, l, s) == Scan(r, l, t)
  {
    hide DropSpace, Accept, KeyLen, DropBlanks, LineLen, TrimEnd;
  }

  // The key's half of a printed line.
  lemma KeyHalf(name: string, tail: string)
    requires CleanName(name)
    ensures var a := name + " =" + tail;
      a != [] && DropSpace(a) == a && a[0] != '#' && KeyLen(a) == |name| + 1 && a[|name| + 1] == '='
      && a[..|name| + 1] == name + " " && a[|name| + 2..] == tail
  {
    var a := name + " =" + tail;
    assert a[0] == name[0] && a[|name|] == ' ' && a[|name| + 1] == '=';
    forall i | 0 <= i < |name| + 1 ensures a[i] != '=' && a[i] != '\n' {
      if i < |name| {
        assert a[i] == name[i];
      }
    }
  }

  // The value's half.
  lemma ValueHalf(value: string, rest: string)
    requires CleanValue(value)
    ensures var b := value + ("\n" + rest);
      DropBlanks(" " + b) == b && LineLen(b) == |value| && b[..|value|] == value && b[|value|..] == "\n" + rest
  {
    var b := value + ("\n" + rest);
    assert b[0] == value[0] && b[|value|] == '\n';
    assert forall i :: 0 <= i < |value| ==> b[i] == value[i];
  }

  // A clean name and a clean value, printed and scanned, are accepted as they are.
  lemma PrintedLineIsAccepted(r: Registry, l: Loaded, name: string, value: string, rest: string)
    requires CleanName(name) && CleanValue(value)
    ensures Scan(r, l, LineOf(name, value) + rest) == Scan(r, Accept(r, l, name, value), rest)
  {
    var b := value + ("\n" + rest);
    var a := name + " =" + (" " + b);
    KeyHalf(name, " " + b);
    ValueHalf(value, rest);
    TrimOne(name);
    TrimOne(value);
    PrintedLine(name, value, rest);
    hide CleanName, CleanValue, DropSpace, KeyLen, DropBlanks, LineLen, TrimEnd, Accept, Scan, LineOf;
    ScanStep(r, l, a, a, |name| + 1, b, |value|);
    NewlineIsSkipped(r, Accept(r, l, name, value), rest);
  }

  lemma PrintedLine(name: string, value: string, rest: string)
    requires value != []
    ensures LineOf(name, value) + rest == name + " =" + (" " + (value + ("\n" + rest)))
  {
    assert " = " == " =" + " ";
    Assoc(name, " =", " ");
    Assoc(name + " =", " ", value);
    Assoc(name + " =", " " + value, "\n");
    Assoc(name + " =", " " + value + "\n", rest);
    Assoc(" ", value, "\n");
    Assoc(" ", value + "\n", rest);
    Assoc(value, "\n", rest);
  }
}
