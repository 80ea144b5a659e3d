// Which files the context looks for (src/context.c): the walk from the working
// directory up to the project root, and the candidates it makes.
module ContextWalk {
  import opened Common
  import opened ContextFiles
  import opened ProjectBlock

  const DIR_MAX: nat := 4096
  const MAX_DEPTH: nat := 64

  predicate IsSep(c: char) { c == '/' || c == '\\' }

  // strip_trailing_seps, which leaves a root alone.
  function Stripped(p: string): (r: string)
    ensures r <= p && (|r| > 1 ==> !IsSep(r[|r| - 1])) && (p != "" ==> r != "")
    ensures forall i :: |r| <= i < |p| ==> IsSep(p[i])
  {
    if |p| > 1 && IsSep(p[|p| - 1]) then Stripped(p[..|p| - 1]) else p
  }

  // Just past the last separator before n; 0 when there is none.
  function AfterSep(p: string, n: nat): (i: nat)
    requires n <= |p|
    ensures i <= n && (i > 0 ==> IsSep(p[i - 1])) && forall k :: i <= k < n ==> !IsSep(p[k])
  {
    if n > 0 && !IsSep(p[n - 1]) then AfterSep(p, n - 1) else n
  }

  // parent_of; a file system root and a bare name have none.
  function ParentOf(dir: string): (up: Option<string>)
    ensures up.Some? ==> up.value <= dir && 0 < |up.value| < |dir| && IsSep(dir[|up.value|])
  {
    var p := Stripped(dir);
    var i := AfterSep(p, |p|);
    if i <= 1 then None else Some(p[..i - 1])
  }

  // The directories from `cur` up, and whether the last of them holds the marker.
  datatype Walk = Walk(dirs: seq<string>, marker: bool)

  function WalkUp(cur: string, marked: string -> bool, left: nat): (w: Walk)
    ensures |w.dirs| <= left && (left > 0 ==> w.dirs != [] && w.dirs[0] == cur)
    decreases left
  {
    if left == 0 then Walk([], false)
    else if marked(cur) then Walk([cur], true)
    else match ParentOf(cur)
      case None => Walk([cur], false)
      case Some(up) => var w := WalkUp(up, marked, left - 1); Walk([cur] + w.dirs, w.marker)
  }

  // Without a marker the working directory alone, without one no directory.
  function Dirs(wd: string, marked: string -> bool): seq<string> {
    if wd == "" then []
    else
      var w := WalkUp(wd, marked, MAX_DEPTH);
      if w.marker then w.dirs else [wd]
  }

  function SkipSeps(s: string, i: nat): (j: nat)
    requires i <= |s|
    ensures i <= j <= |s| && (j < |s| ==> !IsSep(s[j])) && forall k :: i <= k < j ==> IsSep(s[k])
    decreases |s| - i
  {
    if i < |s| && IsSep(s[i]) then SkipSeps(s, i + 1) else i
  }

  const NAME := "AGENTS.md"

  function PathIn(dir: string): string { dir + "/" + NAME }

  // The root-relative label of a directory's file.
  function Label(root: string, dir: string): string {
    if !(root <= dir) then PathIn(dir)
    else
      var j := SkipSeps(dir, |root|);
      if j < |dir| then PathIn(dir[j..]) else NAME
  }

  // What the file system answers for a path.
  datatype Look = Look(content: string, size: nat)

  function Named(name: string, look: Look): Candidate { Candidate(name, look.content, look.size) }

  // The global file, then the project's from its root down.
  function Candidates(global: string, dirs: seq<string>, look: string -> Look): (cs: seq<Candidate>)
    ensures |cs| == |dirs| + 1
  {
    [Named(PathIn(global), look(PathIn(global)))]
    + seq(|dirs|, k requires 0 <= k < |dirs| =>
        var d := dirs[|dirs| - 1 - k]; Named(Label(dirs[|dirs| - 1], d), look(PathIn(d))))
  }

  // What the machine answers while a context is assembled.
  datatype World = World(present: string -> bool, look: string -> Look, global: string, platform: string, date: string)

  function MarkerIn(w: World): string -> bool { dir => w.present(dir + "/.git") }

  // The working directory as the program holds it.
  function WorkDir(dir: string): string { Stripped(if |dir| < DIR_MAX then dir else dir[..DIR_MAX - 1]) }

  // The <env> block up to its footer.
  function EnvHead(wd: string, w: World): string {
    "\n\n<env>\nWorking directory: " + wd + "\nIs directory a git repo: " + (if MarkerIn(w)(wd) then "yes" else "no")
      + "\nPlatform: " + w.platform + "\nToday's date: " + w.date
  }

  // The block always fits the buffer it is printed into.
  lemma EnvFits(dir: string, w: World)
    requires |w.platform| <= 7 && |w.date| < 32
    ensures |EnvHead(WorkDir(dir), w)| + 7 < DIR_MAX + 256
  {
    assert |"\n\n<env>\nWorking directory: "| == 27 && |"\nIs directory a git repo: "| == 26;
    assert |"\nPlatform: "| == 11 && |"\nToday's date: "| == 15;
  }

  function FilesFor(wd: string, w: World): seq<Candidate> { Candidates(w.global, Dirs(wd, MarkerIn(w)), w.look) }

  // ---- The loops. ----

  method StripTrailingSeps(p: string) returns (r: string)
    ensures r == Stripped(p)
  {
    var n := |p|;
    assert p[..n] == p;
    while n > 1 && IsSep(p[n - 1])
      invariant 0 <= n <= |p| && Stripped(p) == Stripped(p[..n])
    {
      assert p[..n][..n - 1] == p[..n - 1];
      n := n - 1;
    }
    r := p[..n];
  }

  method Parent(dir: string) returns (up: Option<string>)
    ensures up == ParentOf(dir)
  {
    if dir == "" {
      return None;
    }
    var p := StripTrailingSeps(dir);
    var i := |p|;
    while i > 0 && !IsSep(p[i - 1])
      invariant 0 <= i <= |p| && AfterSep(p, |p|) == AfterSep(p, i)
    {
      i := i - 1;
    }
    up := if i <= 1 then None else Some(p[..i - 1]);
  }

  // The whole walk is what has been collected and the walk from here on.
  predicate OnTheWay(whole: Walk, dirs: seq<string>, cur: string, marked: string -> bool) {
    |dirs| <= MAX_DEPTH && whole == Walk(dirs + WalkUp(cur, marked, MAX_DEPTH - |dirs|).dirs, WalkUp(cur, marked, MAX_DEPTH - |dirs|).marker)
  }

  lemma OneMoreDir(whole: Walk, dirs: seq<string>, cur: string, marked: string -> bool)
    requires OnTheWay(whole, dirs, cur, marked) && |dirs| < MAX_DEPTH
    ensures marked(cur) ==> whole == Walk(dirs + [cur], true)
    ensures !marked(cur) && ParentOf(cur).None? ==> whole == Walk(dirs + [cur], false)
    ensures !marked(cur) && ParentOf(cur).Some? ==> OnTheWay(whole, dirs + [cur], ParentOf(cur).value, marked)
  {
    if !marked(cur) && ParentOf(cur).Some? {
      Assoc(dirs, [cur], WalkUp(ParentOf(cur).value, marked, MAX_DEPTH - |dirs| - 1).dirs);
    }
    hide ParentOf;
  }

  lemma TooDeep(whole: Walk, dirs: seq<string>, cur: string, marked: string -> bool)
    requires OnTheWay(whole, dirs, cur, marked) && |dirs| == MAX_DEPTH
    ensures whole == Walk(dirs, false)
  {
    assert dirs + [] == dirs;
  }

  // The walk of nm_context_new.
  method CollectDirs(wd: string, marked: string -> bool) returns (dirs: seq<string>)
    ensures dirs == Dirs(wd, marked)
  {
    dirs := [];
    if wd == "" {
      return;
    }
    var cur, marker := wd, false;
    ghost var whole := WalkUp(wd, marked, MAX_DEPTH);
    assert OnTheWay(whole, [], wd, marked) by {
      assert [] + whole.dirs == whole.dirs;
    }
    hide OnTheWay, WalkUp;
    while |dirs| < MAX_DEPTH
      invariant !marker && OnTheWay(whole, dirs, cur, marked) && |dirs| <= MAX_DEPTH
      decreases MAX_DEPTH - |dirs|
    {
      OneMoreDir(whole, dirs, cur, marked);
      dirs := dirs + [cur];
      if marked(cur) {
        marker := true;
        break;
      }
      var up := Parent(cur);
      if up.None? {
        break;
      }
      cur := up.value;
      if |dirs| == MAX_DEPTH {
        TooDeep(whole, dirs, cur, marked);
      }
    }
    if !marker {
      dirs := [wd];
    }
  }

  // The candidates, in order.
  method ListCandidates(global: string, dirs: seq<string>, look: string -> Look) returns (cs: seq<Candidate>)
    ensures cs == Candidates(global, dirs, look)
  {
    cs := [Named(PathIn(global), look(PathIn(global)))];
    ghost var all := Candidates(global, dirs, look);
    var k := |dirs|;
    while k > 0
      invariant 0 <= k <= |dirs| && cs == all[..|dirs| - k + 1]
    {
      var d := dirs[k - 1];
      var name := LabelOf(dirs[|dirs| - 1], d);
      assert all[|dirs| - k + 1] == Named(name, look(PathIn(d)));
      cs := cs + [Named(name, look(PathIn(d)))];
      k := k - 1;
    }
    assert all[..|all|] == all;
  }

  // The files the context loads.
  method FindEntries(wd: string, w: World) returns (es: seq<Entry>)
    ensures es == Loaded(FilesFor(wd, w))
  {
    hide Dirs, Candidates, Loaded;
    var dirs := CollectDirs(wd, MarkerIn(w));
    var found := ListCandidates(w.global, dirs, w.look);
    es := Load(found);
  }

  method LabelOf(root: string, dir: string) returns (name: string)
    ensures name == Label(root, dir)
  {
    if !(root <= dir) {
      return PathIn(dir);
    }
    var j := |root|;
    while j < |dir| && IsSep(dir[j])
      invariant |root| <= j <= |dir| && SkipSeps(dir, |root|) == SkipSeps(dir, j)
    {
      j := j + 1;
    }
    name := if j < |dir| then PathIn(dir[j..]) else NAME;
  }

  // ---- What is looked for. ----

  // Each directory of a walk lies in the next.
  predicate Ascends(dirs: seq<string>) {
    forall i :: 0 <= i < |dirs| - 1 ==> ParentOf(dirs[i]) == Some(dirs[i + 1])
  }

  // The walk goes from each directory to its parent; it ends at the first that holds
  // the marker, or has met none.
  lemma {:induction false} WalkMeans(cur: string, marked: string -> bool, left: nat)
    ensures var w := WalkUp(cur, marked, left);
      && Ascends(w.dirs)
      && (w.marker ==> w.dirs != [] && marked(w.dirs[|w.dirs| - 1]) && forall i :: 0 <= i < |w.dirs| - 1 ==> !marked(w.dirs[i]))
      && (!w.marker ==> forall i :: 0 <= i < |w.dirs| ==> !marked(w.dirs[i]))
    decreases left
  {
    if left > 0 && !marked(cur) && ParentOf(cur).Some? {
      WalkMeans(ParentOf(cur).value, marked, left - 1);
    }
    hide ParentOf;
  }

  lemma {:induction false} AncestorIsPrefix(dirs: seq<string>, i: nat, j: nat)
    requires Ascends(dirs) && i <= j < |dirs|
    ensures dirs[j] <= dirs[i]
    ensures i < j ==> |dirs[j]| < |dirs[i]| && IsSep(dirs[i][|dirs[j]|])
    decreases j - i
  {
    if i < j {
      AncestorIsPrefix(dirs, i + 1, j);
      assert ParentOf(dirs[i]) == Some(dirs[i + 1]);
      if i + 1 < j {
        assert dirs[i][|dirs[j]|] == dirs[i + 1][|dirs[j]|];
      }
    }
  }

  // No file above the project root is looked for: every directory is the working
  // directory or above it and the root or below it, the root is the nearest that holds
  // the marker, and without one there is the working directory alone.
  lemma NeverAboveTheRoot(wd: string, marked: string -> bool)
    requires wd != ""
    ensures var dirs := Dirs(wd, marked); var root := dirs[|dirs| - 1];
      && dirs[0] == wd && Ascends(dirs) && (forall i :: 0 <= i < |dirs| ==> root <= dirs[i] <= wd)
      && (forall i :: 0 <= i < |dirs| - 1 ==> !marked(dirs[i]))
      && (marked(root) || dirs == [wd])
  {
    var dirs := Dirs(wd, marked);
    WalkMeans(wd, marked, MAX_DEPTH);
    assert Ascends([wd]);
    AllBetween(dirs);
    hide ParentOf, WalkUp, Ascends;
  }

  lemma AllBetween(dirs: seq<string>)
    requires dirs != [] && Ascends(dirs)
    ensures forall i :: 0 <= i < |dirs| ==> dirs[|dirs| - 1] <= dirs[i] <= dirs[0]
  {
    hide ParentOf, Ascends;
    forall i | 0 <= i < |dirs| ensures dirs[|dirs| - 1] <= dirs[i] <= dirs[0] {
      AncestorIsPrefix(dirs, i, |dirs| - 1);
      AncestorIsPrefix(dirs, 0, i);
    }
  }

  // A label is the path from the root: the root, separators, and what the label says
  // make up the directory again, and the root's own file is the bare name.
  lemma LabelIsRelative(root: string, dir: string)
    requires root <= dir
    ensures var j := SkipSeps(dir, |root|);
      && dir == root + dir[|root|..j] + dir[j..] && (forall k :: |root| <= k < j ==> IsSep(dir[k]))
      && Label(root, dir) == if j < |dir| then PathIn(dir[j..]) else NAME
  {
  }

  // ---- The files of a project, by path. ----

  predicate Slash(c: char) { c == '/' || c == '\\' }

  // `dir` is `up`, a separator and one name, which ends at e but for separators.
  predicate ChildAt(up: string, dir: string, e: nat) {
    && up != "" && up <= dir && |up| + 1 < e <= |dir| && Slash(dir[|up|])
    && (forall k :: |up| < k < e ==> !Slash(dir[k])) && (forall k :: e <= k < |dir| ==> Slash(dir[k]))
  }

  ghost predicate Child(up: string, dir: string) { exists e: nat :: ChildAt(up, dir, e) }

  lemma ParentIff(up: string, dir: string)
    ensures ParentOf(dir) == Some(up) <==> Child(up, dir)
  {
    var p := Stripped(dir);
    var i := AfterSep(p, |p|);
    if i > 1 && up == p[..i - 1] {
      assert ChildAt(up, dir, |p|);
    }
    if Child(up, dir) {
      var e: nat :| ChildAt(up, dir, e);
      assert !Slash(dir[e - 1]) && p[|p| - 1] == dir[|p| - 1];
      assert |p| == e;
      assert i == |up| + 1;
    }
  }

  // From the root down to the working directory, by path, with the marker in the root
  // and in no directory under it.
  ghost predicate Chain(ds: seq<string>, wd: string, w: World) {
    && 1 <= |ds| <= MAX_DEPTH && ds[|ds| - 1] == wd && w.present(ds[0] + "/.git")
    && (forall i :: 0 <= i < |ds| - 1 ==> Child(ds[i], ds[i + 1]))
    && (forall i :: 0 < i < |ds| ==> !w.present(ds[i] + "/.git"))
  }

  // A label says the path below the root.
  ghost predicate Below(root: string, dir: string, name: string) {
    exists j: nat :: |root| < j < |dir| && !Slash(dir[j]) && (forall k :: |root| <= k < j ==> Slash(dir[k])) && name == dir[j..] + "/AGENTS.md"
  }

  function Reversed(ds: seq<string>): (r: seq<string>)
    ensures |r| == |ds| && forall i :: 0 <= i < |ds| ==> r[i] == ds[|ds| - 1 - i]
  {
    seq(|ds|, i requires 0 <= i < |ds| => ds[|ds| - 1 - i])
  }

  lemma WalkIsChain(wd: string, w: World)
    requires wd != ""
    ensures var ds := Reversed(Dirs(wd, MarkerIn(w)));
      Chain(ds, wd, w) || (ds == [wd] && !w.present(wd + "/.git"))
  {
    var dirs := Dirs(wd, MarkerIn(w));
    WalkMeans(wd, MarkerIn(w), MAX_DEPTH);
    var ds := Reversed(dirs);
    forall i | 0 <= i < |ds| - 1 ensures Child(ds[i], ds[i + 1]) {
      assert ParentOf(dirs[|dirs| - 2 - i]) == Some(dirs[|dirs| - 1 - i]);
      ParentIff(ds[i], ds[i + 1]);
    }
  }

  lemma ChainUp(ds: seq<string>, cur: string, w: World)
    requires Chain(ds, cur, w)
    ensures ds != [] && ds[|ds| - 1] == cur && (w.present(cur + "/.git") <==> |ds| == 1)
    ensures |ds| > 1 ==> Chain(ds[..|ds| - 1], ds[|ds| - 2], w) && Child(ds[|ds| - 2], cur)
  {
    hide Child;
  }

  lemma {:induction false} WalkFindsChain(ds: seq<string>, cur: string, w: World, left: nat)
    requires Chain(ds, cur, w) && |ds| <= left
    ensures WalkUp(cur, MarkerIn(w), left) == Walk(Reversed(ds), true)
    decreases left
  {
    var m := |ds| - 1;
    ChainUp(ds, cur, w);
    hide Chain, Child, ParentOf;
    if m == 0 {
      assert Reversed(ds) == [cur];
    } else {
      ParentIff(ds[m - 1], cur);
      WalkFindsChain(ds[..m], ds[m - 1], w, left - 1);
      assert Reversed(ds) == [cur] + Reversed(ds[..m]);
    }
  }

  // What the file system holds of a directory's AGENTS.md.
  function Found(w: World, dir: string, name: string): Candidate {
    Candidate(name, w.look(dir + "/AGENTS.md").content, w.look(dir + "/AGENTS.md").size)
  }

  lemma PathIs(dir: string)
    ensures PathIn(dir) == dir + "/AGENTS.md" && NAME == "AGENTS.md"
  {
    assert "/" + NAME == "/AGENTS.md";
    Assoc(dir, "/", NAME);
  }

  lemma LabelIsBelow(root: string, up: string, dir: string)
    requires root <= up && root <= dir && Child(up, dir) && |root| < |dir| && Slash(dir[|root|])
    ensures Below(root, dir, Label(root, dir))
  {
    var e: nat :| ChildAt(up, dir, e);
    var j := SkipSeps(dir, |root|);
    assert !Slash(dir[|up| + 1]);
    PathIs(dir[j..]);
    hide PathIn;
  }

  // The candidates hold what is found in the directories, the last of them first.
  lemma CandidatesAre(dirs: seq<string>, w: World)
    requires dirs != []
    ensures var cs := Candidates(w.global, dirs, w.look); var root := dirs[|dirs| - 1];
      && |cs| == |dirs| + 1 && cs[0] == Found(w, w.global, w.global + "/AGENTS.md")
      && cs[1] == Found(w, root, "AGENTS.md")
      && forall i :: 0 <= i < |dirs| ==> cs[i + 1] == Found(w, Reversed(dirs)[i], Label(root, Reversed(dirs)[i]))
  {
    hide Label, PathIn;
    var root := dirs[|dirs| - 1];
    PathIs(w.global);
    RootLabel(root);
    var ds := Reversed(dirs);
    forall i | 0 <= i < |dirs| ensures Candidates(w.global, dirs, w.look)[i + 1] == Found(w, ds[i], Label(root, ds[i])) {
      PathIs(ds[i]);
    }
    assert Candidates(w.global, dirs, w.look)[0] == Named(PathIn(w.global), w.look(PathIn(w.global)));
    assert Candidates(w.global, dirs, w.look)[0 + 1] == Found(w, ds[0], Label(root, ds[0]));
  }

  // The project's files come in the order of their directories, from the root down to
  // the working directory: each holds what is found at that very path, and is labelled
  // by the path below the root. Without a marker above it the working directory's own
  // file is alone.
  lemma FilesRunFromRoot(wd: string, w: World) returns (ds: seq<string>)
    requires wd != ""
    ensures Chain(ds, wd, w) || (ds == [wd] && !w.present(wd + "/.git"))
    ensures var cs := FilesFor(wd, w);
      && |cs| == |ds| + 1 && cs[0] == Found(w, w.global, w.global + "/AGENTS.md") && cs[1] == Found(w, ds[0], "AGENTS.md")
      && forall i :: 0 < i < |ds| ==> cs[i + 1] == Found(w, ds[i], cs[i + 1].name) && Below(ds[0], ds[i], cs[i + 1].name)
  {
    var dirs := Dirs(wd, MarkerIn(w));
    ds := Reversed(dirs);
    WalkIsChain(wd, w);
    NeverAboveTheRoot(wd, MarkerIn(w));
    CandidatesAre(dirs, w);
    LabelsAreBelow(dirs);
    hide Dirs, Ascends, MarkerIn, Label, Candidates, Found, Chain, Below;
    NamesAre(FilesFor(wd, w), ds, w);
  }

  lemma LabelsAreBelow(dirs: seq<string>)
    requires dirs != [] && Ascends(dirs)
    ensures var ds := Reversed(dirs); forall i :: 0 < i < |ds| ==> Below(ds[0], ds[i], Label(ds[0], ds[i]))
  {
    hide Label, Below;
    var ds := Reversed(dirs);
    forall i | 0 < i < |ds| ensures Below(ds[0], ds[i], Label(ds[0], ds[i])) {
      AncestorIsPrefix(dirs, |dirs| - 1 - i, |dirs| - 1);
      AncestorIsPrefix(dirs, |dirs| - i, |dirs| - 1);
      assert ParentOf(dirs[|dirs| - 1 - i]) == Some(dirs[|dirs| - i]);
      ParentIff(ds[i - 1], ds[i]);
      LabelIsBelow(ds[0], ds[i - 1], ds[i]);
    }
  }

  lemma NamesAre(cs: seq<Candidate>, ds: seq<string>, w: World)
    requires ds != [] && |cs| == |ds| + 1
    requires forall i :: 0 <= i < |ds| ==> cs[i + 1] == Found(w, ds[i], Label(ds[0], ds[i]))
    ensures forall i :: 0 <= i < |ds| ==> cs[i + 1].name == Label(ds[0], ds[i])
  {
    hide Label;
  }

  lemma RootLabel(root: string)
    ensures Label(root, root) == "AGENTS.md"
  {
    PathIs(root);
  }

  // A marker the walk can reach is found: the files are those of the directories from
  // it down.
  lemma MarkerIsFound(ds: seq<string>, wd: string, w: World)
    requires wd != "" && Chain(ds, wd, w)
    ensures var cs := FilesFor(wd, w);
      |cs| == |ds| + 1 && forall i :: 0 <= i < |ds| ==> cs[i + 1] == Found(w, ds[i], Label(ds[0], ds[i]))
  {
    hide WalkUp, Label, Found, Candidates, MarkerIn;
    WalkFindsChain(ds, wd, w, MAX_DEPTH);
    var dirs := Reversed(ds);
    assert Dirs(wd, MarkerIn(w)) == dirs;
    CandidatesAre(dirs, w);
    hide Dirs;
    assert Reversed(dirs) == ds && dirs[|dirs| - 1] == ds[0];
  }

  // The env block says whether the working directory itself holds the marker.
  lemma EnvSaysRepo(wd: string, w: World)
    ensures var head := "\n\n<env>\nWorking directory: " + wd + "\nIs directory a git repo: ";
      var tail := "\nPlatform: " + w.platform + "\nToday's date: " + w.date;
      EnvHead(wd, w) == if w.present(wd + "/.git") then head + "yes" + tail else head + "no" + tail
  {
    EnvIs("\n\n<env>\nWorking directory: ", wd, "\nIs directory a git repo: ", if w.present(wd + "/.git") then "yes" else "no",
      "\nPlatform: ", w.platform, "\nToday's date: ", w.date);
  }

  lemma EnvIs(a: string, b: string, c: string, d: string, e: string, f: string, g: string, h: string)
    ensures a + b + c + d + e + f + g + h == a + b + c + d + (e + f + g + h)
  {
    Assoc(a + b + c + d, e, f);
    Assoc(a + b + c + d, e + f, g);
    Assoc(a + b + c + d, e + f + g, h);
  }
}
