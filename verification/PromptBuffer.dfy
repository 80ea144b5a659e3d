// The assembled system prompt of src/context.c: one flat growable buffer, edited in
// place at two recorded offsets that must stay in step. It refines the list of named
// segments of Prompt under any order of operations: every method says which segment
// it changes, and that the buffer is still exactly the rendering of the segments,
// with both offsets where the rendering puts them. The cap arithmetic of the project
// block is in ProjectBlock.
module PromptBuffer {
  import opened Common
  import opened Prompt
  import opened ProjectBlock
  import GitSection
  import ContextFiles
  import ContextWalk

  const FIRST_CAP: nat := 4096
  const GIT_LEAD := "\n\nGit status (snapshot at conversation start - may be outdated):\n"

  // What the git stage splices in.
  function GitText(output: string): string {
    if GitSection.Section(output) == "" then "" else GIT_LEAD + GitSection.Section(output)
  }

  // The calls an agent makes on an assembled prompt, and the edits they are.
  datatype Call = VisionCall(flag: int) | GitCall(output: string) | SkillsCall(menu: string)

  function EditOf(c: Call): Edit {
    match c
    case VisionCall(flag) => Vision(flag)
    case GitCall(output) => Git(GitText(output))
    case SkillsCall(menu) => Skills(menu)
  }

  function EditsOf(calls: seq<Call>): (es: seq<Edit>)
    ensures |es| == |calls| && forall i :: 0 <= i < |es| ==> es[i] == EditOf(calls[i])
  {
    seq(|calls|, i requires 0 <= i < |calls| => EditOf(calls[i]))
  }

  class Context {
    var data: array<char>           // `prompt`, of capacity data.Length
    var len: nat
    var visionPos: nat
    var visionApplied: bool
    var envGitPos: nat              // 0: no env block
    const clause: string
    ghost var segments: Segments

    // The buffer holds `text` and its terminating NUL.
    ghost predicate Holds(text: string)
      reads this, data
    {
      len == |text| < data.Length && data[..len] == text && data[len] == '\0'
    }

    ghost predicate Valid()
      reads this, data
    {
      && Holds(Render(segments))
      && segments.base != []
      && segments.clause == clause
      && visionApplied == segments.vision
      && visionPos == |segments.base|
      && envGitPos == FooterAt(segments)
    }

    // ensure: room for `need` more bytes and the NUL, by doubling.
    method Ensure(need: nat)
      requires len <= data.Length
      modifies this`data
      ensures len + need < data.Length
      ensures data == old(data) || fresh(data)
      ensures data[..len] == old(data[..len])
      ensures len < old(data.Length) ==> data[len] == old(data[len])
    {
      if len + need + 1 <= data.Length {
        return;
      }
      var cap := if data.Length > 0 then data.Length else FIRST_CAP;
      while cap < len + need + 1
        invariant cap > 0 && cap >= data.Length
      {
        cap := cap * 2;
      }
      var grown := new char[cap];
      forall i | 0 <= i < data.Length {
        grown[i] := data[i];
      }
      data := grown;
    }

    method Append(s: string)
      requires len <= data.Length
      modifies this`data, this`len, data
      ensures Holds(old(data[..len]) + s)
      ensures data == old(data) || fresh(data)
    {
      Ensure(|s|);
      forall i | 0 <= i < |s| {
        data[len + i] := s[i];
      }
      len := len + |s|;
      data[len] := '\0';
      assert data[..len] == old(data[..len]) + s;
    }

    // The memmove that opens a gap: the tail, the NUL included, moves up by n.
    method ShiftUp(off: nat, n: nat)
      requires off <= len && len + n < data.Length
      modifies data
      ensures data[..off] == old(data[..off])
      ensures data[off + n..len + n + 1] == old(data[off..len + 1])
    {
      ghost var tail := data[off..len + 1];
      forall i | off <= i <= len {
        data[i + n] := data[i];
      }
      forall k | 0 <= k <= len - off ensures data[off + n..len + n + 1][k] == tail[k] {
        assert data[off + k + n] == old(data[off + k]) == tail[k];
      }
    }

    // The memmove that closes a gap.
    method ShiftDown(off: nat, n: nat)
      requires off + n <= len < data.Length
      modifies data
      ensures data[..off] == old(data[..off])
      ensures data[off..len - n + 1] == old(data[off + n..len + 1])
    {
      forall i | off <= i <= len - n {
        data[i] := data[i + n];
      }
    }

    // The memcpy; what lies between the copy and `end` stays.
    method CopyIn(off: nat, s: string, ghost end: nat)
      requires off + |s| <= end <= data.Length
      modifies data
      ensures data[..off] == old(data[..off])
      ensures data[off..off + |s|] == s
      ensures data[off + |s|..end] == old(data[off + |s|..end])
    {
      forall i | 0 <= i < |s| {
        data[off + i] := s[i];
      }
      assert forall j :: off <= j < off + |s| ==> data[j] == s[j - off];
    }

    // insert_at: shift the tail and copy into the gap; an offset past the end appends.
    method InsertAt(at: nat, s: string)
      requires len < data.Length && data[len] == '\0'
      modifies this`data, this`len, data
      ensures var off := if at > old(len) then old(len) else at;
        Holds(old(data[..len])[..off] + s + old(data[..len])[off..])
      ensures data == old(data) || fresh(data)
    {
      var off := if at > len then len else at;
      ghost var text := data[..len];
      Ensure(|s|);
      Halves(text, off);
      ShiftUp(off, |s|);
      CopyIn(off, s, len + |s| + 1);
      len := len + |s|;
      Spliced(text, off, s);
    }

    // The buffer at an offset.
    lemma Halves(text: string, off: nat)
      requires off <= len < data.Length && data[..len] == text && data[len] == '\0'
      ensures data[..off] == text[..off] && data[off..len + 1] == text[off..] + ['\0']
    {
      assert data[..len][..off] == data[..off] && data[off..len] == data[..len][off..];
    }

    // The three stretches of the buffer after a splice make up the new text.
    lemma Spliced(text: string, off: nat, s: string)
      requires off <= |text| && len == |text| + |s| < data.Length
      requires data[..off] == text[..off] && data[off..off + |s|] == s
      requires data[off + |s|..len + 1] == text[off..] + ['\0']
      ensures Holds(text[..off] + s + text[off..])
    {
      var tail := data[off + |s|..len + 1];
      assert data[len] == tail[|tail| - 1];
      assert data[off + |s|..len] == tail[..|tail| - 1];
      assert data[..len] == data[..off] + data[off..off + |s|] + data[off + |s|..len];
    }

    // The removal of nm_context_set_vision.
    method RemoveAt(off: nat, n: nat)
      requires off + n <= len < data.Length && data[len] == '\0'
      modifies this`len, data
      ensures Holds(old(data[..len])[..off] + old(data[..len])[off + n..])
    {
      ghost var text := data[..len];
      ghost var tail := data[off + n..len + 1];
      assert tail == text[off + n..] + ['\0'];
      ShiftDown(off, n);
      len := len - n;
      assert data[len] == data[off..len + 1][len - off] == tail[|tail| - 1];
      assert data[off..len] == data[off..len + 1][..len - off] == text[off + n..];
      assert data[..len] == data[..off] + data[off..len];
    }

    // The two halves of nm_context_set_vision: fill the slot, empty it.
    method FillSlot()
      requires Valid() && !visionApplied
      modifies this, data
      ensures Valid() && (data == old(data) || fresh(data))
      ensures segments == Prompt.SetVision(old(segments), 1)
    {
      VisionIsASplice(segments);
      InsertAt(visionPos, clause);
      if envGitPos != 0 {
        envGitPos := envGitPos + |clause|;   // the footer moved with the tail
      }
      visionApplied := true;
      segments := Prompt.SetVision(segments, 1);
    }

    method EmptySlot()
      requires Valid() && visionApplied
      modifies this, data
      ensures Valid() && (data == old(data) || fresh(data))
      ensures segments == Prompt.SetVision(old(segments), 0)
    {
      ghost var off := Prompt.SetVision(segments, 0);
      VisionIsASplice(off);
      assert Prompt.SetVision(off, 1) == segments;
      ghost var flat, bare, at := Render(segments), Render(off), visionPos;
      assert flat[..at] == bare[..at] && flat[at + |clause|..] == bare[at..];
      RemoveAt(visionPos, |clause|);
      assert bare[..at] + bare[at..] == bare;
      if envGitPos != 0 {
        envGitPos := envGitPos - |clause|;
      }
      visionApplied := false;
      segments := off;
    }

    // nm_context_set_vision; `changed` says whether the clause was spliced in or out.
    method SetVision(vision: int) returns (changed: int)
      requires Valid()
      modifies this, data
      ensures Valid() && (data == old(data) || fresh(data))
      ensures segments == Prompt.SetVision(old(segments), vision)
      ensures changed == if old(segments.vision) == (vision == 1) then 0 else 1
      ensures changed == 0 ==> data == old(data) && data[..] == old(data[..])
    {
      var want := vision == 1;
      if want == visionApplied {
        return 0;
      }
      if want {
        FillSlot();
      } else {
        EmptySlot();
      }
      return 1;
    }

    // nm_context_env_apply_git, from the git command's output.
    method ApplyGit(output: string)
      requires Valid()
      modifies this, data
      ensures Valid() && (data == old(data) || fresh(data))
      ensures segments == Prompt.ApplyGit(old(segments), GitText(output))
    {
      GitSection.NothingPrinted();
      if envGitPos == 0 || output == "" {
        return;
      }
      hide GitSection.Section;
      var section := GitSection.BuildSection(output);
      if section != "" {
        SpliceGit(GIT_LEAD + section);
      }
    }

    // Its insertion before the footer.
    method SpliceGit(ins: string)
      requires Valid() && segments.env.Some? && ins != ""
      modifies this, data
      ensures Valid() && (data == old(data) || fresh(data))
      ensures segments == Prompt.ApplyGit(old(segments), ins)
    {
      GitIsASplice(segments, ins);
      InsertAt(envGitPos, ins);
      envGitPos := envGitPos + |ins|;
      segments := Prompt.ApplyGit(segments, ins);
    }

    // nm_context_set_skills: the menu goes to the end, so no offset moves.
    method SetSkills(menu: string)
      requires Valid()
      modifies this, data
      ensures Valid() && (data == old(data) || fresh(data))
      ensures segments == AddSkills(old(segments), menu)
    {
      assert Render(segments) + menu == Render(AddSkills(segments, menu));
      Append(menu);
      segments := AddSkills(segments, menu);
    }

    // Where append_entry cuts a body.
    method CutBody(used: nat, e: Entry) returns (cut: nat, whole: bool)
      ensures cut == Cut(used, e) && (whole <==> !Truncated(used, e))
    {
      var join := if used > 0 then 1 else 0;
      var scaffold := ENTRY_SCAFFOLD + |e.name|;
      var avail := if used + join + scaffold < MAX_BYTES then MAX_BYTES - used - join - scaffold else 0;
      cut := |e.body|;
      whole := true;
      if cut > avail {
        whole := false;
        cut := avail;
        var i := cut;
        while i > 0 && e.body[i - 1] != '\n'
          invariant 0 <= i <= cut && LineEnd(e.body, i) == LineEnd(e.body, cut)
        {
          i := i - 1;
        }
        if i > 0 {
          cut := i;
        }
      }
    }

    // append_entry; true when the whole entry fit.
    method AppendEntry(used: nat, e: Entry) returns (whole: bool)
      requires used <= len <= data.Length
      modifies this`data, this`len, data
      ensures whole <==> !Truncated(used, e)
      ensures Holds(old(data[..len]) + if whole then EntryText(used, e) else EntryText(used, e) + Notice(used, e))
      ensures data == old(data) || fresh(data)
    {
      ghost var text := data[..len];
      var cut: nat;
      cut, whole := CutBody(used, e);
      ghost var join, head, tail := Join(used), EntryHead(e, cut), EntryTail(e, cut);
      if used > 0 {
        Append("\n");
      }
      assert data[..len] == text + join;
      Append(EntryHead(e, cut));
      Append(EntryTail(e, cut));
      Assoc(text + join, head, tail);
      Assoc(text, join, head + tail);
      assert data[..len] == text + EntryText(used, e);
      if !whole {
        Assoc(text, EntryText(used, e), Notice(used, e));
        Append(Notice(used, e));
      }
    }

    // The block loop of nm_context_new over the files that have content.
    method AppendFiles(es: seq<Entry>)
      requires len <= data.Length
      modifies this`data, this`len, data
      ensures len == |old(data[..len]) + Files(0, es)| <= data.Length
      ensures data[..len] == old(data[..len]) + Files(0, es)
      ensures data == old(data) || fresh(data)
    {
      hide ProjectBlock.EntryText, ProjectBlock.Notice;
      ghost var text := data[..len];
      var start := len;
      ghost var out := "";
      assert text + out == text && es[0..] == es;
      for i := 0 to |es|
        invariant start == |text| && len <= data.Length
        invariant data == old(data) || fresh(data)
        invariant data[..len] == text + out
        invariant Files(0, es) == out + Files(|out|, es[i..])
      {
        assert es[i..][0] == es[i] && es[i..][1..] == es[i + 1..];
        ghost var t := EntryText(|out|, es[i]);
        ghost var rest := Files(|out + t|, es[i + 1..]);
        var whole := AppendEntry(len - start, es[i]);
        if !whole {
          Assoc(text, out, t + Notice(|out|, es[i]));
          return;
        }
        Assoc(text, out, t);
        Assoc(out, t, rest);
        out := out + t;
      }
      assert Files(|out|, es[|es|..]) == "" && out + "" == out;
    }

    method AppendBlock(es: seq<Entry>)
      requires len <= data.Length
      modifies this`data, this`len, data
      ensures es != [] ==> Holds(old(data[..len]) + Block(es))
      ensures es == [] ==> Block(es) == "" && data == old(data) && len == old(len) && data[..] == old(data[..])
      ensures data == old(data) || fresh(data)
    {
      if es == [] {
        return;
      }
      ghost var text, header, files, footer := data[..len], HEADER, Files(0, es), FOOTER;
      Append(HEADER);
      AppendFiles(es);
      Append(FOOTER);
      Assoc(text, header, files);
      Assoc(text, header + files, footer);
    }

    // nm_context_new: identity and clauses, the vision slot, the env block, and the
    // project block of the files it finds.
    constructor (base: string, clause: string, vision: int, dir: string, world: ContextWalk.World)
      requires base != []
      ensures Valid() && fresh(data)
      ensures var wd := ContextWalk.WorkDir(dir);
        segments == Segments(base, clause, vision == 1, if wd == "" then None else Some(EnvBlock(ContextWalk.EnvHead(wd, world), "")),
                             Block(ContextFiles.Loaded(ContextWalk.FilesFor(wd, world))), "")
    {
      this.clause := clause;
      data := new char[0];
      len, visionPos, visionApplied, envGitPos := 0, 0, false, 0;
      segments := Segments(base, clause, false, None, "", "");
      new;
      AddBase(base);
      hide Valid, Render, ContextFiles.Loaded, ContextWalk.FilesFor, ContextWalk.EnvHead, Block;
      var _ := SetVision(vision);
      var wd := ContextWalk.StripTrailingSeps(if |dir| < ContextWalk.DIR_MAX then dir else dir[..ContextWalk.DIR_MAX - 1]);
      AddPlace(wd, world);
    }

    // The text before the vision slot, into an empty buffer.
    method AddBase(base: string)
      requires base != [] && len == 0 && !visionApplied && envGitPos == 0
      requires segments == Segments(base, clause, false, None, "", "")
      modifies this`data, this`len, this`visionPos, data
      ensures Valid() && (data == old(data) || fresh(data))
    {
      assert data[..len] == [];
      Append(base);
      visionPos := len;
      assert Render(segments) == base == [] + base;
    }

    // What depends on the working directory.
    method AddPlace(wd: string, world: ContextWalk.World)
      requires Valid() && segments.env.None? && segments.project == "" && segments.skills == ""
      modifies this, data
      ensures Valid() && (data == old(data) || fresh(data))
      ensures segments == old(segments).(env := if wd == "" then None else Some(EnvBlock(ContextWalk.EnvHead(wd, world), "")),
                                         project := Block(ContextFiles.Loaded(ContextWalk.FilesFor(wd, world))))
    {
      hide Valid, ContextFiles.Loaded, ContextWalk.FilesFor, ContextWalk.EnvHead, Block;
      if wd != "" {
        AddEnv(ContextWalk.EnvHead(wd, world));
      }
      var entries := ContextWalk.FindEntries(wd, world);
      AddProject(entries);
    }

    // The <env> block: its footer's newline is the git section's offset.
    method AddEnv(head: string)
      requires Valid() && segments.env.None? && segments.project == "" && segments.skills == ""
      modifies this, data
      ensures Valid() && (data == old(data) || fresh(data))
      ensures segments == old(segments).(env := Some(EnvBlock(head, "")))
    {
      ghost var before, after := segments, segments.(env := Some(EnvBlock(head, "")));
      Append(head + ENV_FOOTER);
      assert head + "" == head;
      assert Render(after) == Render(before) + (head + ENV_FOOTER);
      envGitPos := len - |ENV_FOOTER|;
      segments := after;
    }

    method AddProject(entries: seq<Entry>)
      requires Valid() && segments.project == "" && segments.skills == ""
      modifies this, data
      ensures Valid() && (data == old(data) || fresh(data))
      ensures segments == old(segments).(project := Block(entries))
    {
      hide ProjectBlock.Block;
      ghost var block := Block(entries);
      assert Render(segments.(project := block)) == Render(segments) + block;
      AppendBlock(entries);
      segments := segments.(project := block);
    }
  }

  method OneCall(c: Context, call: Call)
    requires c.Valid()
    modifies c, c.data
    ensures c.Valid() && (c.data == old(c.data) || fresh(c.data))
    ensures c.segments == Edited(old(c.segments), EditOf(call))
  {
    match call
    case VisionCall(flag) => var _ := c.SetVision(flag);
    case GitCall(output) => c.ApplyGit(output);
    case SkillsCall(menu) => c.SetSkills(menu);
  }

  // Any run of the calls, in any order: the buffer is the prompt whose slots hold
  // the last vision answer, every section in order and every menu in order. When
  // only vision was set, and it ends as it began, the bytes are those of before.
  method Calls(c: Context, calls: seq<Call>)
    requires c.Valid()
    modifies c, c.data
    ensures c.Valid() && (c.data == old(c.data) || fresh(c.data))
    ensures var es := EditsOf(calls);
      c.data[..c.len] == Render(Slotted(old(c.segments), LastVision(es, old(c.segments.vision)), Sections(es), Menus(es)))
    ensures (forall i :: 0 <= i < |calls| ==> calls[i].VisionCall?) && c.segments.vision == old(c.segments.vision) ==>
      c.data[..c.len] == old(c.data[..c.len])
  {
    ghost var s, es := c.segments, EditsOf(calls);
    for i := 0 to |calls|
      invariant c.Valid() && (c.data == old(c.data) || fresh(c.data))
      invariant c.segments == EditedBy(s, es[..i])
    {
      assert es[..i + 1][..i] == es[..i];
      OneCall(c, calls[i]);
    }
    assert es[..|calls|] == es;
    EditsCommuteIntoSlots(s, es);
    if (forall i :: 0 <= i < |calls| ==> calls[i].VisionCall?) && c.segments.vision == s.vision {
      SwitchingBackRestores(s, es);
    }
  }
}
