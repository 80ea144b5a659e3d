// The system prompt as a list of named segments: the specification that the
// flat buffer of src/context.c refines (see PromptBuffer).
module Prompt {
  import opened Common

  // `head` runs up to the newline that opens the "\n</env>" footer; `git` holds
  // the sections spliced in before that footer, in order.
  datatype EnvBlock = EnvBlock(head: string, git: string)

  datatype Segments = Segments(
    base: string, clause: string, vision: bool, env: Option<EnvBlock>, project: string, skills: string)

  const ENV_FOOTER := "\n</env>"

  function ClauseText(s: Segments): string {
    if s.vision then s.clause else ""
  }

  function EnvText(e: Option<EnvBlock>): string {
    if e.Some? then e.value.head + e.value.git + ENV_FOOTER else ""
  }

  function Render(s: Segments): string {
    s.base + ClauseText(s) + EnvText(s.env) + s.project + s.skills
  }

  // nm_context_set_vision: only a claim of 1 puts the clause in.
  function SetVision(s: Segments, vision: int): Segments {
    s.(vision := vision == 1)
  }

  // nm_context_env_apply_git: `section` is the text it splices in, "" when the
  // marker scan found nothing.
  function ApplyGit(s: Segments, section: string): Segments {
    if s.env.None? || section == "" then s
    else s.(env := Some(s.env.value.(git := s.env.value.git + section)))
  }

  // nm_context_set_skills: the menu goes to the end.
  function AddSkills(s: Segments, menu: string): Segments {
    s.(skills := s.skills + menu)
  }

  // The offset of the footer's newline; 0 when there is no env block.
  function FooterAt(s: Segments): nat {
    if s.env.None? then 0
    else |s.base| + |ClauseText(s)| + |s.env.value.head| + |s.env.value.git|
  }

  lemma FooterIsThere(s: Segments)
    requires s.env.Some?
    ensures FooterAt(s) + |ENV_FOOTER| <= |Render(s)|
    ensures Render(s)[FooterAt(s)..FooterAt(s) + |ENV_FOOTER|] == ENV_FOOTER
    ensures Render(s)[FooterAt(s)] == '\n'
  {
    var before := s.base + ClauseText(s) + s.env.value.head + s.env.value.git;
    assert Render(s) == before + ENV_FOOTER + (s.project + s.skills);
    assert |before| == FooterAt(s);
    assert ENV_FOOTER[0] == '\n';
  }

  // Filling the clause's slot is a splice at its recorded offset, and emptying it
  // is the exact inverse.
  lemma VisionIsASplice(s: Segments)
    requires !s.vision
    ensures Render(SetVision(s, 1)) == Render(s)[..|s.base|] + s.clause + Render(s)[|s.base|..]
  {
    var rest := EnvText(s.env) + s.project + s.skills;
    assert Render(s) == s.base + rest;
    assert Render(SetVision(s, 1)) == s.base + s.clause + rest;
  }

  // A git section is a splice at the footer's newline, which it moves.
  lemma GitIsASplice(s: Segments, section: string)
    requires s.env.Some? && section != ""
    ensures FooterAt(s) <= |Render(s)|
    ensures Render(ApplyGit(s, section)) == Render(s)[..FooterAt(s)] + section + Render(s)[FooterAt(s)..]
    ensures FooterAt(ApplyGit(s, section)) == FooterAt(s) + |section|
  {
    var before := s.base + ClauseText(s) + s.env.value.head + s.env.value.git;
    var after := ENV_FOOTER + s.project + s.skills;
    assert before + section == s.base + ClauseText(s) + s.env.value.head + (s.env.value.git + section);
    assert |before| == FooterAt(s);
  }

  // ---- any interleaving --------------------------------------------------

  datatype Edit = Vision(flag: int) | Git(section: string) | Skills(menu: string)

  function Edited(s: Segments, e: Edit): Segments {
    match e
    case Vision(v) => SetVision(s, v)
    case Git(t) => ApplyGit(s, t)
    case Skills(m) => AddSkills(s, m)
  }

  function EditedBy(s: Segments, es: seq<Edit>): Segments
    decreases |es|
  {
    if es == [] then s else Edited(EditedBy(s, es[..|es| - 1]), es[|es| - 1])
  }

  // What a run of edits says about each slot, read off separately.
  function LastVision(es: seq<Edit>, before: bool): bool
    decreases |es|
  {
    if es == [] then before
    else if es[|es| - 1].Vision? then es[|es| - 1].flag == 1
    else LastVision(es[..|es| - 1], before)
  }

  function SectionOf(e: Edit): string { if e.Git? then e.section else "" }

  function MenuOf(e: Edit): string { if e.Skills? then e.menu else "" }

  function Sections(es: seq<Edit>): string
    decreases |es|
  {
    if es == [] then "" else Sections(es[..|es| - 1]) + SectionOf(es[|es| - 1])
  }

  function Menus(es: seq<Edit>): string
    decreases |es|
  {
    if es == [] then "" else Menus(es[..|es| - 1]) + MenuOf(es[|es| - 1])
  }

  // The prompt that has those slots.
  function Slotted(s: Segments, vision: bool, sections: string, menus: string): Segments {
    s.(vision := vision,
       env := if s.env.Some? then Some(s.env.value.(git := s.env.value.git + sections)) else None,
       skills := s.skills + menus)
  }

  lemma EditFillsItsSlot(s: Segments, vision: bool, sections: string, menus: string, e: Edit)
    ensures Edited(Slotted(s, vision, sections, menus), e)
      == Slotted(s, if e.Vision? then e.flag == 1 else vision, sections + SectionOf(e), menus + MenuOf(e))
  {
    assert sections + "" == sections && menus + "" == menus;
    assert s.skills + menus + MenuOf(e) == s.skills + (menus + MenuOf(e));
    if s.env.Some? {
      assert s.env.value.git + sections + SectionOf(e) == s.env.value.git + (sections + SectionOf(e));
    }
  }

  // Splice refinement: whatever the order of the edits, the prompt is the base,
  // the clause of the last vision answer, the env head with every git section in
  // order before its footer, the project block, and the menus.
  lemma {:induction false} EditsCommuteIntoSlots(s: Segments, es: seq<Edit>)
    ensures EditedBy(s, es) == Slotted(s, LastVision(es, s.vision), Sections(es), Menus(es))
    decreases |es|
  {
    if es == [] {
      assert s.skills + "" == s.skills;
      assert s.env.Some? ==> s.env.value.git + "" == s.env.value.git;
    } else {
      var k := |es| - 1;
      EditsCommuteIntoSlots(s, es[..k]);
      EditFillsItsSlot(s, LastVision(es[..k], s.vision), Sections(es[..k]), Menus(es[..k]), es[k]);
    }
  }

  // Vision that ends as it began leaves the prompt as it was, byte for byte.
  lemma SwitchingBackRestores(s: Segments, es: seq<Edit>)
    requires forall i :: 0 <= i < |es| ==> es[i].Vision?
    requires LastVision(es, s.vision) == s.vision
    ensures Render(EditedBy(s, es)) == Render(s)
  {
    EditsCommuteIntoSlots(s, es);
    NoTextInVision(es);
    EditsCommuteIntoSlots(s, []);
  }

  lemma {:induction false} NoTextInVision(es: seq<Edit>)
    requires forall i :: 0 <= i < |es| ==> es[i].Vision?
    ensures Sections(es) == "" && Menus(es) == ""
    decreases |es|
  {
    if es != [] {
      NoTextInVision(es[..|es| - 1]);
    }
  }
}
