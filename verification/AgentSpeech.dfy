// What the agent puts into the transcript for others, and whom it asks (src/agent.c).
module AgentSpeech {
  import opened Common
  import opened Session
  import opened AgentMachine
  import opened AgentGroups
  import Prompt

  // What a call is told: the name it was made under, and its output.
  datatype Answer = Answer(tool: string, output: string)

  // The answers in a transcript, in order.
  function Outputs(ms: seq<Message>): seq<Answer> {
    if ms == [] then []
    else
      var m := ms[|ms| - 1];
      Outputs(ms[..|ms| - 1]) + if m.Tool? then [Answer(m.name, m.output)] else []
  }

  // What an event returns to the calls of the round: to its own call the output of the
  // tool that finishes, or the notice of a cancel to each call that is left.
  function Returned(s: State, ev: Event): seq<Answer> {
    if s.phase != RunningTool || s.stage.awaiting then []
    else match ev
      case Step(e) =>
        if s.tools.index < |s.buf.calls| && !e.toolRuns then [Answer(s.buf.calls[s.tools.index].name, e.output)] else []
      case Cancel => if s.tools.index <= |s.buf.calls| then Notices(s.buf.calls[s.tools.index..]) else []
      case _ => []
  }

  function Notices(calls: seq<ToolCall>): seq<Answer> {
    seq(|calls|, i requires 0 <= i < |calls| => Answer(calls[i].name, CANCELLED))
  }

  function AllReturned(s: State, evs: seq<Event>): seq<Answer>
    decreases |evs|
  {
    if evs == [] then []
    else AllReturned(s, evs[..|evs| - 1]) + Returned(Run(s, evs[..|evs| - 1]), evs[|evs| - 1])
  }

  lemma {:induction false} OutputsMore(a: seq<Message>, b: seq<Message>)
    ensures Outputs(a + b) == Outputs(a) + Outputs(b)
    decreases |b|
  {
    if b == [] {
      assert a + b == a;
    } else {
      OutputsMore(a, b[..|b| - 1]);
      assert (a + b)[..|a + b| - 1] == a + b[..|b| - 1];
    }
  }

  lemma {:induction false} NoOutputs(ms: seq<Message>)
    requires forall i :: 0 <= i < |ms| ==> !ms[i].Tool?
    ensures Outputs(ms) == []
  {
    if ms != [] {
      NoOutputs(ms[..|ms| - 1]);
    }
  }

  lemma {:induction false} RepliesOutput(calls: seq<ToolCall>)
    ensures Outputs(CancelReplies(calls)) == Notices(calls)
  {
    if calls != [] {
      var k := |calls| - 1;
      RepliesOutput(calls[..k]);
      assert CancelReplies(calls)[..k] == CancelReplies(calls[..k]);
      assert Notices(calls) == Notices(calls[..k]) + [Answer(calls[k].name, CANCELLED)];
    }
  }

  lemma Silent(ms: seq<Message>, more: seq<Message>)
    requires forall i :: 0 <= i < |more| ==> !more[i].Tool?
    ensures Outputs(ms + more) == Outputs(ms)
  {
    OutputsMore(ms, more);
    NoOutputs(more);
    hide Outputs;
  }

  lemma PublishIsSilent(t: Talk)
    requires t.session != [] ==> t.session[0].System?
    ensures Outputs(Publish(t).session) == Outputs(t.session)
  {
    if t.session != [] {
      var after := Publish(t).session;
      assert after[1..] == t.session[1..];
      OutputsMore([t.session[0]], t.session[1..]);
      OutputsMore([after[0]], after[1..]);
      NoOutputs([t.session[0]]);
      NoOutputs([after[0]]);
      assert [t.session[0]] + t.session[1..] == t.session && [after[0]] + after[1..] == after;
    }
  }

  lemma BeginRoundIsSilent(s: State, e: RoundEnv)
    ensures Outputs(BeginRound(s, e).talk.session) == Outputs(s.talk.session)
  {
    Silent(s.talk.session, Reminder(e.reminder));
    hide Outputs, WireNow, Carries;
  }

  lemma EnvDriveIsSilent(s: State, job: JobView, now: real, e: RoundEnv)
    requires Seeded(s.talk)
    ensures Outputs(EnvDrive(s, job, now, e).talk.session) == Outputs(s.talk.session)
  {
    if EnvResolves(s.stage, job, now) {
      var r := EnvResolved(s, job);
      PublishIsSilent(r.talk);
      BeginRoundIsSilent(r.(talk := Publish(r.talk)), e);
      hide Outputs, Publish, BeginRound;
    }
  }

  lemma OpeningIsSilent(t: Talk, e: StartEnv)
    requires Seeded(t)
    ensures Outputs(Opening(t, e).session) == Outputs(t.session)
  {
    var u := EnsureSession(t);
    NoOutputs(if t.session == [] then u.session else []);
    PublishIsSilent(u.(prompt := Prompt.SetVision(u.prompt, e.vision)));
    hide Outputs;
  }

  lemma GreetedIsSilent(t: Talk, e: StartEnv)
    requires Seeded(t)
    ensures Outputs(Greeted(t, e).session) == Outputs(t.session)
  {
    OpeningIsSilent(t, e);
    Silent(Opening(t, e).session, [User(e.input, e.images)] + Users(e.notes));
    hide Outputs, Opening;
  }

  // The state a start leaves, by whether the git stage is still out.
  lemma StartIs(s: State, e: StartEnv, u: State, w: State)
    requires u == s.(round := 0, talk := Greeted(s.talk, e))
    requires w == u.(phase := Streaming, stage := u.stage.(awaiting := true))
    ensures Busy(s.phase) ==> StartTurn(s, e) == s
    ensures !Busy(s.phase) && !ImagesResolve(s.talk.imageCount, e.images) ==> StartTurn(s, e).talk == Opening(s.talk, e)
    ensures !Busy(s.phase) && ImagesResolve(s.talk.imageCount, e.images) ==>
      StartTurn(s, e) == if s.stage.job then EnvDrive(w, e.job, e.now, e.begin) else BeginRound(u, e.begin)
  {
    hide BeginRound, EnvDrive, Greeted, Opening;
  }

  lemma StartIsSilent(s: State, e: StartEnv)
    requires Shape(s)
    ensures Outputs(StartTurn(s, e).talk.session) == Outputs(s.talk.session)
  {
    var u := s.(round := 0, talk := Greeted(s.talk, e));
    var w := u.(phase := Streaming, stage := u.stage.(awaiting := true));
    StartIs(s, e, u, w);
    OpeningIsSilent(s.talk, e);
    GreetedIsSilent(s.talk, e);
    BeginRoundIsSilent(u, e.begin);
    if !Busy(s.phase) {
      GreetedKeepsShape(s, e);
      EnvDriveIsSilent(w, e.job, e.now, e.begin);
    }
    hide Outputs, StartTurn, Opening, BeginRound, EnvDrive, Shape, Greeted;
  }

  lemma StreamIsSilent(s: State, e: StepEnv)
    ensures Outputs(StreamStep(s, e).talk.session) == Outputs(s.talk.session)
  {
    var d := Received(s, e.deltas, e.now);
    Silent(d.talk.session, RoundMessage(d.buf));
    hide Outputs, OnDeltas, Pictures;
  }

  lemma ToolStepReturns(s: State, e: StepEnv)
    requires s.phase == RunningTool && !s.stage.awaiting
    ensures Outputs(ToolStep(s, e).talk.session) == Outputs(s.talk.session) + Returned(s, Step(e))
  {
    if s.tools.index >= |s.buf.calls| {
      var c := s.(buf := s.buf.(calls := []), tools := s.tools.(index := 0));
      var fan := [User(e.fanText, ImageIds(s.tools.images))];
      BeginRoundIsSilent(c, e.begin);
      Silent(s.talk.session, fan);
      BeginRoundIsSilent(c.(talk := Say(s.talk, fan)), e.begin);
      hide Outputs, BeginRound;
    } else if !e.toolRuns {
      var call := s.buf.calls[s.tools.index];
      var more := s.talk.session + [Tool(call.id, call.name, e.output)];
      assert more[..|s.talk.session|] == s.talk.session;
    }
  }

  lemma CancelReturns(s: State)
    requires Shape(s)
    ensures Outputs(CancelTurn(s).talk.session) == Outputs(s.talk.session) + Returned(s, Cancel)
  {
    if s.phase == RunningTool {
      var left := s.buf.calls[s.tools.index..];
      OutputsMore(s.talk.session, CancelReplies(left));
      RepliesOutput(left);
    }
    hide Outputs, CancelReplies;
  }

  lemma ApplyReturns(s: State, ev: Event)
    requires Shape(s)
    ensures Outputs(Apply(s, ev).talk.session) == Outputs(s.talk.session) + Returned(s, ev)
  {
    hide Outputs, StreamStep, ToolStep, EnvDrive, Groups, SentClosed, Opening;
    match ev
    case Start(e) => StartIsSilent(s, e);
    case Step(e) =>
      if s.stage.awaiting {
        EnvDriveIsSilent(s, e.job, e.now, e.begin);
      } else if s.phase == RunningTool {
        ToolStepReturns(s, e);
      } else if s.streamOpen {
        StreamIsSilent(s, e);
      }
    case Cancel => CancelReturns(s);
    case SetModel(m, v) =>
      var t := s.talk.(model := m, clausePending := true);
      PublishIsSilent(t.(prompt := Prompt.SetVision(t.prompt, v)));
    case AttachImage(ok) =>
      AttachIsSilent(s.talk);
  }

  lemma AttachIsSilent(t: Talk)
    ensures Outputs(EnsureSession(t).session) == Outputs(t.session)
  {
    NoOutputs(if t.session == [] then EnsureSession(t).session else []);
  }

  // Over any run the results of the transcript are, in order, what the tools returned,
  // each call's own, with the notice of a cancel for every call it cut off.
  lemma {:induction false} ResultsAreReturned(s: State, evs: seq<Event>)
    requires Shape(s)
    ensures Outputs(Run(s, evs).talk.session) == Outputs(s.talk.session) + AllReturned(s, evs)
    decreases |evs|
  {
    if evs != [] {
      var before := evs[..|evs| - 1];
      ResultsAreReturned(s, before);
      RunKeepsShape(s, before);
      hide Outputs, Shape, Apply, Returned;
      ApplyReturns(Run(s, before), evs[|evs| - 1]);
      Assoc(Outputs(s.talk.session), AllReturned(s, before), Returned(Run(s, before), evs[|evs| - 1]));
    }
  }

  // b repeats a, the system prompt aside, and adds at most the reminder.
  predicate Continues(a: seq<Message>, b: seq<Message>, reminder: Option<string>) {
    && |a| <= |b| <= |a| + 1
    && (forall i :: 1 <= i < |a| ==> b[i] == a[i])
    && (|b| == |a| + 1 ==> reminder.Some? && b[|a|] == User(reminder.value, []))
  }

  lemma BeginRoundContinues(s: State, e: RoundEnv)
    ensures Continues(s.talk.session, BeginRound(s, e).talk.session, e.reminder)
  {
    hide WireNow, Carries;
  }

  lemma EnvDriveContinues(s: State, job: JobView, now: real, e: RoundEnv)
    requires Seeded(s.talk) && s.talk.session != []
    ensures Continues(s.talk.session, EnvDrive(s, job, now, e).talk.session, e.reminder)
  {
    if EnvResolves(s.stage, job, now) {
      var r := EnvResolved(s, job);
      BeginRoundContinues(r.(talk := Publish(r.talk)), e);
      hide BeginRound;
    }
  }

  lemma StartContinues(s: State, e: StartEnv)
    requires Shape(s) && !Busy(s.phase) && ImagesResolve(s.talk.imageCount, e.images)
    ensures Continues(Greeted(s.talk, e).session, StartTurn(s, e).talk.session, e.begin.reminder)
  {
    GreetedKeepsShape(s, e);
    var u := s.(round := 0, talk := Greeted(s.talk, e));
    var w := u.(phase := Streaming, stage := u.stage.(awaiting := true));
    StartIs(s, e, u, w);
    hide BeginRound, EnvDrive, Continues, Greeted, Shape, Seeded, StartTurn;
    BeginRoundContinues(u, e.begin);
    EnvDriveContinues(w, e.job, e.now, e.begin);
  }

  // `now` is `before`, the system prompt aside, then what the user sent, the input with
  // its images and the notes, one message each and in order, and at most the reminder.
  predicate OpensWith(before: seq<Message>, e: StartEnv, was: nat, now: seq<Message>) {
    && was == (if before == [] then 1 else |before|) && was + 1 + |e.notes| <= |now| <= was + 2 + |e.notes|
    && (forall i :: 1 <= i < was ==> now[i] == before[i])
    && now[was] == User(e.input, e.images)
    && (forall i :: 0 <= i < |e.notes| ==> now[was + 1 + i] == User(e.notes[i], []))
    && (|now| == was + 2 + |e.notes| ==> e.begin.reminder.Some? && now[|now| - 1] == User(e.begin.reminder.value, []))
  }

  lemma OpeningKeepsMessages(t: Talk, e: StartEnv)
    requires Seeded(t)
    ensures var o := Opening(t, e).session;
      |o| == (if t.session == [] then 1 else |t.session|) && forall i :: 1 <= i < |o| ==> o[i] == t.session[i]
  {
  }

  lemma GreetedOpens(t: Talk, e: StartEnv)
    requires Seeded(t)
    ensures var was := |Opening(t, e).session|; var g := Greeted(t, e).session;
      OpensWith(t.session, e, was, g) && |g| == was + 1 + |e.notes|
  {
    OpeningKeepsMessages(t, e);
    hide Opening;
  }

  // What continues an opening with at most the reminder still opens so.
  lemma StillOpens(before: seq<Message>, e: StartEnv, was: nat, g: seq<Message>, now: seq<Message>)
    requires OpensWith(before, e, was, g) && |g| == was + 1 + |e.notes| && Continues(g, now, e.begin.reminder)
    ensures OpensWith(before, e, was, now)
  {
  }

  // A turn opens with what the user sent, and nothing but a reminder after it.
  lemma TurnOpensWithInput(s: State, e: StartEnv)
    requires Shape(s) && !Busy(s.phase) && ImagesResolve(s.talk.imageCount, e.images)
    ensures exists was: nat :: OpensWith(s.talk.session, e, was, StartTurn(s, e).talk.session)
  {
    hide StartTurn, Opening, Greeted, Continues, OpensWith;
    StartContinues(s, e);
    GreetedOpens(s.talk, e);
    StillOpens(s.talk.session, e, |Opening(s.talk, e).session|, Greeted(s.talk, e).session, StartTurn(s, e).talk.session);
  }

  // The pictures of a round's tools go out in one message, in the order of their calls,
  // after the last result.
  lemma PicturesFanOut(s: State, e: StepEnv)
    requires Shape(s) && s.phase == RunningTool && s.tools.index == |s.buf.calls| && s.tools.images != [] && e.fanOut
    ensures var was, now := s.talk.session, StepTurn(s, e).talk.session;
      was < now && now[|was|] == User(e.fanText, ImageIds(s.tools.images))
  {
  }

  // A round's request ends with the reminder that fired, if one did, and is otherwise the
  // transcript as it was; under the cap that is so whether or not the request goes out.
  lemma RoundSaysTheReminder(s: State, e: RoundEnv)
    ensures BeginRound(s, e).talk.session ==
      if s.round < e.cap && e.reminder.Some? then s.talk.session + [User(e.reminder.value, [])] else s.talk.session
  {
    hide WireNow, Carries;
    assert s.talk.session + [] == s.talk.session;
  }

  // ---- The clause that follows the model. ----

  // Until a model's first request is composed its prompt follows what the catalog says of
  // its vision, and after that it is left alone; a change of the model opens it again.
  lemma ClauseFollowsCatalog(s: State, e: StartEnv, b: RoundEnv, model: string, vision: int)
    ensures Opening(s.talk, e).prompt.vision == if s.talk.clausePending then e.vision == 1 else s.talk.prompt.vision
    ensures Opening(s.talk, e).clausePending == s.talk.clausePending
    ensures BeginRound(s, b).talk.clausePending <==> s.talk.clausePending && s.round >= b.cap
    ensures var r := ChangeModel(s, model, vision);
      if model == "" || model == s.talk.model then r == s
      else r.talk.clausePending && r.talk.prompt.vision == (vision == 1)
  {
    hide WireNow, Carries;
  }

  // ---- The model that is asked. ----

  // The model the last change names, if any does.
  function ModelAfter(model: string, evs: seq<Event>): string
    decreases |evs|
  {
    if evs == [] then model
    else
      var last := evs[|evs| - 1];
      if last.SetModel? && last.model != "" then last.model else ModelAfter(model, evs[..|evs| - 1])
  }

  // The same model, and what was sent since asks it.
  predicate Asks(s: State, r: State) {
    && r.talk.model == s.talk.model && |r.past.sent| >= |s.past.sent|
    && (forall i :: 0 <= i < |s.past.sent| ==> r.past.sent[i] == s.past.sent[i])
    && (forall i :: |s.past.sent| <= i < |r.past.sent| ==> r.past.sent[i].model == s.talk.model)
  }

  lemma BeginRoundAsks(s: State, e: RoundEnv)
    ensures Asks(s, BeginRound(s, e))
  {
    hide WireNow, Carries;
  }

  lemma EnvDriveAsks(s: State, job: JobView, now: real, e: RoundEnv)
    ensures Asks(s, EnvDrive(s, job, now, e))
  {
    if EnvResolves(s.stage, job, now) {
      var r := EnvResolved(s, job);
      BeginRoundAsks(r.(talk := Publish(r.talk)), e);
      hide BeginRound;
    }
  }

  lemma StartAsks(s: State, e: StartEnv)
    ensures Asks(s, StartTurn(s, e))
  {
    var u := s.(round := 0, talk := Greeted(s.talk, e));
    var w := u.(phase := Streaming, stage := u.stage.(awaiting := true));
    BeginRoundAsks(u, e.begin);
    EnvDriveAsks(w, e.job, e.now, e.begin);
    GreetedKeepsModel(s.talk, e);
    hide BeginRound, EnvDrive, Greeted, Opening;
  }

  lemma GreetedKeepsModel(t: Talk, e: StartEnv)
    ensures Opening(t, e).model == t.model && Greeted(t, e).model == t.model
  {
  }

  lemma StepAsks(s: State, e: StepEnv)
    ensures Asks(s, StepTurn(s, e))
  {
    if s.stage.awaiting {
      EnvDriveAsks(s, e.job, e.now, e.begin);
    } else if s.phase == RunningTool {
      var c := s.(buf := s.buf.(calls := []), tools := s.tools.(index := 0));
      BeginRoundAsks(c, e.begin);
      BeginRoundAsks(c.(talk := Say(s.talk, [User(e.fanText, ImageIds(s.tools.images))])), e.begin);
      hide BeginRound;
    }
    hide EnvDrive, OnDeltas;
  }

  lemma ApplyAsks(s: State, ev: Event)
    ensures var r := Apply(s, ev);
      if ev.SetModel? && ev.model != "" then r.talk.model == ev.model && r.past.sent == s.past.sent else Asks(s, r)
  {
    hide StartTurn, StepTurn;
    match ev
    case Start(e) => StartAsks(s, e);
    case Step(e) => StepAsks(s, e);
    case Cancel =>
    case SetModel(_, _) =>
    case AttachImage(_) =>
  }

  // Every accepted request of any run asks the model that the last change before it
  // named.
  lemma {:induction false} RequestsAskTheModel(s: State, evs: seq<Event>, ev: Event)
    ensures Run(s, evs).talk.model == ModelAfter(s.talk.model, evs)
    ensures var before, after := Run(s, evs).past.sent, Apply(Run(s, evs), ev).past.sent;
      |before| <= |after| && forall i :: |before| <= i < |after| ==> after[i].model == ModelAfter(s.talk.model, evs)
    decreases |evs|
  {
    hide Apply;
    if evs != [] {
      var k := |evs| - 1;
      RequestsAskTheModel(s, evs[..k], ev);
      ApplyAsks(Run(s, evs[..k]), evs[k]);
    }
    ApplyAsks(Run(s, evs), ev);
  }
}
