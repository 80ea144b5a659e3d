// What every run of the agent keeps about the shape of its state and of the
// transcript: tool-call groups stay well formed through cancel and error.
module AgentGroups {
  import opened Session
  import opened Prompt
  import opened AgentMachine

  // The stream, the git stage and a live tool each belong to one phase.
  predicate Phases(s: State) {
    && (s.streamOpen ==> s.phase == Streaming && !s.stage.awaiting && s.tools.index == 0)
    && (s.stage.awaiting ==> s.phase == Streaming && s.stage.job)
    && (s.phase == Streaming ==> s.streamOpen || s.stage.awaiting)
    && (s.streamOpen || s.phase == RunningTool ==> !s.stage.job)
    && (s.tools.execLive ==> s.phase == RunningTool && s.tools.index < |s.buf.calls|)
    && (Busy(s.phase) ==> s.talk.session != [])
  }

  // Message 0 is the current system prompt.
  predicate Seeded(t: Talk) {
    t.session != [] ==> t.session[0] == System(Render(t.prompt))
  }

  // Every image id a message may carry resolves in the session's store.
  predicate Resolved(s: State) {
    && ImagesResolve(s.talk.imageCount, s.buf.images)
    && ImagesResolve(s.talk.imageCount, ImageIds(s.tools.images))
  }

  // Only in RUNNING_TOOL may the last group be open, and then it holds exactly
  // the results of the calls before `index`.
  predicate Groups(phase: Phase, session: seq<Message>, calls: seq<ToolCall>, index: nat) {
    if phase == RunningTool then OpenGroup(session, calls, index) else Closed(session)
  }

  function Transcript(r: Request): (ms: seq<Message>)
    ensures |ms| == |r.wire|
  {
    seq(|r.wire|, i requires 0 <= i < |r.wire| => r.wire[i].message)
  }

  // Every accepted request carried a transcript the wire accepts.
  predicate SentClosed(sent: seq<Request>) {
    forall i :: 0 <= i < |sent| ==> Closed(Transcript(sent[i]))
  }

  predicate Shape(s: State) {
    && Phases(s)
    && Seeded(s.talk)
    && Resolved(s)
    && Groups(s.phase, s.talk.session, s.buf.calls, s.tools.index)
    && SentClosed(s.past.sent)
  }

  lemma ClosedWithUsers(ms: seq<Message>, us: seq<Message>)
    requires Closed(ms) && forall i :: 0 <= i < |us| ==> us[i].User?
    ensures Closed(ms + us)
    decreases |us|
  {
    if us == [] {
      assert ms + us == ms;
    } else {
      var k := |us| - 1;
      ClosedWithUsers(ms, us[..k]);
      PlainMessageKeepsClosed(ms + us[..k], us[k]);
      assert ms + us[..k] + [us[k]] == ms + us;
    }
  }

  lemma OpenedKeepsShape(s: State, e: RoundEnv)
    requires s.talk.session != [] && Closed(s.talk.session) && SentClosed(s.past.sent)
    requires Seeded(s.talk) && Resolved(s)
    requires !s.stage.job && !s.stage.awaiting && !s.tools.execLive && s.tools.index == 0
    ensures Shape(Opened(s, e))
  {
    assert Transcript(Opened(s, e).past.sent[|s.past.sent|]) == s.talk.session;
  }

  lemma BeginRoundKeepsShape(s: State, e: RoundEnv)
    requires s.talk.session != [] && Closed(s.talk.session) && SentClosed(s.past.sent)
    requires Seeded(s.talk) && Resolved(s)
    requires !s.streamOpen && !s.stage.job && !s.stage.awaiting && !s.tools.execLive
    ensures Shape(BeginRound(s, e))
  {
    ClosedWithUsers(s.talk.session, Reminder(e.reminder));
    var p := Prepare(s, e);
    assert p.talk.session == s.talk.session + Reminder(e.reminder);
    if s.round < e.cap && e.memory && e.opens {
      OpenedKeepsShape(p, e);
    }
  }

  // env_stage_step leaves the session behind the prompt until env_finish.
  lemma EnvDriveKeepsShape(s: State, job: JobView, now: real, e: RoundEnv)
    requires Shape(s) && s.stage.awaiting
    ensures Shape(EnvDrive(s, job, now, e))
  {
    if EnvResolves(s.stage, job, now) {
      var r := EnvResolved(s, job);
      SetSystemKeepsClosed(s.talk.session, Render(r.talk.prompt));
      BeginRoundKeepsShape(r.(talk := Publish(r.talk)), e);
    }
  }

  lemma GreetedKeepsShape(s: State, e: StartEnv)
    requires Shape(s) && !Busy(s.phase)
    ensures var t := Opening(s.talk, e);
      && Seeded(t) && t.session != [] && Closed(t.session) && t.imageCount == s.talk.imageCount
    ensures var t := Greeted(s.talk, e);
      && Seeded(t) && t.session != [] && Closed(t.session) && t.imageCount == s.talk.imageCount
  {
    ClosedWithUsers(Opening(s.talk, e).session, [User(e.input, e.images)] + Users(e.notes));
  }

  lemma StartKeepsShape(s: State, e: StartEnv)
    requires Shape(s)
    ensures Shape(StartTurn(s, e))
  {
    if !Busy(s.phase) {
      GreetedKeepsShape(s, e);
      if ImagesResolve(s.talk.imageCount, e.images) {
        var u := s.(round := 0, talk := Greeted(s.talk, e));
        if u.stage.job {
          EnvDriveKeepsShape(u.(phase := Streaming, stage := u.stage.(awaiting := true)), e.job, e.now, e.begin);
        } else {
          BeginRoundKeepsShape(u, e.begin);
        }
      }
    }
  }

  lemma {:induction false} DeltasResolve(b: Buffers, ds: seq<Delta>, next: nat)
    requires ImagesResolve(next, b.images)
    ensures ImagesResolve(next + Pictures(ds), OnDeltas(b, ds, next).images)
    decreases |ds|
  {
    if ds != [] {
      DeltasResolve(b, ds[..|ds| - 1], next);
    }
  }

  lemma FinishRoundKeepsShape(s: State, status: bool)
    requires Shape(s) && s.streamOpen
    ensures Shape(FinishRound(s, status))
  {
    if status && !RoundIsVoid(s.buf) {
      var m := RoundMessage(s.buf);
      if s.buf.calls == [] {
        PlainMessageKeepsClosed(s.talk.session, m[0]);
      } else {
        var ms := s.talk.session + m;
        assert ms[..|s.talk.session|] == s.talk.session && ms[|s.talk.session| + 1..] == [];
      }
    }
  }

  lemma StreamStepKeepsShape(s: State, e: StepEnv)
    requires Shape(s) && s.streamOpen
    ensures Shape(StreamStep(s, e))
  {
    DeltasResolve(s.buf, e.deltas, s.talk.imageCount);
    var d := Received(s, e.deltas, e.now);
    assert Shape(d);
    FinishRoundKeepsShape(d, e.status);
  }

  lemma ToolsDoneKeepsShape(s: State, e: StepEnv)
    requires Shape(s) && s.phase == RunningTool && s.tools.index == |s.buf.calls|
    ensures Shape(ToolsDone(s, e))
  {
    FullGroupCloses(s.talk.session, s.buf.calls);
    var c := s.(buf := s.buf.(calls := []), tools := s.tools.(index := 0));
    if s.tools.images == [] {
      BeginRoundKeepsShape(c, e.begin);
    } else if e.fanOut {
      var fan := [User(e.fanText, ImageIds(s.tools.images))];
      ClosedWithUsers(s.talk.session, fan);
      BeginRoundKeepsShape(c.(talk := Say(s.talk, fan)), e.begin);
    }
  }

  lemma FinishCallKeepsShape(s: State, output: string, picture: bool)
    requires Shape(s) && s.phase == RunningTool && s.tools.index < |s.buf.calls|
    ensures Shape(FinishCall(s, output, picture))
  {
    var c := s.buf.calls[s.tools.index];
    ResultsExtendGroup(s.talk.session, s.buf.calls, s.tools.index, [Tool(c.id, c.name, output)]);
    var image := ToolImage(s.talk.imageCount, c.name);
    assert ImageIds(s.tools.images + [image]) == ImageIds(s.tools.images) + [image.image];
  }

  lemma StepKeepsShape(s: State, e: StepEnv)
    requires Shape(s)
    ensures Shape(StepTurn(s, e))
  {
    if s.stage.awaiting {
      EnvDriveKeepsShape(s, e.job, e.now, e.begin);
    } else if s.phase == RunningTool {
      if s.tools.index >= |s.buf.calls| {
        ToolsDoneKeepsShape(s, e);
      } else if !e.toolRuns {
        FinishCallKeepsShape(s, e.output, e.picture);
      }
    } else if s.streamOpen {
      StreamStepKeepsShape(s, e);
    }
  }

  // The cancel that interrupts a tool phase answers every call that is left.
  lemma CancelKeepsShape(s: State)
    requires Shape(s)
    ensures Shape(CancelTurn(s))
  {
    if s.phase == RunningTool {
      var replies := CancelReplies(s.buf.calls[s.tools.index..]);
      ResultsExtendGroup(s.talk.session, s.buf.calls, s.tools.index, replies);
      FullGroupCloses(s.talk.session + replies, s.buf.calls);
    }
  }

  // A new model's vision moves no group, open or closed.
  lemma ChangeModelKeepsShape(s: State, model: string, vision: int)
    requires Shape(s)
    ensures Shape(ChangeModel(s, model, vision))
  {
    var ms, prompt := s.talk.session, Render(ChangeModel(s, model, vision).talk.prompt);
    if ms != [] && s.phase == RunningTool {
      SetSystemKeepsOpen(ms, prompt, s.buf.calls, s.tools.index);
    } else if ms != [] {
      SetSystemKeepsClosed(ms, prompt);
    }
  }

  lemma ApplyKeepsShape(s: State, ev: Event)
    requires Shape(s)
    ensures Shape(Apply(s, ev))
  {
    match ev
    case Start(e) => StartKeepsShape(s, e);
    case Step(e) => StepKeepsShape(s, e);
    case Cancel => CancelKeepsShape(s);
    case SetModel(m, v) => ChangeModelKeepsShape(s, m, v);
    case AttachImage(ok) =>
  }

  lemma {:induction false} RunKeepsShape(s: State, evs: seq<Event>)
    requires Shape(s)
    ensures Shape(Run(s, evs))
    decreases |evs|
  {
    if evs != [] {
      RunKeepsShape(s, evs[..|evs| - 1]);
      ApplyKeepsShape(Run(s, evs[..|evs| - 1]), evs[|evs| - 1]);
    }
  }

  // Over every run, groups are well formed in the transcript and in every
  // request the provider ever accepted.
  lemma ReachableShape(s: State)
    requires Reachable(s)
    ensures Shape(s)
  {
    var model, prompt, job, deadline, evs :| s == Run(Init(model, prompt, job, deadline), evs);
    RunKeepsShape(Init(model, prompt, job, deadline), evs);
  }

  // The wire's own check on any request of any run: each call of each
  // tool-calling message is answered in place, by its own id.
  lemma EverySentCallIsAnswered(s: State, sent: seq<Request>, r: nat)
    requires Reachable(s) && sent == s.past.sent && r < |sent|
    ensures CallsAnswered(Transcript(sent[r]))
  {
    ReachableShape(s);
    var t := Transcript(sent[r]);
    forall i, k | 0 <= i < |t| && t[i].Assistant? && 0 <= k < |t[i].calls|
      ensures Answered(t, i, k)
    {
      ClosedMeansAnswered(t, i, k);
    }
  }

  predicate Answered(ms: seq<Message>, i: nat, k: nat)
    requires i < |ms| && ms[i].Assistant? && k < |ms[i].calls|
  {
    i + 1 + k < |ms| && ms[i + 1 + k].Tool? && ms[i + 1 + k].id == ms[i].calls[k].id
  }

  predicate CallsAnswered(ms: seq<Message>) {
    forall i, k :: 0 <= i < |ms| && ms[i].Assistant? && 0 <= k < |ms[i].calls| ==> Answered(ms, i, k)
  }
}
