// The images of the agent's requests, over every run: what ImageRuns proves holds of
// the turn machine's own transcript and attempts.
module AgentImages {
  import opened Session
  import opened ImageWindow
  import opened AgentMachine
  import opened AgentGroups
  import ImageRuns
  import Prompt

  // Every image a transcript names is attached.
  predicate Named(ms: seq<Message>, count: nat) { forall id :: id in IdsOf(ms) ==> id < count }

  // Each request shows every image an earlier one showed, and the transcript all.
  predicate Growing(attempts: seq<Attempt>, session: seq<Message>) {
    && (forall j :: 0 <= j < |attempts| ==> IdsOf(attempts[j].ms) <= IdsOf(session))
    && (forall i, j :: 0 <= i < j < |attempts| ==> IdsOf(attempts[i].ms) <= IdsOf(attempts[j].ms))
  }

  // The transcripts of the attempts that were accepted.
  function Accepts(attempts: seq<Attempt>): seq<seq<Message>> {
    if attempts == [] then []
    else
      var last := attempts[|attempts| - 1];
      Accepts(attempts[..|attempts| - 1]) + if last.end == Accepted then [last.ms] else []
  }

  function Transcripts(sent: seq<Request>): seq<seq<Message>> {
    seq(|sent|, i requires 0 <= i < |sent| => Transcript(sent[i]))
  }

  predicate Pictured(s: State) {
    && Named(s.talk.session, s.talk.imageCount)
    && Growing(s.past.attempts, s.talk.session)
    && Accepts(s.past.attempts) == Transcripts(s.past.sent)
  }

  lemma IdsOfMore(ms: seq<Message>, more: seq<Message>)
    ensures IdsOf(ms + more) == IdsOf(ms) + IdsOf(more)
  {
    var all := ms + more;
    assert forall i :: 0 <= i < |ms| ==> all[i] == ms[i];
    assert forall i :: 0 <= i < |more| ==> all[|ms| + i] == more[i];
  }

  lemma PlainIds(ms: seq<Message>)
    requires forall i :: 0 <= i < |ms| ==> Ids(ms[i]) == []
    ensures IdsOf(ms) == {}
  {
  }

  // Any step that numbers no request and shows the same images or more.
  lemma GrowthKeeps(s: State, r: State)
    requires Pictured(s) && r.past.attempts == s.past.attempts && r.past.sent == s.past.sent
    requires IdsOf(s.talk.session) <= IdsOf(r.talk.session) && Named(r.talk.session, r.talk.imageCount)
    ensures Pictured(r)
  {
    hide IdsOf, Accepts, Transcripts;
  }

  lemma PublishShowsTheSame(t: Talk)
    requires t.session != [] ==> t.session[0].System?
    ensures IdsOf(Publish(t).session) == IdsOf(t.session)
  {
    if t.session != [] {
      var after := Publish(t).session;
      assert after[1..] == t.session[1..];
      IdsOfMore([t.session[0]], t.session[1..]);
      IdsOfMore([after[0]], after[1..]);
      PlainIds([t.session[0]]);
      PlainIds([after[0]]);
      assert [t.session[0]] + t.session[1..] == t.session && [after[0]] + after[1..] == after;
    }
  }

  lemma PrepareKeeps(s: State, e: RoundEnv)
    requires Pictured(s)
    ensures var p := Prepare(s, e);
      && Named(p.talk.session, p.talk.imageCount) && Growing(p.past.attempts, p.talk.session)
      && Accepts(p.past.attempts) == Transcripts(s.past.sent) + if OutcomeOf(e) == Accepted then [p.talk.session] else []
  {
    var p := Prepare(s, e);
    var a := s.past.attempts;
    PlainIds(Reminder(e.reminder));
    IdsOfMore(s.talk.session, Reminder(e.reminder));
    assert p.past.attempts[..|a|] == a;
    hide IdsOf, Transcripts;
  }

  lemma TranscriptOfComposed(s: State, e: RoundEnv)
    ensures Transcript(Request(s.talk.model, s.past.epoch, WireNow(s, e))) == s.talk.session
  {
  }

  lemma BeginRoundKeeps(s: State, e: RoundEnv)
    requires Pictured(s)
    ensures Pictured(BeginRound(s, e))
  {
    if s.round < e.cap {
      PrepareKeeps(s, e);
      var p := Prepare(s, e);
      TranscriptOfComposed(p, e);
      hide Named, Growing, Accepts, Transcript, Prepare, WireNow, Carries;
      if e.memory && e.opens {
        var r := Opened(p, e);
        assert r.past.sent == p.past.sent + [Request(p.talk.model, p.past.epoch, WireNow(p, e))];
        TranscriptsMore(p.past.sent, Request(p.talk.model, p.past.epoch, WireNow(p, e)));
      }
    }
  }

  lemma TranscriptsMore(sent: seq<Request>, r: Request)
    ensures Transcripts(sent + [r]) == Transcripts(sent) + [Transcript(r)]
  {
  }

  // Messages that name only attached images are appended.
  lemma SayKeeps(s: State, r: State, more: seq<Message>)
    requires Pictured(s) && r.past.attempts == s.past.attempts && r.past.sent == s.past.sent
    requires r.talk.session == s.talk.session + more && s.talk.imageCount <= r.talk.imageCount
    requires Named(more, r.talk.imageCount)
    ensures Pictured(r)
  {
    IdsOfMore(s.talk.session, more);
    hide IdsOf, Accepts, Transcripts, Growing;
    assert Named(r.talk.session, r.talk.imageCount);
    GrowthKeeps(s, r);
  }

  lemma OneMessage(m: Message, count: nat)
    requires ImagesResolve(count, Ids(m))
    ensures Named([m], count)
  {
  }

  lemma PlainNamed(ms: seq<Message>, count: nat)
    requires forall i :: 0 <= i < |ms| ==> Ids(ms[i]) == []
    ensures Named(ms, count)
  {
    PlainIds(ms);
  }

  lemma OpeningShowsTheSame(t: Talk, e: StartEnv)
    requires Seeded(t)
    ensures IdsOf(Opening(t, e).session) == IdsOf(t.session) && Opening(t, e).imageCount == t.imageCount
  {
    var u := EnsureSession(t);
    if t.session == [] {
      PlainIds(u.session);
      PlainIds(t.session);
    }
    PublishShowsTheSame(u.(prompt := Prompt.SetVision(u.prompt, e.vision)));
    hide IdsOf;
  }

  lemma GreetedKeeps(s: State, e: StartEnv)
    requires Pictured(s) && Seeded(s.talk) && ImagesResolve(s.talk.imageCount, e.images)
    ensures Pictured(s.(talk := Greeted(s.talk, e)))
  {
    OpeningShowsTheSame(s.talk, e);
    var u := s.(talk := Opening(s.talk, e));
    var user, notes := User(e.input, e.images), Users(e.notes);
    OneMessage(user, s.talk.imageCount);
    PlainNamed(notes, s.talk.imageCount);
    assert Opening(s.talk, e).session + ([user] + notes) == Opening(s.talk, e).session + [user] + notes;
    hide Named, IdsOf, Accepts, Transcripts, Growing, Users, Opening;
    assert Named(u.talk.session, u.talk.imageCount) by {
      SameNamed(s.talk.session, u.talk.session, s.talk.imageCount);
    }
    GrowthKeeps(s, u);
    var v := u.(talk := Say(u.talk, [user]));
    SayKeeps(u, v, [user]);
    SayKeeps(v, v.(talk := Say(v.talk, notes)), notes);
  }

  lemma SameNamed(a: seq<Message>, b: seq<Message>, count: nat)
    requires Named(a, count) && IdsOf(a) == IdsOf(b)
    ensures Named(b, count)
  {
  }

  lemma PublishKeeps(s: State, t: Talk)
    requires Pictured(s) && t.session == s.talk.session && t.imageCount == s.talk.imageCount
    requires t.session != [] ==> t.session[0].System?
    ensures Pictured(s.(talk := Publish(t)))
  {
    PublishShowsTheSame(t);
    SameNamed(t.session, Publish(t).session, t.imageCount);
    hide Named, IdsOf, Accepts, Transcripts, Growing, Publish;
    GrowthKeeps(s, s.(talk := Publish(t)));
  }

  lemma EnvDriveKeeps(s: State, job: JobView, now: real, e: RoundEnv)
    requires Pictured(s) && Seeded(s.talk)
    ensures Pictured(EnvDrive(s, job, now, e))
  {
    if EnvResolves(s.stage, job, now) {
      var r := EnvResolved(s, job);
      PublishKeeps(s, r.talk);
      hide Named, IdsOf, Accepts, Transcripts, Growing, Publish;
      GrowthKeeps(s.(talk := Publish(r.talk)), r.(talk := Publish(r.talk)));
      BeginRoundKeeps(r.(talk := Publish(r.talk)), e);
    }
  }

  // A field that no image depends on.
  lemma SameTalkKeeps(s: State, r: State)
    requires Pictured(s) && r.past.attempts == s.past.attempts && r.past.sent == s.past.sent
    requires r.talk.session == s.talk.session && s.talk.imageCount <= r.talk.imageCount
    ensures Pictured(r)
  {
    hide IdsOf, Accepts, Transcripts, Growing;
  }

  lemma StartKeeps(s: State, e: StartEnv)
    requires Pictured(s) && Seeded(s.talk)
    ensures Pictured(StartTurn(s, e))
  {
    if !Busy(s.phase) {
      OpeningShowsTheSame(s.talk, e);
      if ImagesResolve(s.talk.imageCount, e.images) {
        GreetedKeeps(s, e);
        GreetedIsSeeded(s.talk, e);
        hide Pictured, Greeted, Opening, Seeded;
        var g := s.(talk := Greeted(s.talk, e));
        var u := g.(round := 0);
        SameTalkKeeps(g, u);
        if u.stage.job {
          var w := u.(phase := Streaming, stage := u.stage.(awaiting := true));
          SameTalkKeeps(u, w);
          EnvDriveKeeps(w, e.job, e.now, e.begin);
        } else {
          BeginRoundKeeps(u, e.begin);
        }
      } else {
        SameNamed(s.talk.session, Opening(s.talk, e).session, s.talk.imageCount);
        hide Named, IdsOf, Accepts, Transcripts, Growing, Opening;
        GrowthKeeps(s, StartTurn(s, e));
      }
    }
  }

  lemma GreetedIsSeeded(t: Talk, e: StartEnv)
    requires Seeded(t)
    ensures Seeded(Greeted(t, e))
  {
  }

  lemma FinishRoundKeeps(s: State, status: bool)
    requires Pictured(s) && ImagesResolve(s.talk.imageCount, s.buf.images)
    ensures Pictured(FinishRound(s, status))
  {
    var r := FinishRound(s, status);
    if status && !RoundIsVoid(s.buf) {
      OneMessage(RoundMessage(s.buf)[0], s.talk.imageCount);
      hide Pictured, Named;
      SayKeeps(s, r, RoundMessage(s.buf));
    } else {
      hide Pictured;
      SameTalkKeeps(s, r);
    }
  }

  lemma StreamStepKeeps(s: State, e: StepEnv)
    requires Pictured(s) && Resolved(s)
    ensures Pictured(StreamStep(s, e))
  {
    DeltasResolve(s.buf, e.deltas, s.talk.imageCount);
    var d := Received(s, e.deltas, e.now);
    hide Pictured, FinishRound;
    SameTalkKeeps(s, Fail(s, Broken));
    SameTalkKeeps(s, d);
    FinishRoundKeeps(d, e.status);
    SameTalkKeeps(d, d.(lastActivity := e.now));
  }

  lemma ToolStepKeeps(s: State, e: StepEnv)
    requires Pictured(s) && Resolved(s)
    ensures Pictured(ToolStep(s, e))
  {
    var r := ToolStep(s, e);
    if s.tools.index >= |s.buf.calls| {
      var c := s.(buf := s.buf.(calls := []), tools := s.tools.(index := 0));
      var fan := [User(e.fanText, ImageIds(s.tools.images))];
      OneMessage(fan[0], s.talk.imageCount);
      hide Pictured, Named, BeginRound;
      SameTalkKeeps(s, c);
      SameTalkKeeps(s, c.(phase := Failed));
      BeginRoundKeeps(c, e.begin);
      SayKeeps(c, c.(talk := Say(s.talk, fan)), fan);
      BeginRoundKeeps(c.(talk := Say(s.talk, fan)), e.begin);
    } else if e.toolRuns {
      hide Pictured;
      SameTalkKeeps(s, r);
    } else {
      var call := s.buf.calls[s.tools.index];
      var reply := [Tool(call.id, call.name, e.output)];
      PlainNamed(reply, r.talk.imageCount);
      hide Pictured, Named;
      SayKeeps(s, r, reply);
    }
  }

  lemma StepKeeps(s: State, e: StepEnv)
    requires Pictured(s) && Shape(s)
    ensures Pictured(StepTurn(s, e))
  {
    hide Pictured, Groups, SentClosed, EnvDrive, ToolStep, StreamStep;
    if s.stage.awaiting {
      EnvDriveKeeps(s, e.job, e.now, e.begin);
    } else if s.phase == RunningTool {
      ToolStepKeeps(s, e);
    } else if s.streamOpen {
      StreamStepKeeps(s, e);
    }
  }

  lemma CancelKeeps(s: State)
    requires Pictured(s)
    ensures Pictured(CancelTurn(s))
  {
    var r := CancelTurn(s);
    if s.phase == RunningTool && !s.stage.awaiting && s.talk.session != [] && s.tools.index <= |s.buf.calls| {
      var replies := CancelReplies(s.buf.calls[s.tools.index..]);
      PlainNamed(replies, s.talk.imageCount);
      hide Pictured, Named;
      SayKeeps(s, r, replies);
    } else {
      hide Pictured;
      SameTalkKeeps(s, r);
    }
  }

  lemma ModelKeeps(s: State, model: string, vision: int)
    requires Pictured(s) && Seeded(s.talk)
    ensures Pictured(ChangeModel(s, model, vision))
  {
    var t := s.talk.(model := model, clausePending := true);
    var u := t.(prompt := Prompt.SetVision(t.prompt, vision));
    PublishKeeps(s, u);
    hide Pictured, Publish;
    var r := ChangeModel(s, model, vision);
    SameTalkKeeps(s, s.(talk := t, past := s.past.(epoch := s.past.epoch + 1)));
    SameTalkKeeps(s.(talk := Publish(u)), s.(talk := Publish(u), past := s.past.(epoch := s.past.epoch + 1)));
  }

  lemma AttachKeeps(s: State, accepted: bool)
    requires Pictured(s)
    ensures Pictured(Attach(s, accepted))
  {
    var t := EnsureSession(s.talk);
    var u := s.(talk := t);
    if s.talk.session == [] {
      PlainNamed(t.session, t.imageCount);
      assert s.talk.session + t.session == t.session;
      SayKeeps(s, u, t.session);
    }
    hide Pictured, Named;
    SameTalkKeeps(u, Attach(s, accepted));
  }

  lemma ApplyKeeps(s: State, ev: Event)
    requires Pictured(s) && Shape(s)
    ensures Pictured(Apply(s, ev))
  {
    assert Seeded(s.talk);
    hide Pictured, Shape, Seeded, StartTurn, StepTurn, CancelTurn, ChangeModel, Attach;
    match ev
    case Start(e) => StartKeeps(s, e);
    case Step(e) => StepKeeps(s, e);
    case Cancel => CancelKeeps(s);
    case SetModel(m, v) => ModelKeeps(s, m, v);
    case AttachImage(ok) => AttachKeeps(s, ok);
  }

  lemma {:induction false} RunKeeps(s: State, evs: seq<Event>)
    requires Pictured(s) && Shape(s)
    ensures Pictured(Run(s, evs))
    decreases |evs|
  {
    if evs != [] {
      RunKeeps(s, evs[..|evs| - 1]);
      RunKeepsShape(s, evs[..|evs| - 1]);
      hide Pictured, Shape, Apply;
      ApplyKeeps(Run(s, evs[..|evs| - 1]), evs[|evs| - 1]);
    }
  }

  // After every run the transcript and the requests name attached images only, show
  // every image once shown, and were accepted as recorded.
  lemma ReachablePictured(s: State)
    requires Reachable(s)
    ensures Pictured(s)
  {
    var model, prompt, job, deadline, evs :| s == Run(Init(model, prompt, job, deadline), evs);
    assert Shape(Init(model, prompt, job, deadline));
    RunKeeps(Init(model, prompt, job, deadline), evs);
  }
}
