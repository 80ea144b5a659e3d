// What every step of the agent keeps about the requests it has sent: they repeat
// the transcript, their model's system prompt, and each field's frozen echo mode.
module AgentPrefix {
  import opened Session
  import opened Prompt
  import opened AgentMachine
  import opened AgentGroups

  // A request repeats the transcript up to its own length, the system prompt aside.
  predicate Repeats(wire: seq<WireMessage>, session: seq<Message>) {
    && 0 < |wire| <= |session|
    && wire[0].message.System?
    && forall k :: 1 <= k < |wire| ==> wire[k].message == session[k]
  }

  predicate Grown(session: seq<Message>, sent: seq<Request>) {
    forall i :: 0 <= i < |sent| ==> Repeats(sent[i].wire, session)
  }

  // Requests of the current model carry the session's own system prompt.
  predicate Warm(t: Talk, past: Past) {
    forall i :: 0 <= i < |past.sent| && past.sent[i].epoch == past.epoch ==>
      && !t.clausePending
      && 0 < |past.sent[i].wire| && t.session != []
      && past.sent[i].wire[0].message == t.session[0]
  }

  predicate SamePrompt(a: Request, b: Request) {
    a.epoch == b.epoch && a.wire != [] && b.wire != [] ==> a.wire[0].message == b.wire[0].message
  }

  predicate PromptFrozen(past: Past) {
    && (forall i :: 0 <= i < |past.sent| ==> past.sent[i].epoch <= past.epoch)
    && (forall i, j :: 0 <= i < j < |past.sent| ==> SamePrompt(past.sent[i], past.sent[j]))
  }

  predicate ComposedWith(f: Field, mode: Echo, wire: seq<WireMessage>) {
    forall k :: 0 <= k < |wire| ==> Carried(f, wire[k]) == EchoOn(f, mode, wire[k].message)
  }

  // Before the latch no request carries the field; from the first that does,
  // all are composed with the mode it froze.
  predicate EchoKept(f: Field, latch: Latch, sent: seq<Request>) {
    forall i, j :: 0 <= i <= j < |sent| && Carries(f, sent[i].wire) ==>
      latch.Frozen? && ComposedWith(f, latch.mode, sent[j].wire)
  }

  predicate Lengthening(sent: seq<Request>) {
    forall i, j :: 0 <= i < j < |sent| ==> |sent[i].wire| <= |sent[j].wire|
  }

  predicate History(s: State) {
    && Grown(s.talk.session, s.past.sent)
    && Lengthening(s.past.sent)
    && Warm(s.talk, s.past)
    && PromptFrozen(s.past)
    && (s.stage.job ==> s.past.sent == [])
    && EchoKept(ReasoningField, s.latches.reasoning, s.past.sent)
    && EchoKept(SignatureField, s.latches.signature, s.past.sent)
  }

  // A step that sends nothing and only appends to the transcript.
  lemma GrowthKeepsHistory(s: State, r: State)
    requires History(s)
    requires r.past.sent == s.past.sent && r.past.epoch == s.past.epoch && r.latches == s.latches
    requires s.talk.session <= r.talk.session
    requires r.talk.clausePending ==> s.talk.clausePending
    requires r.stage.job ==> s.stage.job
    ensures History(r)
  {
    assert s.talk.session != [] ==> r.talk.session[0] == s.talk.session[0];
  }

  // A step that only replaces the prompt, while no request of the model is out.
  lemma PublishKeepsHistory(s: State, t: Talk)
    requires History(s) && s.talk.session != [] && s.talk.session[0].System?
    requires t.session == Session.SetSystem(s.talk.session, Render(t.prompt))
    requires forall i :: 0 <= i < |s.past.sent| ==> s.past.sent[i].epoch != s.past.epoch
    ensures History(s.(talk := t))
  {
  }

  lemma ComposeIsComposed(f: Field, ms: seq<Message>, mode: Echo, signature: Echo)
    ensures ComposedWith(f, if f.ReasoningField? then mode else signature, Compose(ms, mode, signature))
  {
  }

  lemma {:induction false} SendKeepsEcho(f: Field, latch: Latch, key: Echo, sent: seq<Request>, r: Request)
    requires EchoKept(f, latch, sent)
    requires ComposedWith(f, ModeInForce(latch, key), r.wire)
    ensures EchoKept(f, LatchAfter(latch, key, Carries(f, r.wire)), sent + [r])
  {
    var all := sent + [r];
    forall i, j | 0 <= i <= j < |all| && Carries(f, all[i].wire)
      ensures LatchAfter(latch, key, Carries(f, r.wire)).Frozen?
      ensures ComposedWith(f, LatchAfter(latch, key, Carries(f, r.wire)).mode, all[j].wire)
    {
      if i < |sent| {
        assert all[i] == sent[i];
      }
      if j < |sent| {
        assert all[j] == sent[j];
      }
    }
  }

  lemma OpenedKeepsHistory(s: State, e: RoundEnv)
    requires History(s) && Seeded(s.talk) && s.talk.session != [] && !s.talk.clausePending && !s.stage.job
    ensures History(Opened(s, e))
  {
    var wire := WireNow(s, e);
    var r := Request(s.talk.model, s.past.epoch, wire);
    var m, g := ModeInForce(s.latches.reasoning, e.echoKey), ModeInForce(s.latches.signature, e.signatureKey);
    ComposeIsComposed(ReasoningField, s.talk.session, m, g);
    ComposeIsComposed(SignatureField, s.talk.session, m, g);
    SendKeepsEcho(ReasoningField, s.latches.reasoning, e.echoKey, s.past.sent, r);
    SendKeepsEcho(SignatureField, s.latches.signature, e.signatureKey, s.past.sent, r);
    assert Repeats(wire, s.talk.session);
  }

  lemma BeginRoundKeepsHistory(s: State, e: RoundEnv)
    requires History(s) && Seeded(s.talk) && s.talk.session != [] && !s.stage.job
    ensures History(BeginRound(s, e))
  {
    var p := Prepare(s, e);
    GrowthKeepsHistory(s, p);
    GrowthKeepsHistory(s, p.(phase := Failed));
    if s.round < e.cap && e.memory && e.opens {
      OpenedKeepsHistory(p, e);
    }
  }

  // The git stage can only be pending before the first request.
  lemma EnvDriveKeepsHistory(s: State, job: JobView, now: real, e: RoundEnv)
    requires History(s) && s.stage.job && Seeded(s.talk) && s.talk.session != []
    ensures History(EnvDrive(s, job, now, e))
  {
    if EnvResolves(s.stage, job, now) {
      var r := EnvResolved(s, job);
      GrowthKeepsHistory(s, r);
      PublishKeepsHistory(r, Publish(r.talk));
      BeginRoundKeepsHistory(r.(talk := Publish(r.talk)), e);
    }
  }

  lemma GreetedKeepsHistory(s: State, e: StartEnv)
    requires History(s) && Shape(s) && !Busy(s.phase)
    ensures History(s.(round := 0, talk := Greeted(s.talk, e)))
  {
  }

  lemma StartKeepsHistory(s: State, e: StartEnv)
    requires History(s) && Shape(s)
    ensures History(StartTurn(s, e))
  {
    if !Busy(s.phase) {
      GreetedKeepsShape(s, e);
      var u := s.(round := 0, talk := Greeted(s.talk, e));
      GreetedKeepsHistory(s, e);
      if !ImagesResolve(s.talk.imageCount, e.images) {
      } else if u.stage.job {
        EnvDriveKeepsHistory(u.(phase := Streaming, stage := u.stage.(awaiting := true)), e.job, e.now, e.begin);
      } else {
        BeginRoundKeepsHistory(u, e.begin);
      }
    }
  }

  lemma ToolStepKeepsHistory(s: State, e: StepEnv)
    requires History(s) && Shape(s) && s.phase == RunningTool
    ensures History(ToolStep(s, e))
  {
    if s.tools.index < |s.buf.calls| {
      GrowthKeepsHistory(s, ToolStep(s, e));
    } else {
      var c := s.(buf := s.buf.(calls := []), tools := s.tools.(index := 0));
      GrowthKeepsHistory(s, c);
      GrowthKeepsHistory(s, c.(phase := Failed));
      var f := c.(talk := Say(s.talk, [User(e.fanText, ImageIds(s.tools.images))]));
      GrowthKeepsHistory(s, f);
      BeginRoundKeepsHistory(c, e.begin);
      BeginRoundKeepsHistory(f, e.begin);
    }
  }

  lemma CancelKeepsHistory(s: State)
    requires History(s)
    ensures History(CancelTurn(s))
  {
    GrowthKeepsHistory(s, CancelTurn(s));
  }

  lemma StepKeepsHistory(s: State, e: StepEnv)
    requires History(s) && Shape(s)
    ensures History(StepTurn(s, e))
  {
    if s.stage.awaiting {
      EnvDriveKeepsHistory(s, e.job, e.now, e.begin);
    } else if s.phase == RunningTool {
      ToolStepKeepsHistory(s, e);
    } else if s.streamOpen {
      GrowthKeepsHistory(s, StreamStep(s, e));
    }
  }

  lemma ModelKeepsHistory(s: State, model: string, vision: int)
    requires History(s) && Shape(s)
    ensures History(ChangeModel(s, model, vision))
  {
  }

  lemma AttachKeepsHistory(s: State, accepted: bool)
    requires History(s) && Shape(s)
    ensures History(Attach(s, accepted))
  {
  }

  lemma ApplyKeepsHistory(s: State, ev: Event)
    requires History(s) && Shape(s)
    ensures History(Apply(s, ev))
  {
    hide History, Shape, StartTurn, StepTurn, CancelTurn, ChangeModel, Attach;
    match ev
    case Start(e) => StartKeepsHistory(s, e);
    case Step(e) => StepKeepsHistory(s, e);
    case Cancel => CancelKeepsHistory(s);
    case SetModel(m, v) => ModelKeepsHistory(s, m, v);
    case AttachImage(ok) => AttachKeepsHistory(s, ok);
  }

  lemma {:induction false} RunKeepsHistory(s: State, evs: seq<Event>)
    requires History(s) && Shape(s)
    ensures History(Run(s, evs))
    decreases |evs|
  {
    if evs != [] {
      RunKeepsHistory(s, evs[..|evs| - 1]);
      RunKeepsShape(s, evs[..|evs| - 1]);
      ApplyKeepsHistory(Run(s, evs[..|evs| - 1]), evs[|evs| - 1]);
    }
  }

  lemma ReachableHistory(s: State)
    requires Reachable(s)
    ensures History(s)
  {
    var model, prompt, job, deadline, evs :| s == Run(Init(model, prompt, job, deadline), evs);
    RunKeepsHistory(Init(model, prompt, job, deadline), evs);
  }
}
