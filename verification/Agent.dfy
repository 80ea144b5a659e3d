// The agent object of src/agent.c: fields that every step updates in place. Each
// method is proved against its transition in AgentMachine, whose whole-run properties
// are proved in AgentGroups (every tool call answered), AgentPrefix and AgentRequests
// (requests a prefix cache can reuse), AgentLedger (the usage totals), AgentTurn (a
// turn ends) and AgentDeadline (when the event loop must step it). What the provider,
// the tools and the store answer are arguments.
module AgentObject {
  import opened Common
  import opened Session
  import opened Prompt
  import opened AgentMachine
  import opened AgentGroups
  import opened AgentTurn

  // The world a blocking turn pumps against: what each step meets, and how many
  // more steps a handle opened at a step may keep pending.
  datatype World = World(start: StartEnv, feed: nat -> StepEnv, patience: nat -> nat)

  // A handle that has used up its patience finishes.
  function Settled(e: StepEnv): StepEnv {
    e.(job := if e.job.Live? then Gone else e.job, streamEnds := true, toolRuns := false)
  }

  class Agent {
    var phase: Phase
    var round: nat
    var streamOpen: bool
    var lastActivity: real
    var talk: Talk
    var buf: Buffers
    var tools: ToolPhase
    var stage: Stage
    var latches: Latches
    var meter: Meter
    ghost var past: Past

    ghost function View(): State
      reads this
    {
      State(phase, round, streamOpen, lastActivity, talk, buf, tools, stage, latches, meter, past)
    }

    constructor (model: string, prompt: Segments, job: bool, deadline: real)
      ensures View() == Init(model, prompt, job, deadline)
    {
      phase, round, streamOpen, lastActivity := Idle, 0, false, 0.0;
      talk := Talk(model, true, prompt, [], 0);
      buf := EMPTY;
      tools := ToolPhase(0, false, []);
      stage := Stage(job, deadline, false);
      latches := Latches(Free, Free);
      meter := Meter(NO_USAGE, false, NO_TOTALS);
      past := Past(0, [], [], []);
    }

    // ensure_session.
    method OpenSession()
      modifies this`talk
      ensures talk == EnsureSession(old(talk))
    {
      if talk.session == [] {
        talk := talk.(session := [System(Render(talk.prompt))]);
      }
    }

    // apply_vision_clause.
    method ApplyVisionClause(vision: int)
      modifies this`talk
      ensures talk == ApplyVision(old(talk), vision)
    {
      if !talk.clausePending {
        return;
      }
      var want := vision == 1;
      if talk.prompt.vision != want {
        talk := talk.(prompt := talk.prompt.(vision := want));
        if talk.session != [] {
          talk := talk.(session := Session.SetSystem(talk.session, Render(talk.prompt)));
        }
      }
    }

    // The loop of begin_round that builds the request's messages and learns
    // whether any of them carries an echoed field.
    method BuildMessages(mode: Echo, sig: Echo) returns (wire: seq<WireMessage>, echoed: bool, sigEchoed: bool)
      ensures wire == Compose(talk.session, mode, sig)
      ensures echoed <==> Carries(ReasoningField, wire)
      ensures sigEchoed <==> Carries(SignatureField, wire)
    {
      wire, echoed, sigEchoed := [], false, false;
      for i := 0 to |talk.session|
        invariant wire == Compose(talk.session, mode, sig)[..i]
        invariant echoed <==> Carries(ReasoningField, wire)
        invariant sigEchoed <==> Carries(SignatureField, wire)
      {
        var m := talk.session[i];
        var reasoning, details := None, None;
        if m.Assistant? {
          var carriesCalls := m.calls != [];
          if carriesCalls && (mode == EchoTools || mode == EchoAll) {
            reasoning := Some(m.reasoning);
          } else if mode == EchoAll && m.reasoning != "" {
            reasoning := Some(m.reasoning);
          }
          if m.details != "" {
            if carriesCalls && sig != EchoOff {
              details := Some(m.details);
            } else if sig == EchoAll {
              details := Some(m.details);
            }
          }
        }
        ghost var before, all := wire, Compose(talk.session, mode, sig);
        assert all[i] == WireMessage(m, reasoning, details) && all[..i + 1] == all[..i] + [all[i]];
        wire := wire + [WireMessage(m, reasoning, details)];
        CarriesOneMore(ReasoningField, before, wire[i]);
        CarriesOneMore(SignatureField, before, wire[i]);
        echoed := echoed || reasoning.Some?;
        sigEchoed := sigEchoed || details.Some?;
      }
    }

    // round_reset.
    method RoundReset()
      modifies this`buf, this`tools
      ensures buf == EMPTY && tools == ToolPhase(0, old(tools.execLive), [])
    {
      buf := EMPTY;
      tools := tools.(index := 0, images := []);
    }

    // append_user_reminders and append_mention_note: one synthetic user message each.
    method AppendNotes(notes: seq<string>)
      modifies this`talk
      ensures talk == Say(old(talk), Users(notes))
    {
      ghost var t := talk;
      for i := 0 to |notes|
        invariant talk == Say(t, Users(notes)[..i])
      {
        talk := talk.(session := talk.session + [User(notes[i], [])]);
      }
      assert Users(notes)[..|notes|] == Users(notes);
    }

    // begin_round once chat_begin has accepted the request.
    method StreamOpened(wire: seq<WireMessage>, mode: Echo, sig: Echo, echoed: bool, sigEchoed: bool, now: real)
      modifies this`streamOpen, this`round, this`latches, this`lastActivity, this`phase, this`past
      ensures streamOpen && round == old(round) + 1 && lastActivity == now && phase == Streaming
      ensures latches.reasoning == if echoed && old(latches.reasoning) == Free then Frozen(mode) else old(latches.reasoning)
      ensures latches.signature == if sigEchoed && old(latches.signature) == Free then Frozen(sig) else old(latches.signature)
      ensures past == old(past).(sent := old(past).sent + [Request(talk.model, old(past).epoch, wire)],
                                 log := old(past).log + [RoundLog([], Unfinished)])
    {
      streamOpen := true;
      past := past.(sent := past.sent + [Request(talk.model, past.epoch, wire)],
                    log := past.log + [RoundLog([], Unfinished)]);
      round := round + 1;
      if echoed && latches.reasoning == Free {
        latches := latches.(reasoning := Frozen(mode));
      }
      if sigEchoed && latches.signature == Free {
        latches := latches.(signature := Frozen(sig));
      }
      lastActivity := now;
      phase := Streaming;
    }

    // begin_round before it composes.
    method PrepareRound(e: RoundEnv)
      modifies this`talk, this`buf, this`tools, this`past
      ensures View() == Prepare(old(View()), e)
    {
      talk := talk.(clausePending := false);
      AppendNotes(if e.reminder.Some? then [e.reminder.value] else []);
      RoundReset();
      past := Numbered(past, talk.session, e);
      assert Users(if e.reminder.Some? then [e.reminder.value] else []) == Reminder(e.reminder);
    }

    // begin_round; true for its 0.
    method BeginRound(e: RoundEnv) returns (ok: bool)
      requires talk.session != []
      modifies this
      ensures View() == AgentMachine.BeginRound(old(View()), e)
      ensures ok <==> phase != Failed
    {
      if round >= e.cap {
        phase := Failed;
        return false;
      }
      PrepareRound(e);
      hide AgentMachine.Prepare;
      if !e.memory {
        phase := Failed;
        return false;
      }
      var mode := if latches.reasoning.Frozen? then latches.reasoning.mode else e.echoKey;
      var sig := if latches.signature.Frozen? then latches.signature.mode else e.signatureKey;
      var wire, echoed, sigEchoed := BuildMessages(mode, sig);
      if !e.opens {
        phase := Failed;
        return false;
      }
      StreamOpened(wire, mode, sig, echoed, sigEchoed, e.now);
      return true;
    }

    // round_on_delta and round_on_usage: one callback of a chat_step.
    method OnCallback(d: Delta, now: real)
      modifies this`buf, this`talk, this`lastActivity, this`past
      ensures View() == Received(old(View()), [d], now)
    {
      ReceivedOne(View(), d, now);
      past := past.(log := Streamed(past.log, [d]));
      match d {
        case Report(u) =>
          buf := buf.(usage := u, usageSeen := true);
        case Content(c) =>
          buf := buf.(text := buf.text + c);
        case Trace(c) =>
          buf := buf.(reasoning := buf.reasoning + c);
        case Details(a) =>
          if a != "" {
            buf := buf.(details := a);
          }
        case Picture(attached) =>
          if attached {
            buf := buf.(images := buf.images + [talk.imageCount]);
            talk := talk.(imageCount := talk.imageCount + 1);
          }
        case Calls(list) =>
          buf := buf.(calls := list);
      }
      if !d.Report? {
        lastActivity := now;
      }
    }

    // The callbacks of one chat_step, in order.
    method OnStream(ds: seq<Delta>, now: real)
      modifies this`buf, this`talk, this`lastActivity, this`past
      ensures View() == Received(old(View()), ds, now)
    {
      ghost var s := View();
      ReceivedNothing(s, now);
      for i := 0 to |ds|
        invariant View() == Received(s, ds[..i], now)
      {
        ReceivedOneMore(s, ds, i, now);
        OnCallback(ds[i], now);
      }
      assert ds[..|ds|] == ds;
    }

    // session_account_round.
    method SessionAccountRound()
      modifies this`meter
      ensures meter == old(meter).(totals :=
        if buf.usageSeen then Account(old(meter.totals), buf.usage) else old(meter.totals))
    {
      if !buf.usageSeen {
        return;
      }
      var u, t := buf.usage, meter.totals;
      if u.prompt >= 0 {
        t := t.(input := t.input + u.prompt, inputSeen := true);
      }
      if u.completion >= 0 {
        t := t.(output := t.output + u.completion, outputSeen := true);
      }
      if u.cached >= 0 {
        t := t.(read := t.read + u.cached, readSeen := true);
        if u.prompt >= 0 {
          t := t.(base := t.base + u.prompt);
        }
      }
      if u.written >= 0 {
        t := t.(written := t.written + u.written, writtenSeen := true);
      }
      meter := meter.(totals := t.(rounds := t.rounds + 1));
    }

    // finish_round; the stream has already been closed by the step.
    method FinishRound(status: bool) returns (ok: bool)
      modifies this
      ensures View() == AgentMachine.FinishRound(old(View()), status)
      ensures ok <==> phase != Failed
    {
      streamOpen := false;
      if !status {
        past := past.(log := Ended(past.log, Broken));
        phase := Failed;
        return false;
      }
      if buf.calls == [] && buf.images == [] && buf.text == "" {
        past := past.(log := Ended(past.log, Void));
        phase := Failed;
        return false;
      }
      past := past.(log := Ended(past.log, Completed));
      if buf.usageSeen {
        meter := meter.(last := buf.usage, hasUsage := meter.hasUsage || buf.usage.prompt >= 0);
      }
      SessionAccountRound();
      var details := if |buf.details| > 1 then buf.details else "";
      if buf.calls == [] {
        // Not void, so there is text or an image: the source's last branch, a
        // round with a trace alone, is never reached.
        talk := talk.(session := talk.session + [Assistant(buf.text, [], buf.reasoning, details, buf.images)]);
        phase := Done;
        return true;
      }
      talk := talk.(session := talk.session + [Assistant("", buf.calls, buf.reasoning, details, buf.images)]);
      phase := RunningTool;
      return true;
    }

    // finish_tool_call and next_tool.
    method FinishToolCall(output: string, picture: bool)
      requires tools.index < |buf.calls|
      modifies this`talk, this`tools
      ensures View() == FinishCall(old(View()), output, picture)
    {
      var c := buf.calls[tools.index];
      if picture {
        tools := tools.(images := tools.images + [ToolImage(talk.imageCount, c.name)]);
        talk := talk.(imageCount := talk.imageCount + 1);
      }
      talk := talk.(session := talk.session + [Tool(c.id, c.name, output)]);
      tools := tools.(execLive := false, index := tools.index + 1);
    }

    // tool_step.
    method StepTool(e: StepEnv) returns (ok: bool)
      requires Shape(View()) && phase == RunningTool
      modifies this
      ensures View() == ToolStep(old(View()), e)
      ensures ok <==> phase != Failed
    {
      assert talk.session != [];
      if tools.index < |buf.calls| {
        if e.toolRuns {
          tools := tools.(execLive := true);
          return true;
        }
        FinishToolCall(e.output, e.picture);
        return true;
      }
      hide AgentMachine.BeginRound, Shape;
      buf := buf.(calls := []);
      tools := tools.(index := 0);
      if tools.images != [] {
        if !e.fanOut {
          phase := Failed;
          return false;
        }
        var ids := FanOutIds();
        talk := talk.(session := talk.session + [User(e.fanText, ids)]);
      }
      ok := BeginRound(e.begin);
    }

    // The ids of the round's tool images, in order.
    method FanOutIds() returns (ids: seq<nat>)
      ensures ids == ImageIds(tools.images)
    {
      ids := [];
      for i := 0 to |tools.images|
        invariant ids == ImageIds(tools.images)[..i]
      {
        ids := ids + [tools.images[i].image];
      }
      assert ids == ImageIds(tools.images);
    }

    // env_stage_step; true when the stage has resolved.
    method EnvStageStep(job: JobView, now: real) returns (resolved: bool)
      modifies this`stage, this`talk
      ensures resolved <==> EnvResolves(old(stage), job, now)
      ensures View() == if resolved then EnvResolved(old(View()), job) else old(View())
    {
      if stage.job {
        if job.Live? {
          if now < stage.deadline {
            return false;
          }
        } else if job.Exited? && job.section != "" {
          talk := talk.(prompt := ApplyGit(talk.prompt, job.section));
        }
      }
      stage := stage.(job := false, awaiting := false);
      return true;
    }

    // env_finish: the one safe moment to swap the prompt into the session.
    method FinishEnv(e: RoundEnv) returns (ok: bool)
      requires talk.session != []
      modifies this
      ensures View() == EnvFinish(old(View()), e)
      ensures ok <==> phase != Failed
    {
      talk := talk.(session := Session.SetSystem(talk.session, Render(talk.prompt)));
      ok := BeginRound(e);
    }

    // The stage driven one notch, and the round it opens when it resolves.
    method DriveEnv(job: JobView, now: real, begin: RoundEnv) returns (ok: bool)
      requires talk.session != [] && stage.awaiting && phase == Streaming
      modifies this
      ensures View() == EnvDrive(old(View()), job, now, begin)
      ensures ok <==> phase != Failed
    {
      var resolved := EnvStageStep(job, now);
      if resolved {
        ok := FinishEnv(begin);
      } else {
        ok := true;
      }
    }

    // nm_agent_start up to the user's message; false when an image id does not resolve.
    method TakeInput(e: StartEnv) returns (ok: bool)
      modifies this`phase, this`round, this`talk
      ensures ok <==> ImagesResolve(old(talk.imageCount), e.images)
      ensures talk == if ok then Greeted(old(talk), e) else Opening(old(talk), e)
      ensures if ok then round == 0 && phase == old(phase) else round == old(round) && phase == Failed
    {
      OpenSession();
      ApplyVisionClause(e.vision);
      ok := AllResolve(e.images, talk.imageCount);
      if !ok {
        phase := Failed;
        return;
      }
      ghost var t := talk.session;
      talk := talk.(session := talk.session + [User(e.input, e.images)]);
      round := 0;
      AppendNotes(e.notes);
      assert t + [User(e.input, e.images)] + Users(e.notes) == t + ([User(e.input, e.images)] + Users(e.notes));
    }

    // nm_agent_start; true for its 0.
    method Start(e: StartEnv) returns (ok: bool)
      requires Shape(View())
      modifies this
      ensures View() == StartTurn(old(View()), e)
      ensures Shape(View())
      ensures ok <==> !Busy(old(phase)) && phase == Streaming
    {
      StartKeepsShape(View(), e);
      if phase == Streaming || phase == RunningTool {
        return false;
      }
      ok := TakeInput(e);
      if !ok {
        return;
      }
      if stage.job {
        stage := stage.(awaiting := true);
        phase := Streaming;
        ok := DriveEnv(e.job, e.now, e.begin);
      } else {
        ok := BeginRound(e.begin);
      }
    }

    // nm_agent_step; true for its 0.
    method Step(e: StepEnv) returns (ok: bool)
      requires Shape(View())
      modifies this
      ensures View() == StepTurn(old(View()), e)
      ensures Shape(View())
      ensures ok <==> Busy(old(phase)) && phase != Failed
    {
      StepKeepsShape(View(), e);
      if stage.awaiting {
        ok := DriveEnv(e.job, e.now, e.begin);
        return;
      }
      if phase == RunningTool {
        ok := StepTool(e);
        return;
      }
      if !streamOpen {
        return false;
      }
      if BudgetSpent(lastActivity, e.timeoutMs, e.now) && !e.finishing {
        streamOpen := false;
        past := past.(log := Ended(past.log, Broken));
        phase := Failed;
        return false;
      }
      OnStream(e.deltas, e.now);
      if !e.streamEnds {
        if e.traffic {
          lastActivity := e.now;
        }
        return true;
      }
      ok := FinishRound(e.status);
    }

    // The synthetic replies of nm_agent_cancel.
    method AnswerCancelled(left: seq<ToolCall>)
      modifies this`talk
      ensures talk == Say(old(talk), CancelReplies(left))
    {
      ghost var t := talk;
      for i := 0 to |left|
        invariant talk == Say(t, CancelReplies(left)[..i])
      {
        talk := talk.(session := talk.session + [Tool(left[i].id, left[i].name, CANCELLED)]);
      }
      assert CancelReplies(left)[..|left|] == CancelReplies(left);
    }

    // nm_agent_cancel.
    method Cancel()
      requires Shape(View())
      modifies this
      ensures View() == CancelTurn(old(View()))
      ensures Shape(View())
    {
      hide AgentMachine.CancelReplies;
      CancelKeepsShape(View());
      if stage.awaiting {
        stage := stage.(job := false, awaiting := false);
        phase := Idle;
        return;
      }
      if streamOpen {
        past := past.(log := Ended(past.log, Cancelled));
        streamOpen := false;
      }
      tools := tools.(execLive := false);
      if phase == RunningTool && talk.session != [] {
        AnswerCancelled(buf.calls[tools.index..]);
      }
      RoundReset();
      round := 0;
      phase := Idle;
    }

    // nm_agent_set_model.
    method SetModel(model: string, vision: int)
      requires Shape(View())
      modifies this
      ensures View() == ChangeModel(old(View()), model, vision)
      ensures Shape(View())
    {
      if model == "" || model == talk.model {
        return;
      }
      talk := talk.(model := model, clausePending := true);
      past := past.(epoch := past.epoch + 1);
      ApplyVisionClause(vision);
    }

    // nm_agent_attach_image: the session, which owns the store, is built on demand.
    method AttachImage(accepted: bool) returns (id: Option<nat>)
      requires Shape(View())
      modifies this
      ensures View() == Attach(old(View()), accepted)
      ensures Shape(View())
      ensures id == if accepted then Some(old(talk.imageCount)) else None
    {
      OpenSession();
      if !accepted {
        return None;
      }
      id := Some(talk.imageCount);
      talk := talk.(imageCount := talk.imageCount + 1);
    }

    // One pass of the pump of nm_agent_turn.
    method Pump(met: StepEnv, left: nat, renewed: nat) returns (ok: bool, still: nat)
      requires Shape(View()) && Busy(phase)
      requires round <= MAX_CAP && met.begin.cap <= MAX_CAP
      modifies this
      ensures Shape(View()) && phase != Idle
      ensures ok <==> phase != Failed
      ensures Busy(phase) ==> round <= MAX_CAP
      ensures ok ==>
        || Below(MeasureOf(View()), MeasureOf(old(View())))
        || (MeasureOf(View()) == MeasureOf(old(View())) && still < left)
    {
      ghost var s := View();
      var live := stage.awaiting || streamOpen || tools.execLive;
      var e := if live && left == 0 then Settled(met) else met;
      var before := (round, phase, tools.index, tools.execLive);
      StepMakesProgress(s, e);
      StepSendsOne(s, e);
      ok := Step(e);
      still := if live && left > 0 && before == (round, phase, tools.index, tools.execLive) then left - 1 else renewed;
    }

    // nm_agent_turn: start, then step until the turn leaves the busy states. It
    // always gets there, because every handle finishes, and it ends in DONE or
    // ERROR.
    method Turn(w: World) returns (ok: bool)
      requires Shape(View())
      requires w.start.begin.cap <= MAX_CAP && forall k: nat :: w.feed(k).begin.cap <= MAX_CAP
      modifies this
      ensures Shape(View())
      ensures !Busy(old(phase)) ==> phase == Done || phase == Failed
      ensures Busy(old(phase)) ==> !ok && View() == old(View())
      ensures ok <==> !Busy(old(phase)) && phase == Done
    {
      ok := Start(w.start);
      if !ok {
        return;
      }
      var step: nat, left: nat := 0, w.patience(0);
      ghost var m := MeasureOf(View());
      while phase == Streaming || phase == RunningTool
        invariant Shape(View()) && phase != Idle
        invariant Busy(phase) ==> round <= MAX_CAP
        invariant m == MeasureOf(View())
        decreases m.rounds, m.phase, m.calls, m.exec, left
      {
        var still: nat;
        ok, still := Pump(w.feed(step), left, w.patience(step + 1));
        if !ok {
          return;
        }
        step, left := step + 1, still;
        m := MeasureOf(View());
      }
      ok := phase == Done;
    }
  }

  // The check of nm_session_append_user_images: every id is in the store.
  method AllResolve(images: seq<nat>, count: nat) returns (ok: bool)
    ensures ok <==> ImagesResolve(count, images)
  {
    for i := 0 to |images|
      invariant ImagesResolve(count, images[..i])
    {
      if images[i] >= count {
        return false;
      }
    }
    return true;
  }

  lemma CarriesOneMore(f: Field, wire: seq<WireMessage>, w: WireMessage)
    ensures Carries(f, wire + [w]) <==> Carries(f, wire) || Carried(f, w).Some?
  {
    var all := wire + [w];
    if i :| 0 <= i < |wire| && Carried(f, wire[i]).Some? {
      assert Carried(f, all[i]).Some?;
    }
    assert all[|wire|] == w;
  }

  lemma StreamedMore(log: seq<RoundLog>, a: seq<Delta>, b: seq<Delta>)
    ensures Streamed(Streamed(log, a), b) == Streamed(log, a + b)
    ensures Streamed(log, []) == log
  {
    if log != [] {
      var r := log[|log| - 1].deltas;
      assert r + a + b == r + (a + b) && r + [] == r;
    }
  }

  lemma ReceivedNothing(s: State, now: real)
    ensures Received(s, [], now) == s
  {
    StreamedMore(s.past.log, [], []);
  }

  // What one callback leaves.
  lemma ReceivedOne(s: State, d: Delta, now: real)
    ensures OnDeltas(s.buf, [d], s.talk.imageCount) == OnDelta(s.buf, d, s.talk.imageCount)
    ensures Pictures([d]) == if d == Picture(true) then 1 else 0
    ensures Activity([d]) <==> !d.Report?
  {
    assert [d][..0] == [] && [d][0] == d;
    assert OnDeltas(s.buf, [d][..0], s.talk.imageCount) == s.buf;
    assert Pictures([d][..0]) == 0;
  }

  lemma ReceivedOneMore(s: State, ds: seq<Delta>, i: nat, now: real)
    requires i < |ds|
    ensures Received(Received(s, ds[..i], now), [ds[i]], now) == Received(s, ds[..i + 1], now)
  {
    assert ds[..i] + [ds[i]] == ds[..i + 1];
    hide Received;
    ReceivedAndOne(s, ds[..i], ds[i], now);
  }

  lemma ReceivedAndOne(s: State, a: seq<Delta>, d: Delta, now: real)
    ensures Received(Received(s, a, now), [d], now) == Received(s, a + [d], now)
  {
    var r := Received(s, a, now);
    ActivityMore(a, d);
    hide OnDeltas, OnDelta, Pictures, Activity, Streamed;
    ReceivedOne(r, d, now);
    OneMore(s.buf, a, d, s.talk.imageCount);
    StreamedMore(s.past.log, a, [d]);
  }

  lemma ActivityMore(a: seq<Delta>, d: Delta)
    ensures Activity(a + [d]) <==> Activity(a) || !d.Report?
  {
    var b := a + [d];
    assert b[|a|] == d && forall i :: 0 <= i < |a| ==> b[i] == a[i];
  }

  // The folds over deltas, one delta further.
  lemma OneMore(b: Buffers, a: seq<Delta>, d: Delta, next: nat)
    ensures OnDeltas(b, a + [d], next) == OnDelta(OnDeltas(b, a, next), d, next + Pictures(a))
    ensures Pictures(a + [d]) == Pictures(a) + if d == Picture(true) then 1 else 0
  {
    assert (a + [d])[..|a + [d]| - 1] == a;
  }
}
