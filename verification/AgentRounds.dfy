// What the transcript records of each round: its assistant message is what the
// stream delivered, chunk by chunk in arrival order.
module AgentRounds {
  import opened Common
  import opened Session
  import opened AgentMachine
  import opened AgentGroups
  import Prompt

  // ---- What a stream delivered. ----

  function TextIn(d: Delta): string { if d.Content? then d.chunk else "" }

  function TextOf(ds: seq<Delta>): string {
    if ds == [] then "" else TextIn(ds[0]) + TextOf(ds[1..])
  }

  function TraceIn(d: Delta): string { if d.Trace? then d.chunk else "" }

  function TraceOf(ds: seq<Delta>): string {
    if ds == [] then "" else TraceIn(ds[0]) + TraceOf(ds[1..])
  }

  // The last details array; an empty one is none.
  function DetailsOf(ds: seq<Delta>): string {
    if ds == [] then ""
    else if DetailsOf(ds[1..]) != "" then DetailsOf(ds[1..])
    else if ds[0].Details? then ds[0].json else ""
  }

  predicate AnyCalls(ds: seq<Delta>) { exists i :: 0 <= i < |ds| && ds[i].Calls? }

  // The last call list.
  function CallsOf(ds: seq<Delta>): seq<ToolCall> {
    if ds == [] then []
    else if AnyCalls(ds[1..]) || !ds[0].Calls? then CallsOf(ds[1..]) else ds[0].list
  }

  // The pictures the session took in.
  function PicturesOf(ds: seq<Delta>): nat {
    if ds == [] then 0 else (if ds[0] == Picture(true) then 1 else 0) + PicturesOf(ds[1..])
  }

  lemma {:induction false} OneMoreText(ds: seq<Delta>, d: Delta)
    ensures TextOf(ds + [d]) == TextOf(ds) + TextIn(d)
  {
    var all := ds + [d];
    if ds == [] {
      assert all[1..] == [];
    } else {
      OneMoreText(ds[1..], d);
      assert all[0] == ds[0] && all[1..] == ds[1..] + [d];
      Assoc(TextIn(ds[0]), TextOf(ds[1..]), TextIn(d));
    }
  }

  lemma {:induction false} OneMoreTrace(ds: seq<Delta>, d: Delta)
    ensures TraceOf(ds + [d]) == TraceOf(ds) + TraceIn(d)
  {
    var all := ds + [d];
    if ds == [] {
      assert all[1..] == [];
    } else {
      OneMoreTrace(ds[1..], d);
      assert all[0] == ds[0] && all[1..] == ds[1..] + [d];
      Assoc(TraceIn(ds[0]), TraceOf(ds[1..]), TraceIn(d));
    }
  }

  lemma {:induction false} OneMoreDetail(ds: seq<Delta>, d: Delta)
    ensures DetailsOf(ds + [d]) == if d.Details? && d.json != "" then d.json else DetailsOf(ds)
    ensures PicturesOf(ds + [d]) == PicturesOf(ds) + if d == Picture(true) then 1 else 0
  {
    var all := ds + [d];
    if ds == [] {
      assert all[1..] == [];
    } else {
      OneMoreDetail(ds[1..], d);
      assert all[0] == ds[0] && all[1..] == ds[1..] + [d];
    }
  }

  lemma {:induction false} OneMoreCalls(ds: seq<Delta>, d: Delta)
    ensures CallsOf(ds + [d]) == if d.Calls? then d.list else CallsOf(ds)
  {
    var all := ds + [d];
    if ds == [] {
      assert all[1..] == [];
    } else {
      OneMoreCalls(ds[1..], d);
      assert all[0] == ds[0] && all[1..] == ds[1..] + [d];
      AnyMoreCalls(ds[1..], d);
    }
  }

  lemma AnyMoreCalls(ds: seq<Delta>, d: Delta)
    ensures AnyCalls(ds + [d]) <==> AnyCalls(ds) || d.Calls?
  {
    var all := ds + [d];
    assert all[|ds|] == d && forall i :: 0 <= i < |ds| ==> all[i] == ds[i];
  }

  predicate Ascending(ids: seq<nat>) { forall i, j :: 0 <= i < j < |ids| ==> ids[i] < ids[j] }

  // The round's accumulation is what its stream has delivered so far.
  predicate Accumulates(b: Buffers, ds: seq<Delta>) {
    && b.text == TextOf(ds) && b.reasoning == TraceOf(ds) && b.details == DetailsOf(ds) && b.calls == CallsOf(ds)
    && |b.images| == PicturesOf(ds) && Ascending(b.images)
  }

  lemma DeltaAccumulates(b: Buffers, ds: seq<Delta>, d: Delta, next: nat)
    requires Accumulates(b, ds) && ImagesResolve(next, b.images)
    ensures Accumulates(OnDelta(b, d, next), ds + [d])
  {
    OneMoreText(ds, d);
    OneMoreTrace(ds, d);
    OneMoreDetail(ds, d);
    OneMoreCalls(ds, d);
    hide TextOf, TraceOf, DetailsOf, CallsOf, PicturesOf;
  }

  lemma {:induction false} DeltasAccumulate(b: Buffers, was: seq<Delta>, ds: seq<Delta>, next: nat)
    requires Accumulates(b, was) && ImagesResolve(next, b.images)
    ensures Accumulates(OnDeltas(b, ds, next), was + ds)
    decreases |ds|
  {
    hide Accumulates, OnDelta, Pictures, ImagesResolve;
    if ds == [] {
      assert was + ds == was;
    } else {
      var k := |ds| - 1;
      DeltasAccumulate(b, was, ds[..k], next);
      DeltasResolve(b, ds[..k], next);
      DeltaAccumulates(OnDeltas(b, ds[..k], next), was + ds[..k], ds[k], next + Pictures(ds[..k]));
      assert was + ds[..k] + [ds[k]] == was + ds;
    }
  }

  // ---- What the transcript records. ----

  // The round produced nothing to record.
  predicate Nothing(ds: seq<Delta>) { TextOf(ds) == "" && CallsOf(ds) == [] && PicturesOf(ds) == 0 }

  // The message is the round's: its calls or else its text, its trace, its last details
  // array (a one-character array is empty) and its pictures, in order.
  predicate Recorded(m: Message, ds: seq<Delta>) {
    && m.Assistant? && m.calls == CallsOf(ds) && m.content == (if CallsOf(ds) == [] then TextOf(ds) else "")
    && m.reasoning == TraceOf(ds) && m.details == (if |DetailsOf(ds)| > 1 then DetailsOf(ds) else "")
    && |m.images| == PicturesOf(ds) && Ascending(m.images)
  }

  function Assistants(ms: seq<Message>): seq<Message> {
    if ms == [] then [] else Assistants(ms[..|ms| - 1]) + if ms[|ms| - 1].Assistant? then [ms[|ms| - 1]] else []
  }

  function CompletedRounds(log: seq<RoundLog>): seq<seq<Delta>> {
    if log == [] then []
    else CompletedRounds(log[..|log| - 1]) + if log[|log| - 1].ending == Completed then [log[|log| - 1].deltas] else []
  }

  predicate AllRecorded(ms: seq<Message>, rounds: seq<seq<Delta>>) {
    |ms| == |rounds| && forall i :: 0 <= i < |ms| ==> Recorded(ms[i], rounds[i])
  }

  // A round is void exactly when nothing came of it.
  predicate Judged(log: seq<RoundLog>) {
    forall i :: 0 <= i < |log| ==>
      (log[i].ending == Void ==> Nothing(log[i].deltas)) && (log[i].ending == Completed ==> !Nothing(log[i].deltas))
  }

  predicate Streams(s: State) {
    s.streamOpen ==>
      s.past.log != [] && s.past.log[|s.past.log| - 1].ending == Unfinished
      && Accumulates(s.buf, s.past.log[|s.past.log| - 1].deltas)
  }

  predicate Rounds(s: State) {
    && AllRecorded(Assistants(s.talk.session), CompletedRounds(s.past.log))
    && Judged(s.past.log) && Streams(s)
  }

  lemma {:induction false} AssistantsMore(a: seq<Message>, b: seq<Message>)
    ensures Assistants(a + b) == Assistants(a) + Assistants(b)
    decreases |b|
  {
    if b == [] {
      assert a + b == a;
    } else {
      AssistantsMore(a, b[..|b| - 1]);
      assert (a + b)[..|a + b| - 1] == a + b[..|b| - 1];
    }
  }

  lemma {:induction false} NoAssistants(ms: seq<Message>)
    requires forall i :: 0 <= i < |ms| ==> !ms[i].Assistant?
    ensures Assistants(ms) == []
  {
    if ms != [] {
      NoAssistants(ms[..|ms| - 1]);
    }
  }

  // ---- Every step. ----

  // A step that records no round's message and ends no round.
  lemma QuietKeeps(s: State, r: State)
    requires Rounds(s) && Assistants(r.talk.session) == Assistants(s.talk.session) && r.past.log == s.past.log
    requires r.streamOpen ==> s.streamOpen && r.buf == s.buf
    ensures Rounds(r)
  {
    hide AllRecorded, Judged, Accumulates;
  }

  lemma SayKeeps(s: State, r: State, more: seq<Message>)
    requires Rounds(s) && r.talk.session == s.talk.session + more && r.past.log == s.past.log
    requires r.streamOpen ==> s.streamOpen && r.buf == s.buf
    requires forall i :: 0 <= i < |more| ==> !more[i].Assistant?
    ensures Rounds(r)
  {
    AssistantsMore(s.talk.session, more);
    NoAssistants(more);
    hide Rounds, Assistants;
    QuietKeeps(s, r);
  }

  lemma PublishedAlike(t: Talk)
    requires t.session != [] ==> t.session[0].System?
    ensures Assistants(Publish(t).session) == Assistants(t.session)
  {
    if t.session != [] {
      var after := Publish(t).session;
      assert after[1..] == t.session[1..];
      AssistantsMore([t.session[0]], t.session[1..]);
      AssistantsMore([after[0]], after[1..]);
      NoAssistants([t.session[0]]);
      NoAssistants([after[0]]);
      assert [t.session[0]] + t.session[1..] == t.session && [after[0]] + after[1..] == after;
    }
  }

  lemma OneMoreRound(log: seq<RoundLog>, r: RoundLog)
    ensures CompletedRounds(log + [r]) == CompletedRounds(log) + if r.ending == Completed then [r.deltas] else []
  {
    assert (log + [r])[..|log|] == log;
  }

  lemma NothingArrived()
    ensures Accumulates(EMPTY, [])
  {
  }

  lemma OpenedKeeps(s: State, e: RoundEnv)
    requires Rounds(s) && s.buf == EMPTY
    ensures Rounds(Opened(s, e))
  {
    hide Assistants, AllRecorded, CompletedRounds, Accumulates, WireNow, Carries;
    OneMoreRound(s.past.log, RoundLog([], Unfinished));
    assert CompletedRounds(s.past.log) + [] == CompletedRounds(s.past.log);
    NothingArrived();
    var log, r := s.past.log, Opened(s, e);
    assert r.past.log == log + [RoundLog([], Unfinished)];
    assert Judged(r.past.log) && Streams(r);
  }

  lemma BeginRoundKeeps(s: State, e: RoundEnv)
    requires Rounds(s) && !s.streamOpen
    ensures Rounds(BeginRound(s, e))
  {
    hide Assistants, AllRecorded, CompletedRounds, Accumulates, Judged, Opened;
    if s.round < e.cap {
      var p := Prepare(s, e);
      SayKeeps(s, p, Reminder(e.reminder));
      OpenedKeeps(p, e);
    }
  }

  // A change of the last round alone.
  lemma LastRoundChanges(log: seq<RoundLog>, r: RoundLog)
    requires log != [] && log[|log| - 1].ending == Unfinished
    ensures var after := log[|log| - 1 := r];
      CompletedRounds(after) == if r.ending == Completed then CompletedRounds(log) + [r.deltas] else CompletedRounds(log)
  {
    var k := |log| - 1;
    assert log == log[..k] + [log[k]] && log[k := r] == log[..k] + [r];
    OneMoreRound(log[..k], log[k]);
    OneMoreRound(log[..k], r);
    hide CompletedRounds;
  }

  lemma LastIsJudged(log: seq<RoundLog>, r: RoundLog)
    requires log != [] && Judged(log)
    requires (r.ending == Void ==> Nothing(r.deltas)) && (r.ending == Completed ==> !Nothing(r.deltas))
    ensures Judged(log[|log| - 1 := r])
  {
    hide Nothing;
  }

  // The round that was open ends, and nothing is recorded of it.
  lemma EndKeeps(s: State, r: State, how: Ending)
    requires Rounds(s) && s.streamOpen && !r.streamOpen && how != Completed && how != Unfinished
    requires r.past.log == Ended(s.past.log, how) && Assistants(r.talk.session) == Assistants(s.talk.session)
    requires how == Void ==> Nothing(s.past.log[|s.past.log| - 1].deltas)
    ensures Rounds(r)
  {
    hide Assistants, CompletedRounds, AllRecorded, Accumulates, Nothing, Judged;
    var log := s.past.log;
    LastRoundChanges(log, log[|log| - 1].(ending := how));
    LastIsJudged(log, log[|log| - 1].(ending := how));
  }

  lemma MessageIsTheRounds(b: Buffers, ds: seq<Delta>)
    requires Accumulates(b, ds)
    ensures RoundIsVoid(b) <==> Nothing(ds)
    ensures !RoundIsVoid(b) ==> |RoundMessage(b)| == 1 && Recorded(RoundMessage(b)[0], ds)
  {
    hide TextOf, TraceOf, DetailsOf, CallsOf, PicturesOf;
  }

  lemma RecordedMore(ms: seq<Message>, rounds: seq<seq<Delta>>, m: Message, ds: seq<Delta>)
    requires AllRecorded(ms, rounds) && Recorded(m, ds)
    ensures AllRecorded(ms + [m], rounds + [ds])
  {
    hide Recorded;
  }

  lemma OneAssistant(ms: seq<Message>, m: Message)
    requires m.Assistant?
    ensures Assistants(ms + [m]) == Assistants(ms) + [m]
  {
    assert (ms + [m])[..|ms|] == ms;
  }

  lemma CompletedKeeps(s: State, r: State, m: Message)
    requires Rounds(s) && s.streamOpen && !r.streamOpen
    requires r.past.log == Ended(s.past.log, Completed) && r.talk.session == s.talk.session + [m]
    requires Recorded(m, s.past.log[|s.past.log| - 1].deltas) && !Nothing(s.past.log[|s.past.log| - 1].deltas)
    ensures Rounds(r)
  {
    var log := s.past.log;
    var done := log[|log| - 1].(ending := Completed);
    assert m.Assistant?;
    hide Assistants, CompletedRounds, AllRecorded, Accumulates, Nothing, Judged, Recorded;
    LastRoundChanges(log, done);
    LastIsJudged(log, done);
    OneAssistant(s.talk.session, m);
    RecordedMore(Assistants(s.talk.session), CompletedRounds(log), m, done.deltas);
  }

  lemma FinishRoundKeeps(s: State, status: bool)
    requires Rounds(s) && s.streamOpen
    ensures Rounds(FinishRound(s, status))
  {
    var r := FinishRound(s, status);
    var ds := s.past.log[|s.past.log| - 1].deltas;
    MessageIsTheRounds(s.buf, ds);
    assert Rounds(s);
    hide Rounds, Nothing, Recorded, Assistants;
    if !status {
      EndKeeps(s, r, Broken);
    } else if RoundIsVoid(s.buf) {
      EndKeeps(s, r, Void);
    } else {
      assert RoundMessage(s.buf) == [RoundMessage(s.buf)[0]];
      CompletedKeeps(s, r, RoundMessage(s.buf)[0]);
    }
  }

  lemma StreamStepKeeps(s: State, e: StepEnv)
    requires Rounds(s) && s.streamOpen && Resolved(s)
    ensures Rounds(StreamStep(s, e))
  {
    var d := Received(s, e.deltas, e.now);
    ReceivedKeeps(s, e.deltas, e.now);
    EndKeeps(s, Fail(s, Broken), Broken);
    FinishRoundKeeps(d, e.status);
    QuietKeeps(d, d.(lastActivity := e.now));
    hide Rounds;
  }

  lemma ReceivedKeeps(s: State, ds: seq<Delta>, now: real)
    requires Rounds(s) && s.streamOpen && Resolved(s)
    ensures Rounds(Received(s, ds, now))
  {
    var log := s.past.log;
    var last := log[|log| - 1];
    DeltasAccumulate(s.buf, last.deltas, ds, s.talk.imageCount);
    hide Assistants, CompletedRounds, AllRecorded, Accumulates, OnDeltas, Nothing, Judged;
    LastRoundChanges(log, last.(deltas := last.deltas + ds));
    LastIsJudged(log, last.(deltas := last.deltas + ds));
  }

  lemma EnvDriveKeeps(s: State, job: JobView, now: real, e: RoundEnv)
    requires Rounds(s) && Seeded(s.talk) && !s.streamOpen
    ensures Rounds(EnvDrive(s, job, now, e))
  {
    if EnvResolves(s.stage, job, now) {
      var r := EnvResolved(s, job);
      PublishedAlike(r.talk);
      hide Rounds, Publish, Assistants;
      QuietKeeps(s, r.(talk := Publish(r.talk)));
      BeginRoundKeeps(r.(talk := Publish(r.talk)), e);
    }
  }

  lemma OpeningAlike(t: Talk, e: StartEnv)
    requires Seeded(t)
    ensures Assistants(Opening(t, e).session) == Assistants(t.session)
  {
    var u := EnsureSession(t);
    NoAssistants(if t.session == [] then u.session else []);
    PublishedAlike(u.(prompt := Prompt.SetVision(u.prompt, e.vision)));
    hide Assistants;
  }

  lemma StartKeeps(s: State, e: StartEnv)
    requires Rounds(s) && Shape(s)
    ensures Rounds(StartTurn(s, e))
  {
    if !Busy(s.phase) {
      OpeningAlike(s.talk, e);
      GreetedKeepsShape(s, e);
      hide Rounds, Assistants, Opening;
      var o := s.(talk := Opening(s.talk, e));
      QuietKeeps(s, o);
      QuietKeeps(o, o.(phase := Failed));
      if ImagesResolve(s.talk.imageCount, e.images) {
        var said := [User(e.input, e.images)] + Users(e.notes);
        var u := s.(round := 0, talk := Greeted(s.talk, e));
        SayKeeps(o, u, said);
        BeginRoundKeeps(u, e.begin);
        var w := u.(phase := Phase.Streaming, stage := u.stage.(awaiting := true));
        QuietKeeps(u, w);
        EnvDriveKeeps(w, e.job, e.now, e.begin);
      }
    }
  }

  lemma ToolStepKeeps(s: State, e: StepEnv)
    requires Rounds(s) && s.phase == RunningTool && !s.streamOpen
    ensures Rounds(ToolStep(s, e))
  {
    hide Rounds, Assistants;
    if s.tools.index >= |s.buf.calls| {
      var c := s.(buf := s.buf.(calls := []), tools := s.tools.(index := 0));
      var fan := [User(e.fanText, ImageIds(s.tools.images))];
      QuietKeeps(s, c);
      QuietKeeps(s, c.(phase := Failed));
      BeginRoundKeeps(c, e.begin);
      SayKeeps(c, c.(talk := Say(s.talk, fan)), fan);
      BeginRoundKeeps(c.(talk := Say(s.talk, fan)), e.begin);
    } else if e.toolRuns {
      QuietKeeps(s, ToolStep(s, e));
    } else {
      var call := s.buf.calls[s.tools.index];
      SayKeeps(s, ToolStep(s, e), [Tool(call.id, call.name, e.output)]);
    }
  }

  lemma CancelKeeps(s: State)
    requires Rounds(s) && Shape(s)
    ensures Rounds(CancelTurn(s))
  {
    var r := CancelTurn(s);
    hide Assistants, AllRecorded, CompletedRounds, Accumulates, Nothing;
    if s.streamOpen {
      EndKeeps(s, r, Cancelled);
    } else if s.phase == RunningTool {
      SayKeeps(s, r, CancelReplies(s.buf.calls[s.tools.index..]));
    } else {
      QuietKeeps(s, r);
    }
  }

  lemma ModelKeeps(s: State, model: string, vision: int)
    requires Rounds(s) && Seeded(s.talk)
    ensures Rounds(ChangeModel(s, model, vision))
  {
    var t := s.talk.(model := model, clausePending := true);
    PublishedAlike(t.(prompt := Prompt.SetVision(t.prompt, vision)));
    hide Rounds, Assistants, Publish;
    QuietKeeps(s, ChangeModel(s, model, vision));
  }

  lemma AttachKeeps(s: State, accepted: bool)
    requires Rounds(s)
    ensures Rounds(Attach(s, accepted))
  {
    var t := EnsureSession(s.talk);
    NoAssistants(if s.talk.session == [] then t.session else []);
    NoAssistants([]);
    hide Rounds, Assistants;
    QuietKeeps(s, Attach(s, accepted));
  }

  lemma ApplyKeeps(s: State, ev: Event)
    requires Rounds(s) && Shape(s)
    ensures Rounds(Apply(s, ev))
  {
    hide Rounds, StartTurn, CancelTurn, ChangeModel, Attach, Groups, SentClosed;
    match ev
    case Start(e) => StartKeeps(s, e);
    case Step(e) => StepKeeps(s, e);
    case Cancel => CancelKeeps(s);
    case SetModel(m, v) => ModelKeeps(s, m, v);
    case AttachImage(ok) => AttachKeeps(s, ok);
  }

  lemma StepKeeps(s: State, e: StepEnv)
    requires Rounds(s) && Shape(s)
    ensures Rounds(StepTurn(s, e))
  {
    hide Rounds, EnvDrive, ToolStep, StreamStep, Groups, SentClosed;
    if s.stage.awaiting {
      EnvDriveKeeps(s, e.job, e.now, e.begin);
    } else if s.phase == RunningTool {
      ToolStepKeeps(s, e);
    } else if s.streamOpen {
      StreamStepKeeps(s, e);
    }
  }

  lemma {:induction false} RunKeeps(s: State, evs: seq<Event>)
    requires Rounds(s) && Shape(s)
    ensures Rounds(Run(s, evs))
    decreases |evs|
  {
    if evs != [] {
      RunKeeps(s, evs[..|evs| - 1]);
      RunKeepsShape(s, evs[..|evs| - 1]);
      hide Rounds, Shape, Apply;
      ApplyKeeps(Run(s, evs[..|evs| - 1]), evs[|evs| - 1]);
    }
  }

  // How a round ends, by its status and by all its stream delivered: refused or void it
  // adds no message and no count, else it leaves its message, and runs its calls or ends
  // the turn.
  predicate EndsBy(s: State, r: State, ds: seq<Delta>, status: bool) {
    if !status || Nothing(ds) then r.phase == Failed && r.talk.session == s.talk.session && r.meter == s.meter
    else
      && r.phase == (if CallsOf(ds) != [] then RunningTool else Done)
      && |r.talk.session| == |s.talk.session| + 1 && r.talk.session[..|s.talk.session|] == s.talk.session
      && Recorded(r.talk.session[|s.talk.session|], ds)
  }

  lemma FinishEndsBy(s: State, d: State, ds: seq<Delta>, status: bool)
    requires Accumulates(d.buf, ds) && d.talk.session == s.talk.session && d.meter == s.meter
    ensures EndsBy(s, FinishRound(d, status), ds, status)
  {
    MessageIsTheRounds(d.buf, ds);
    hide Recorded, Nothing, RoundMessage, TextOf, TraceOf, DetailsOf, CallsOf, PicturesOf, Metered;
  }

  lemma RoundEndsBy(s: State, e: StepEnv)
    requires Reachable(s) && s.streamOpen && e.streamEnds && !(BudgetSpent(s.lastActivity, e.timeoutMs, e.now) && !e.finishing)
    ensures s.past.log != [] && EndsBy(s, StepTurn(s, e), s.past.log[|s.past.log| - 1].deltas + e.deltas, e.status)
  {
    ReachableShape(s);
    ReachableRounds(s);
    OpenIsStreaming(s);
    ImagesAreResolved(s);
    DeltasAccumulate(s.buf, s.past.log[|s.past.log| - 1].deltas, e.deltas, s.talk.imageCount);
    hide Shape, Accumulates, OnDeltas, FinishRound, Nothing, EndsBy;
    FinishEndsBy(s, Received(s, e.deltas, e.now), s.past.log[|s.past.log| - 1].deltas + e.deltas, e.status);
  }

  lemma OpenIsStreaming(s: State)
    requires Shape(s) && s.streamOpen
    ensures !s.stage.awaiting && s.phase != RunningTool
  {
  }

  lemma ImagesAreResolved(s: State)
    requires Shape(s)
    ensures ImagesResolve(s.talk.imageCount, s.buf.images)
  {
  }

  // In every reachable state the assistant messages of the transcript are the completed
  // rounds, in order, each what its stream delivered; a round is void exactly when
  // nothing came of it, and while a stream is open its accumulation is what has arrived.
  lemma ReachableRounds(s: State)
    requires Reachable(s)
    ensures AllRecorded(Assistants(s.talk.session), CompletedRounds(s.past.log))
    ensures Judged(s.past.log)
    ensures s.streamOpen ==> s.past.log != [] && Accumulates(s.buf, s.past.log[|s.past.log| - 1].deltas)
  {
    var model, prompt, job, deadline, evs :| s == Run(Init(model, prompt, job, deadline), evs);
    assert Shape(Init(model, prompt, job, deadline));
    assert Rounds(Init(model, prompt, job, deadline));
    hide Shape, Init;
    RunKeeps(Init(model, prompt, job, deadline), evs);
  }
}
