// The agent loop (src/agent.c) as a state machine: one state, one function per
// entry point, and runs as sequences of events. Whatever the program reads from
// outside - the provider's stream, the tools, the config store, the model
// catalog, the git job, the clock - is part of the event.
module AgentMachine {
  import opened Common
  import opened Session
  import opened Prompt
  import ImageWindow

  datatype Phase = Idle | Streaming | RunningTool | Done | Failed

  datatype Echo = EchoOff | EchoTools | EchoAll

  // `reasoning_echo_frozen` and `reasoning_echo_mode` (and their signature twins).
  datatype Latch = Free | Frozen(mode: Echo)

  // -1 stands for a count the provider did not report.
  datatype Usage = Usage(prompt: int, completion: int, cached: int, written: int)
  const NO_USAGE := Usage(-1, -1, -1, -1)

  // The session ledger: every sum has its own `seen` latch.
  datatype Totals = Totals(
    input: int, output: int, read: int, written: int, base: int, rounds: nat,
    inputSeen: bool, outputSeen: bool, readSeen: bool, writtenSeen: bool)
  const NO_TOTALS := Totals(0, 0, 0, 0, 0, 0, false, false, false, false)

  datatype ToolImage = ToolImage(image: nat, tool: string)

  // One message of a request. None leaves the field off the wire.
  datatype WireMessage = WireMessage(message: Message, reasoning: Option<string>, details: Option<string>)

  // A request the provider accepted. `epoch` counts the model changes before it.
  datatype Request = Request(model: string, epoch: nat, wire: seq<WireMessage>)

  // How a round went: what its stream delivered, in arrival order, and its end.
  datatype Ending = Unfinished | Completed | Void | Broken | Cancelled
  datatype RoundLog = RoundLog(deltas: seq<Delta>, ending: Ending)

  // The conversation: what the requests are built from.
  datatype Talk = Talk(
    model: string,
    clausePending: bool,
    prompt: Segments,
    session: seq<Message>,        // [] until the session exists
    imageCount: nat)              // the session's image store

  // One round's accumulation (reset by round_reset).
  datatype Buffers = Buffers(
    text: string, reasoning: string, details: string,
    calls: seq<ToolCall>, images: seq<nat>, usage: Usage, usageSeen: bool)
  const EMPTY := Buffers("", "", "", [], [], NO_USAGE, false)

  datatype ToolPhase = ToolPhase(index: nat, execLive: bool, images: seq<ToolImage>)

  // The async <env> git stage.
  datatype Stage = Stage(job: bool, deadline: real, awaiting: bool)

  datatype Latches = Latches(reasoning: Latch, signature: Latch)

  datatype Meter = Meter(last: Usage, hasUsage: bool, totals: Totals)

  // A request as it was numbered: the transcript it was to show, under which image
  // window, and its end.
  datatype Attempt = Attempt(window: nat, ms: seq<Message>, end: ImageWindow.Outcome)

  // History the program does not keep: model changes, accepted requests, rounds, and
  // every numbered request.
  datatype Past = Past(epoch: nat, sent: seq<Request>, log: seq<RoundLog>, attempts: seq<Attempt>)

  datatype State = State(
    phase: Phase, round: nat, streamOpen: bool, lastActivity: real,
    talk: Talk, buf: Buffers, tools: ToolPhase, stage: Stage, latches: Latches, meter: Meter, past: Past)

  // What begin_round reads: the `rounds` cap, a reminder that fired, the two
  // echo keys, the image window, whether allocation and chat_begin succeed, and the
  // time.
  datatype RoundEnv = RoundEnv(cap: nat, reminder: Option<string>, echoKey: Echo, signatureKey: Echo,
    window: nat, memory: bool, opens: bool, now: real)

  // The git job when the stage is driven: gone from the registry, live, or
  // exited with the section its output held ("" for a garbled one).
  datatype JobView = Gone | Live | Exited(section: string)

  datatype Delta =
    | Content(chunk: string)
    | Trace(chunk: string)
    | Details(json: string)
    | Picture(attached: bool)      // false: a remote URL, or refused by the store
    | Calls(list: seq<ToolCall>)
    | Report(usage: Usage)

  // What one step meets. Only the part that belongs to the state is read.
  datatype StepEnv = StepEnv(
    job: JobView,
    timeoutMs: int, finishing: bool,
    deltas: seq<Delta>, traffic: bool, streamEnds: bool, status: bool,
    toolRuns: bool, output: string, picture: bool, fanOut: bool, fanText: string,
    now: real, begin: RoundEnv)

  datatype StartEnv = StartEnv(input: string, images: seq<nat>, vision: int, notes: seq<string>,
    job: JobView, now: real, begin: RoundEnv)

  datatype Event =
    | Start(s: StartEnv)
    | Step(e: StepEnv)
    | Cancel
    | SetModel(model: string, vision: int)
    | AttachImage(accepted: bool)

  function Init(model: string, prompt: Segments, job: bool, deadline: real): State {
    State(Idle, 0, false, 0.0, Talk(model, true, prompt, [], 0), EMPTY, ToolPhase(0, false, []),
          Stage(job, deadline, false), Latches(Free, Free), Meter(NO_USAGE, false, NO_TOTALS), Past(0, [], [], []))
  }

  // ---- the session seams -------------------------------------------------

  function EnsureSession(t: Talk): Talk {
    if t.session != [] then t else t.(session := [System(Render(t.prompt))])
  }

  // Republish the prompt into a session that exists.
  function Publish(t: Talk): Talk {
    if t.session == [] then t else t.(session := Session.SetSystem(t.session, Render(t.prompt)))
  }

  // apply_vision_clause: only while the active model's prefix is cold.
  function ApplyVision(t: Talk, vision: int): Talk {
    if !t.clausePending || t.prompt.vision == (vision == 1) then t
    else Publish(t.(prompt := SetVision(t.prompt, vision)))
  }

  function Say(t: Talk, ms: seq<Message>): Talk {
    t.(session := t.session + ms)
  }

  function Users(texts: seq<string>): (ms: seq<Message>)
    ensures |ms| == |texts|
  {
    seq(|texts|, i requires 0 <= i < |texts| => User(texts[i], []))
  }

  function Reminder(r: Option<string>): seq<Message> {
    if r.Some? then [User(r.value, [])] else []
  }

  // ---- a round -----------------------------------------------------------

  function ModeInForce(latch: Latch, key: Echo): Echo {
    if latch.Frozen? then latch.mode else key
  }

  // The trace a message carries back under a mode. A tool-call message carries
  // the field even when its round streamed no trace.
  function TraceOn(mode: Echo, m: Message): Option<string> {
    if m.Assistant? && m.calls != [] && mode != EchoOff then Some(m.reasoning)
    else if m.Assistant? && mode == EchoAll && m.reasoning != "" then Some(m.reasoning)
    else None
  }

  // The reasoning_details array: echoed strictly, never fabricated.
  function DetailsOn(mode: Echo, m: Message): Option<string> {
    if m.Assistant? && m.details != "" && (mode == EchoAll || (m.calls != [] && mode != EchoOff))
    then Some(m.details) else None
  }

  function Compose(ms: seq<Message>, mode: Echo, signature: Echo): (wire: seq<WireMessage>)
    ensures |wire| == |ms|
  {
    seq(|ms|, i requires 0 <= i < |ms| =>
      WireMessage(ms[i], TraceOn(mode, ms[i]), DetailsOn(signature, ms[i])))
  }

  // The two fields a request may echo back, each with its own latch.
  datatype Field = ReasoningField | SignatureField

  function EchoOn(f: Field, mode: Echo, m: Message): Option<string> {
    if f.ReasoningField? then TraceOn(mode, m) else DetailsOn(mode, m)
  }

  function Carried(f: Field, w: WireMessage): Option<string> {
    if f.ReasoningField? then w.reasoning else w.details
  }

  function LatchOf(f: Field, l: Latches): Latch {
    if f.ReasoningField? then l.reasoning else l.signature
  }

  predicate Carries(f: Field, wire: seq<WireMessage>) {
    exists i :: 0 <= i < |wire| && Carried(f, wire[i]).Some?
  }

  // begin_round up to the point where the request is composed: the clause is
  // settled, the reminder appended, the round's accumulation reset, the request
  // numbered.
  function Prepare(s: State, e: RoundEnv): State {
    s.(talk := Say(s.talk, Reminder(e.reminder)).(clausePending := false),
       buf := EMPTY,
       tools := ToolPhase(0, s.tools.execLive, []),
       past := Numbered(s.past, s.talk.session + Reminder(e.reminder), e))
  }

  function Numbered(p: Past, ms: seq<Message>, e: RoundEnv): Past {
    p.(attempts := p.attempts + [Attempt(e.window, ms, OutcomeOf(e))])
  }

  function OutcomeOf(e: RoundEnv): ImageWindow.Outcome {
    if !e.memory then ImageWindow.Skipped else if !e.opens then ImageWindow.Unopened else ImageWindow.Accepted
  }

  function WireNow(s: State, e: RoundEnv): seq<WireMessage> {
    Compose(s.talk.session, ModeInForce(s.latches.reasoning, e.echoKey),
            ModeInForce(s.latches.signature, e.signatureKey))
  }

  // A latch closes on the first accepted request that carries its field.
  function LatchAfter(latch: Latch, key: Echo, carried: bool): Latch {
    if carried then Frozen(ModeInForce(latch, key)) else latch
  }

  // The round's stream is open: count it, arm the deadline, set the latches.
  function Opened(s: State, e: RoundEnv): State {
    var wire := WireNow(s, e);
    s.(phase := Streaming, round := s.round + 1, streamOpen := true, lastActivity := e.now,
       latches := Latches(LatchAfter(s.latches.reasoning, e.echoKey, Carries(ReasoningField, wire)),
                          LatchAfter(s.latches.signature, e.signatureKey, Carries(SignatureField, wire))),
       past := s.past.(sent := s.past.sent + [Request(s.talk.model, s.past.epoch, wire)],
                       log := s.past.log + [RoundLog([], Unfinished)]))
  }

  function BeginRound(s: State, e: RoundEnv): State {
    if s.round >= e.cap then s.(phase := Failed)
    else if e.memory && e.opens then Opened(Prepare(s, e), e)
    else Prepare(s, e).(phase := Failed)
  }

  // round_on_delta and round_on_usage, on the round's accumulation; `next` is
  // the id the image store gives the next image.
  function OnDelta(b: Buffers, d: Delta, next: nat): Buffers {
    match d
    case Report(u) => b.(usage := u, usageSeen := true)
    case Content(c) => b.(text := b.text + c)
    case Trace(c) => b.(reasoning := b.reasoning + c)
    case Details(a) => if a == "" then b else b.(details := a)
    case Picture(attached) => if attached then b.(images := b.images + [next]) else b
    case Calls(list) => b.(calls := list)
  }

  function OnDeltas(b: Buffers, ds: seq<Delta>, next: nat): Buffers
    decreases |ds|
  {
    if ds == [] then b
    else
      var k := |ds| - 1;
      OnDelta(OnDeltas(b, ds[..k], next), ds[k], next + Pictures(ds[..k]))
  }

  function Pictures(ds: seq<Delta>): nat
    decreases |ds|
  {
    if ds == [] then 0
    else Pictures(ds[..|ds| - 1]) + if ds[|ds| - 1] == Picture(true) then 1 else 0
  }

  // Every delta but a usage report is wire activity.
  predicate Activity(ds: seq<Delta>) {
    exists i :: 0 <= i < |ds| && !ds[i].Report?
  }

  // What the deltas of one step leave.
  function Received(s: State, ds: seq<Delta>, now: real): State {
    s.(buf := OnDeltas(s.buf, ds, s.talk.imageCount),
       talk := s.talk.(imageCount := s.talk.imageCount + Pictures(ds)),
       lastActivity := if Activity(ds) then now else s.lastActivity,
       past := s.past.(log := Streamed(s.past.log, ds)))
  }

  function Streamed(log: seq<RoundLog>, ds: seq<Delta>): seq<RoundLog> {
    if log == [] then log
    else log[|log| - 1 := log[|log| - 1].(deltas := log[|log| - 1].deltas + ds)]
  }

  function Ended(log: seq<RoundLog>, how: Ending): seq<RoundLog> {
    if log == [] then log else log[|log| - 1 := log[|log| - 1].(ending := how)]
  }

  // session_account_round.
  function Account(t: Totals, u: Usage): Totals {
    Totals(
      if u.prompt >= 0 then t.input + u.prompt else t.input,
      if u.completion >= 0 then t.output + u.completion else t.output,
      if u.cached >= 0 then t.read + u.cached else t.read,
      if u.written >= 0 then t.written + u.written else t.written,
      if u.cached >= 0 && u.prompt >= 0 then t.base + u.prompt else t.base,
      t.rounds + 1,
      t.inputSeen || u.prompt >= 0, t.outputSeen || u.completion >= 0,
      t.readSeen || u.cached >= 0, t.writtenSeen || u.written >= 0)
  }

  // A completed round's report is published and folded in, if it made one.
  function Metered(m: Meter, b: Buffers): Meter {
    if !b.usageSeen then m
    else Meter(b.usage, m.hasUsage || b.usage.prompt >= 0, Account(m.totals, b.usage))
  }

  predicate RoundIsVoid(b: Buffers) {
    b.calls == [] && b.images == [] && b.text == ""
  }

  // The message a completed round leaves, if any.
  function RoundMessage(b: Buffers): seq<Message> {
    var details := if |b.details| > 1 then b.details else "";
    if b.calls != [] then [Assistant("", b.calls, b.reasoning, details, b.images)]
    else if b.images != [] || b.text != "" then [Assistant(b.text, [], b.reasoning, details, b.images)]
    else if b.reasoning != "" then [Assistant("", [], b.reasoning, details, [])]
    else []
  }

  function Fail(s: State, how: Ending): State {
    s.(phase := Failed, streamOpen := false, past := s.past.(log := Ended(s.past.log, how)))
  }

  // The stream is over: `status` is the provider's OK.
  function FinishRound(s: State, status: bool): State {
    if !status then Fail(s, Broken)
    else if RoundIsVoid(s.buf) then Fail(s, Void)
    else
      s.(phase := if s.buf.calls == [] then Done else RunningTool,
         streamOpen := false,
         talk := Say(s.talk, RoundMessage(s.buf)),
         meter := Metered(s.meter, s.buf),
         past := s.past.(log := Ended(s.past.log, Completed)))
  }

  // budget_spent: the inactivity test both the step and the reported wait use.
  predicate BudgetSpent(since: real, budgetMs: int, now: real) {
    budgetMs > 0 && (now - since) * 1000.0 >= budgetMs as real
  }

  function StreamStep(s: State, e: StepEnv): State {
    if BudgetSpent(s.lastActivity, e.timeoutMs, e.now) && !e.finishing then Fail(s, Broken)
    else
      var d := Received(s, e.deltas, e.now);
      if e.streamEnds then FinishRound(d, e.status)
      else if e.traffic then d.(lastActivity := e.now)
      else d
  }

  // ---- the tool phase ----------------------------------------------------

  function FinishCall(s: State, output: string, picture: bool): State
    requires s.tools.index < |s.buf.calls|
  {
    var c := s.buf.calls[s.tools.index];
    var talk := Say(s.talk, [Tool(c.id, c.name, output)]);
    s.(talk := if picture then talk.(imageCount := talk.imageCount + 1) else talk,
       tools := ToolPhase(s.tools.index + 1, false,
         if picture then s.tools.images + [ToolImage(s.talk.imageCount, c.name)] else s.tools.images))
  }

  function ImageIds(images: seq<ToolImage>): (ids: seq<nat>)
    ensures |ids| == |images|
  {
    seq(|images|, i requires 0 <= i < |images| => images[i].image)
  }

  // Every call has run: fan the images out, open the next round.
  function ToolsDone(s: State, e: StepEnv): State {
    var c := s.(buf := s.buf.(calls := []), tools := s.tools.(index := 0));
    if s.tools.images == [] then BeginRound(c, e.begin)
    else if !e.fanOut then c.(phase := Failed)
    else BeginRound(c.(talk := Say(s.talk, [User(e.fanText, ImageIds(s.tools.images))])), e.begin)
  }

  function ToolStep(s: State, e: StepEnv): State {
    if s.tools.index >= |s.buf.calls| then ToolsDone(s, e)
    else if e.toolRuns then s.(tools := s.tools.(execLive := true))      // begun, or still running
    else FinishCall(s, e.output, e.picture)
  }

  // ---- the git stage -----------------------------------------------------

  predicate EnvResolves(g: Stage, job: JobView, now: real) {
    !g.job || !job.Live? || now >= g.deadline
  }

  // env_stage_step when it resolves: at most the section changes the prompt.
  function EnvResolved(s: State, job: JobView): State {
    s.(stage := s.stage.(job := false, awaiting := false),
       talk := if s.stage.job && job.Exited?
               then s.talk.(prompt := ApplyGit(s.talk.prompt, job.section)) else s.talk)
  }

  function EnvFinish(s: State, e: RoundEnv): State {
    BeginRound(s.(talk := Publish(s.talk)), e)
  }

  function EnvDrive(s: State, job: JobView, now: real, e: RoundEnv): State {
    if EnvResolves(s.stage, job, now) then EnvFinish(EnvResolved(s, job), e) else s
  }

  // ---- the entry points --------------------------------------------------

  predicate Busy(p: Phase) { p == Streaming || p == RunningTool }

  predicate ImagesResolve(count: nat, images: seq<nat>) {
    forall i :: 0 <= i < |images| ==> images[i] < count
  }

  // The conversation when nm_agent_start has resolved the clause, and when it
  // has taken the user's message and the notes that follow it.
  function Opening(t: Talk, e: StartEnv): Talk {
    ApplyVision(EnsureSession(t), e.vision)
  }

  function Greeted(t: Talk, e: StartEnv): Talk {
    Say(Opening(t, e), [User(e.input, e.images)] + Users(e.notes))
  }

  function StartTurn(s: State, e: StartEnv): State {
    if Busy(s.phase) then s
    else if !ImagesResolve(s.talk.imageCount, e.images) then s.(phase := Failed, talk := Opening(s.talk, e))
    else
      var u := s.(round := 0, talk := Greeted(s.talk, e));
      if !u.stage.job then BeginRound(u, e.begin)
      else EnvDrive(u.(phase := Streaming, stage := u.stage.(awaiting := true)), e.job, e.now, e.begin)
  }

  function StepTurn(s: State, e: StepEnv): State {
    if s.stage.awaiting then EnvDrive(s, e.job, e.now, e.begin)
    else if s.phase == RunningTool then ToolStep(s, e)
    else if !s.streamOpen then s
    else StreamStep(s, e)
  }

  const CANCELLED := "cancelled: the turn was interrupted before this tool produced a result"

  function CancelReplies(calls: seq<ToolCall>): (ms: seq<Message>)
    ensures |ms| == |calls|
  {
    seq(|calls|, i requires 0 <= i < |calls| => Tool(calls[i].id, calls[i].name, CANCELLED))
  }

  // Close the round's tool-call group before its bookkeeping is dropped.
  function CloseGroup(s: State): Talk {
    if s.phase == RunningTool && s.talk.session != [] && s.tools.index <= |s.buf.calls|
    then Say(s.talk, CancelReplies(s.buf.calls[s.tools.index..]))
    else s.talk
  }

  function CancelTurn(s: State): State {
    if s.stage.awaiting then s.(phase := Idle, stage := s.stage.(job := false, awaiting := false))
    else
      s.(phase := Idle, round := 0, streamOpen := false,
         talk := CloseGroup(s), buf := EMPTY, tools := ToolPhase(0, false, []),
         past := if s.streamOpen then s.past.(log := Ended(s.past.log, Cancelled)) else s.past)
  }

  function ChangeModel(s: State, model: string, vision: int): State {
    if model == "" || model == s.talk.model then s
    else
      s.(talk := ApplyVision(s.talk.(model := model, clausePending := true), vision),
         past := s.past.(epoch := s.past.epoch + 1))
  }

  function Attach(s: State, accepted: bool): State {
    var t := EnsureSession(s.talk);
    s.(talk := if accepted then t.(imageCount := t.imageCount + 1) else t)
  }

  function Apply(s: State, ev: Event): State {
    match ev
    case Start(e) => StartTurn(s, e)
    case Step(e) => StepTurn(s, e)
    case Cancel => CancelTurn(s)
    case SetModel(m, v) => ChangeModel(s, m, v)
    case AttachImage(ok) => Attach(s, ok)
  }

  function Run(s: State, evs: seq<Event>): State
    decreases |evs|
  {
    if evs == [] then s else Apply(Run(s, evs[..|evs| - 1]), evs[|evs| - 1])
  }

  // The states the program can be in: any run from construction.
  ghost predicate Reachable(s: State) {
    exists model, prompt, job, deadline, evs :: s == Run(Init(model, prompt, job, deadline), evs)
  }
}
