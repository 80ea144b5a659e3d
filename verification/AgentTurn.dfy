// One turn of the agent: the round cap bounds it, and every step of it either
// makes progress on a lexicographic measure or waits on a live handle.
module AgentTurn {
  import opened Session
  import opened AgentMachine
  import opened AgentGroups
  import Prompt

  // The largest cap the config store can resolve (parse_int's clamp).
  const MAX_CAP: nat := 100000

  // The step met a handle that is not finished: the git job, the stream, or a
  // live async tool.
  predicate Waits(s: State, e: StepEnv) {
    if s.stage.awaiting then !EnvResolves(s.stage, e.job, e.now)
    else if s.phase == RunningTool then s.tools.execLive && e.toolRuns
    else s.streamOpen && !e.streamEnds && !(BudgetSpent(s.lastActivity, e.timeoutMs, e.now) && !e.finishing)
  }

  // (cap - round, phase, calls left, exec not yet begun)
  datatype Measure = Measure(rounds: nat, phase: nat, calls: nat, exec: nat)

  function MeasureOf(s: State): Measure {
    Measure(if s.round <= MAX_CAP then MAX_CAP - s.round else 0,
            if s.phase == Streaming then 1 else 0,
            if s.phase == RunningTool && s.tools.index <= |s.buf.calls| then |s.buf.calls| - s.tools.index else 0,
            if s.tools.execLive then 0 else 1)
  }

  predicate Below(a: Measure, b: Measure) {
    || a.rounds < b.rounds
    || (a.rounds == b.rounds && a.phase < b.phase)
    || (a.rounds == b.rounds && a.phase == b.phase && a.calls < b.calls)
    || (a.rounds == b.rounds && a.phase == b.phase && a.calls == b.calls && a.exec < b.exec)
  }

  lemma StepMakesProgress(s: State, e: StepEnv)
    requires Shape(s) && Busy(s.phase) && e.begin.cap <= MAX_CAP
    ensures var r := StepTurn(s, e);
      && (Waits(s, e) ==> MeasureOf(r) == MeasureOf(s) && r.phase == s.phase)
      && (!Waits(s, e) && r.phase != Failed ==> Below(MeasureOf(r), MeasureOf(s)))
      && r.phase != Idle
  {
  }

  // A step sends at most one request, and only as a round under the cap.
  predicate AtMostOneRound(s: State, r: State, cap: nat) {
    || (r.round == s.round && |r.past.sent| == |s.past.sent|)
    || (r.round == s.round + 1 <= cap && |r.past.sent| == |s.past.sent| + 1 && r.phase == Streaming)
  }

  lemma BeginRoundSendsOne(s: State, e: RoundEnv)
    ensures AtMostOneRound(s, BeginRound(s, e), e.cap)
  {
  }

  lemma StepSendsOne(s: State, e: StepEnv)
    ensures AtMostOneRound(s, StepTurn(s, e), e.begin.cap)
    ensures !Busy(s.phase) && Phases(s) ==> StepTurn(s, e) == s
  {
    if s.stage.awaiting {
      var w := EnvResolved(s, e.job);
      BeginRoundSendsOne(w.(talk := Publish(w.talk)), e.begin);
    } else if s.phase == RunningTool {
      var c := s.(buf := s.buf.(calls := []), tools := s.tools.(index := 0));
      BeginRoundSendsOne(c, e.begin);
      BeginRoundSendsOne(c.(talk := Say(s.talk, [User(e.fanText, ImageIds(s.tools.images))])), e.begin);
    }
  }

  predicate Capped(ev: Event, cap: nat) {
    match ev
    case Start(_) => false
    case Cancel => true
    case Step(e) => e.begin.cap <= cap
    case SetModel(_, _) => true
    case AttachImage(_) => true
  }

  // Requests sent since the turn began, while the turn is live; a turn that is
  // over sends nothing more.
  predicate Counted(s: State, before: nat, cap: nat) {
    && before <= |s.past.sent| <= before + cap
    && (Busy(s.phase) ==> |s.past.sent| == before + s.round && s.round <= cap)
  }

  lemma StepKeepsCount(s: State, e: StepEnv, before: nat, cap: nat)
    requires Shape(s) && Counted(s, before, cap) && e.begin.cap <= cap
    ensures Counted(StepTurn(s, e), before, cap)
  {
    StepSendsOne(s, e);
  }

  lemma {:induction false} RunKeepsCount(s: State, evs: seq<Event>, before: nat, cap: nat)
    requires Shape(s) && Counted(s, before, cap)
    requires forall i :: 0 <= i < |evs| ==> Capped(evs[i], cap)
    ensures Counted(Run(s, evs), before, cap)
    decreases |evs|
  {
    if evs != [] {
      var k := |evs| - 1;
      RunKeepsCount(s, evs[..k], before, cap);
      RunKeepsShape(s, evs[..k]);
      match evs[k] {
        case Step(e) => StepKeepsCount(Run(s, evs[..k]), e, before, cap);
        case Cancel =>
        case SetModel(_, _) =>
        case AttachImage(_) =>
      }
    }
  }

  // With the cap fixed, a turn sends at most `cap` requests, however long it
  // runs and whatever else happens to the agent meanwhile.
  lemma TurnIsBounded(s: State, e: StartEnv, evs: seq<Event>, cap: nat)
    requires Reachable(s) && !Busy(s.phase) && e.begin.cap <= cap
    requires forall i :: 0 <= i < |evs| ==> Capped(evs[i], cap)
    ensures |Run(StartTurn(s, e), evs).past.sent| <= |s.past.sent| + cap
  {
    ReachableShape(s);
    StartKeepsShape(s, e);
    RunKeepsCount(StartTurn(s, e), evs, |s.past.sent|, cap);
  }

  // A round under the cap is sent: a turn that has sent fewer than its cap sends the
  // next request whenever it is composed and its stream opens, and only then; so a turn
  // that ends at its cap has sent exactly that many.
  lemma RoundIsSentIff(s: State, e: RoundEnv, before: nat)
    requires Counted(s, before, e.cap) && Busy(s.phase)
    ensures var r := BeginRound(s, e);
      && (|s.past.sent| < before + e.cap && e.memory && e.opens <==> |r.past.sent| == |s.past.sent| + 1)
      && (|r.past.sent| == |s.past.sent| + 1 <==> r.phase == Streaming)
      && (r.phase == Failed && e.memory && e.opens ==> |r.past.sent| == before + e.cap)
  {
    hide WireNow, Carries;
  }

  // Once every call of a round is answered, and its pictures are fanned out, the next
  // step is that request.
  lemma AnsweredRoundGoesOn(s: State, e: StepEnv, before: nat)
    requires Shape(s) && Counted(s, before, e.begin.cap) && s.phase == RunningTool && s.tools.index == |s.buf.calls|
    requires e.fanOut || s.tools.images == []
    ensures var r := StepTurn(s, e);
      |s.past.sent| < before + e.begin.cap && e.begin.memory && e.begin.opens <==> |r.past.sent| == |s.past.sent| + 1
  {
    var c := s.(buf := s.buf.(calls := []), tools := s.tools.(index := 0));
    RoundIsSentIff(c, e.begin, before);
    RoundIsSentIff(c.(talk := Say(s.talk, [User(e.fanText, ImageIds(s.tools.images))])), e.begin, before);
    hide BeginRound;
  }

  // The git stage holds the turn exactly while its job lives and its deadline is ahead;
  // when it ends, only a job that exited has put its section into the prompt.
  lemma GitStageEnds(s: State, e: StepEnv)
    requires s.stage.awaiting
    ensures var r := StepTurn(s, e); var holds := s.stage.job && e.job.Live? && e.now < s.stage.deadline;
      && (holds ==> r == s)
      && (!holds ==>
            && r.stage == Stage(false, s.stage.deadline, false)
            && r.talk.prompt == if s.stage.job && e.job.Exited? then Prompt.ApplyGit(s.talk.prompt, e.job.section) else s.talk.prompt)
  {
    var w := EnvResolved(s, e.job);
    BeginRoundKeepsStage(w.(talk := Publish(w.talk)), e.begin);
    hide BeginRound;
  }

  lemma BeginRoundKeepsStage(s: State, e: RoundEnv)
    ensures BeginRound(s, e).stage == s.stage && BeginRound(s, e).talk.prompt == s.talk.prompt
  {
    hide WireNow, Carries;
  }
}
