// The deadline seam of src/agent.c: when the event loop must step the agent even
// though nothing is readable. Times are reals, in seconds.
module AgentDeadline {
  import opened AgentMachine
  import opened AgentGroups

  const WAIT_MAX := 2147483000

  // ms_until: truncated, and clamped at both ends.
  function MsUntil(deadline: real, now: real): (ms: nat)
    ensures ms as real <= if deadline > now then (deadline - now) * 1000.0 else 0.0
  {
    var left := (deadline - now) * 1000.0;
    if left <= 0.0 then 0 else if left >= WAIT_MAX as real then WAIT_MAX else left.Floor
  }

  // What the seam meets: whether the git job still has a live handle, the live
  // tool's own deadline, the stream's connect budget (negative: none), the store's
  // `timeout` (0: off), the time.
  datatype Clock = Clock(jobHandle: bool, toolMs: int, streamMs: int, timeoutMs: int, now: real)

  // The remaining stream-inactivity budget. Less than a millisecond left is not
  // due: the loop is told to come back, not to step.
  function InactivityMs(since: real, c: Clock): nat {
    if BudgetSpent(since, c.timeoutMs, c.now) then 0
    else
      var t := MsUntil(since + c.timeoutMs as real / 1000.0, c.now);
      if t == 0 then 1 else t
  }

  // The deadlines armed in a state, each as milliseconds from now.
  function Armed(s: State, c: Clock): seq<nat> {
    if !Busy(s.phase) then []
    else if s.stage.awaiting then [if s.stage.job && c.jobHandle then MsUntil(s.stage.deadline, c.now) else 0]
    else
      (if s.tools.execLive && c.toolMs >= 0 then [c.toolMs] else [])
      + (if s.streamOpen && c.streamMs >= 0 then [c.streamMs] else [])
      + (if s.streamOpen && c.timeoutMs > 0 then [InactivityMs(s.lastActivity, c)] else [])
  }

  // nm_agent_next_timeout_ms: the nearest armed deadline, -1 when none is.
  method NextTimeoutMs(s: State, c: Clock) returns (best: int)
    ensures best == -1 <==> Armed(s, c) == []
    ensures best != -1 ==> best in Armed(s, c)
    ensures forall t :: t in Armed(s, c) ==> best <= t
  {
    if s.phase != Streaming && s.phase != RunningTool {
      return -1;
    }
    if s.stage.awaiting {
      if !s.stage.job || !c.jobHandle {
        return 0;
      }
      return MsUntil(s.stage.deadline, c.now);
    }
    best := -1;
    if s.tools.execLive && c.toolMs >= 0 {
      best := c.toolMs;
    }
    if s.streamOpen && c.streamMs >= 0 && (best < 0 || c.streamMs < best) {
      best := c.streamMs;
    }
    if s.streamOpen && c.timeoutMs > 0 {
      var t := InactivityMs(s.lastActivity, c);
      if best < 0 || t < best {
        best := t;
      }
    }
  }

  // "0 = step now" is literally true: the inactivity wait reads 0 exactly when
  // the step made at that moment ends the turn, and a wait that is not 0 is never
  // more than the time left, or than one millisecond.
  lemma ZeroMeansTheStepEnforces(s: State, e: StepEnv, c: Clock)
    requires Shape(s) && s.streamOpen && c.timeoutMs > 0
    requires e.now == c.now && e.timeoutMs == c.timeoutMs && !e.finishing
    ensures InactivityMs(s.lastActivity, c) == 0 <==> BudgetSpent(s.lastActivity, c.timeoutMs, c.now)
    ensures InactivityMs(s.lastActivity, c) == 0 ==> StepTurn(s, e).phase == Failed && !StepTurn(s, e).streamOpen
    ensures InactivityMs(s.lastActivity, c) > 1 ==>
      (c.now - s.lastActivity) * 1000.0 + InactivityMs(s.lastActivity, c) as real <= c.timeoutMs as real
  {
    var deadline := s.lastActivity + c.timeoutMs as real / 1000.0;
    assert (deadline - c.now) * 1000.0 == c.timeoutMs as real - (c.now - s.lastActivity) * 1000.0;
  }

  // A wait is never longer than the time left and, below the clamp, less than one
  // millisecond shorter, so the loop neither sleeps past a deadline nor spins on it.
  lemma WaitIsClose(deadline: real, now: real)
    ensures var left, ms := (deadline - now) * 1000.0, MsUntil(deadline, now);
      && (left <= 0.0 ==> ms == 0)
      && (0.0 < left < WAIT_MAX as real ==> left - 1.0 < ms as real <= left)
      && (left >= WAIT_MAX as real ==> ms == WAIT_MAX)
  {
  }

  // The stream is given up for silence exactly when no text, trace, call or other
  // traffic has come for the whole budget; what one step receives starts it anew.
  lemma SilenceIsMeasured(s: State, e: StepEnv)
    requires Shape(s) && s.streamOpen && s.phase == Streaming && !e.streamEnds
    ensures var r := StepTurn(s, e);
      var silent := e.timeoutMs > 0 && !e.finishing && (e.now - s.lastActivity) * 1000.0 >= e.timeoutMs as real;
      && (r.phase == Failed <==> silent) && (r.streamOpen <==> !silent)
      && (!silent ==>
            r.lastActivity == if e.traffic || (exists i :: 0 <= i < |e.deltas| && !e.deltas[i].Report?) then e.now else s.lastActivity)
  {
  }

  // An opened stream starts its budget.
  lemma OpeningStartsTheBudget(s: State, e: RoundEnv)
    ensures BeginRound(s, e).phase == Streaming && !s.streamOpen && s.phase != Streaming ==>
      BeginRound(s, e).streamOpen && BeginRound(s, e).lastActivity == e.now
  {
    hide WireNow, Carries;
  }

  // Every deadline in force is armed: the git job's while it holds the turn, and else
  // the running tool's, the connection's and the silence the stream is allowed. With the
  // job's handle gone the step is due at once.
  lemma EveryDeadlineIsArmed(s: State, c: Clock)
    requires Busy(s.phase)
    ensures s.stage.awaiting && s.stage.job && c.jobHandle ==> Armed(s, c) == [MsUntil(s.stage.deadline, c.now)]
    ensures s.stage.awaiting && !(s.stage.job && c.jobHandle) ==> Armed(s, c) == [0]
    ensures !s.stage.awaiting && s.tools.execLive && c.toolMs >= 0 ==> c.toolMs in Armed(s, c)
    ensures !s.stage.awaiting && s.streamOpen && c.streamMs >= 0 ==> c.streamMs in Armed(s, c)
    ensures !s.stage.awaiting && s.streamOpen && c.timeoutMs > 0 ==> InactivityMs(s.lastActivity, c) in Armed(s, c)
  {
  }
}
