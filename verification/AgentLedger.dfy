// What every run of the agent keeps about usage: the session ledger is the sum,
// over the rounds that completed, of each round's last usage report. The
// reference is the history of rounds, not the agent's own accumulators.
module AgentLedger {
  import opened Session
  import opened AgentMachine
  import opened AgentGroups

  datatype Count = PromptCount | CompletionCount | CachedCount | WrittenCount

  // A count as a usage object reported it; negative means it did not.
  function Reading(c: Count, u: Usage): int {
    match c
    case PromptCount => u.prompt
    case CompletionCount => u.completion
    case CachedCount => u.cached
    case WrittenCount => u.written
  }

  // The usage objects a stream delivered.
  function Reports(ds: seq<Delta>): seq<Usage>
    decreases |ds|
  {
    if ds == [] then []
    else Reports(ds[..|ds| - 1]) + if ds[|ds| - 1].Report? then [ds[|ds| - 1].usage] else []
  }

  lemma {:induction false} ReportsMore(a: seq<Delta>, b: seq<Delta>)
    ensures Reports(a + b) == Reports(a) + Reports(b)
    decreases |b|
  {
    if b == [] {
      assert a + b == a;
    } else {
      var k := |b| - 1;
      ReportsMore(a, b[..k]);
      assert (a + b)[..|a + b| - 1] == a + b[..k];
    }
  }

  // A round counts when it completed and its stream carried a usage object; the
  // last object is its report.
  predicate Counts(r: RoundLog) {
    r.ending == Completed && Reports(r.deltas) != []
  }

  function LastReport(r: RoundLog): Usage
    requires Reports(r.deltas) != []
  {
    Reports(r.deltas)[|Reports(r.deltas)| - 1]
  }

  predicate Reads(c: Count, r: RoundLog) {
    Counts(r) && Reading(c, LastReport(r)) >= 0
  }

  // The sum of `value` over the rounds that reported `c`.
  function SumOver(log: seq<RoundLog>, c: Count, value: Count): int
    decreases |log|
  {
    if log == [] then 0
    else
      var k := |log| - 1;
      SumOver(log[..k], c, value)
        + if Reads(c, log[k]) && Reads(value, log[k]) then Reading(value, LastReport(log[k])) else 0
  }

  function CountedRounds(log: seq<RoundLog>): nat
    decreases |log|
  {
    if log == [] then 0 else CountedRounds(log[..|log| - 1]) + if Counts(log[|log| - 1]) then 1 else 0
  }

  predicate Ever(log: seq<RoundLog>, c: Count) {
    exists i :: 0 <= i < |log| && Reads(c, log[i])
  }

  // The last report of the latest round that counts.
  function Newest(log: seq<RoundLog>): Usage
    decreases |log|
  {
    if log == [] then NO_USAGE
    else if Counts(log[|log| - 1]) then LastReport(log[|log| - 1])
    else Newest(log[..|log| - 1])
  }

  predicate Balanced(m: Meter, log: seq<RoundLog>) {
    && m.totals.input == SumOver(log, PromptCount, PromptCount)
    && m.totals.output == SumOver(log, CompletionCount, CompletionCount)
    && m.totals.read == SumOver(log, CachedCount, CachedCount)
    && m.totals.written == SumOver(log, WrittenCount, WrittenCount)
    && m.totals.base == SumOver(log, CachedCount, PromptCount)
    && m.totals.rounds == CountedRounds(log)
    && (m.totals.inputSeen <==> Ever(log, PromptCount))
    && (m.totals.outputSeen <==> Ever(log, CompletionCount))
    && (m.totals.readSeen <==> Ever(log, CachedCount))
    && (m.totals.writtenSeen <==> Ever(log, WrittenCount))
    && m.last == Newest(log) && (m.hasUsage <==> Ever(log, PromptCount))
  }

  // While a stream is open the round's own slot holds the last object so far.
  predicate Slot(s: State) {
    s.streamOpen ==>
      var log := s.past.log;
      && log != []
      && log[|log| - 1].ending == Unfinished
      && (s.buf.usageSeen <==> Reports(log[|log| - 1].deltas) != [])
      && (s.buf.usageSeen ==> s.buf.usage == LastReport(log[|log| - 1]))
  }

  predicate Ledger(s: State) {
    Balanced(s.meter, s.past.log) && Slot(s)
  }

  // The accessors (-1 = no round ever reported the count).
  function SessionInput(t: Totals): int { if t.inputSeen then t.input else -1 }
  function SessionOutput(t: Totals): int { if t.outputSeen then t.output else -1 }
  function SessionRead(t: Totals): int { if t.readSeen then t.read else -1 }
  function SessionWritten(t: Totals): int { if t.writtenSeen then t.written else -1 }
  function SessionBase(t: Totals): int { if t.readSeen then t.base else -1 }

  // A history that differs only in a last round that does not count.
  lemma IdleTail(t: Meter, log: seq<RoundLog>, tail: seq<RoundLog>)
    requires |tail| <= 1 && (tail != [] ==> !Counts(tail[0]))
    ensures Balanced(t, log + tail) <==> Balanced(t, log)
  {
    if tail == [] {
      assert log + tail == log;
    } else {
      var all := log + tail;
      assert all[..|all| - 1] == log;
      forall c ensures Ever(all, c) <==> Ever(log, c) {
        if i :| 0 <= i < |log| && Reads(c, log[i]) {
          assert Reads(c, all[i]);
        }
      }
    }
  }

  // The sums, one round further.
  lemma OneMoreRound(log: seq<RoundLog>, r: RoundLog, c: Count, value: Count)
    ensures SumOver(log + [r], c, value) == SumOver(log, c, value)
      + if Reads(c, r) && Reads(value, r) then Reading(value, LastReport(r)) else 0
    ensures CountedRounds(log + [r]) == CountedRounds(log) + if Counts(r) then 1 else 0
    ensures Ever(log + [r], c) <==> Ever(log, c) || Reads(c, r)
    ensures Newest(log + [r]) == if Counts(r) then LastReport(r) else Newest(log)
  {
    var all := log + [r];
    assert all[..|all| - 1] == log && all[|log|] == r;
    if i :| 0 <= i < |log| && Reads(c, log[i]) {
      assert Reads(c, all[i]);
    }
  }

  // The completed round with the report `u` is folded in exactly once.
  lemma CompletingFolds(m: Meter, log: seq<RoundLog>, r: RoundLog)
    requires Balanced(m, log) && Counts(r)
    ensures Balanced(Meter(LastReport(r), m.hasUsage || LastReport(r).prompt >= 0, Account(m.totals, LastReport(r))), log + [r])
  {
    hide SumOver, Ever, CountedRounds, LastReport, Newest;
    OneMoreRound(log, r, PromptCount, PromptCount);
    OneMoreRound(log, r, CompletionCount, CompletionCount);
    OneMoreRound(log, r, CachedCount, CachedCount);
    OneMoreRound(log, r, WrittenCount, WrittenCount);
    OneMoreRound(log, r, CachedCount, PromptCount);
  }

  lemma {:induction false} DeltasFillSlot(b: Buffers, ds: seq<Delta>, next: nat)
    ensures var r := OnDeltas(b, ds, next);
      && (r.usageSeen <==> b.usageSeen || Reports(ds) != [])
      && r.usage == if Reports(ds) != [] then Reports(ds)[|Reports(ds)| - 1] else b.usage
    decreases |ds|
  {
    if ds != [] {
      DeltasFillSlot(b, ds[..|ds| - 1], next);
    }
  }

  lemma BeginRoundKeepsLedger(s: State, e: RoundEnv)
    requires Ledger(s) && !s.streamOpen
    ensures Ledger(BeginRound(s, e))
  {
    IdleTail(s.meter, s.past.log, [RoundLog([], Unfinished)]);
    hide Balanced, Carries, Compose, Reminder;
  }

  lemma ReceivedKeepsLedger(s: State, ds: seq<Delta>, now: real)
    requires Ledger(s) && s.streamOpen
    ensures Ledger(Received(s, ds, now))
  {
    DeltasFillSlot(s.buf, ds, s.talk.imageCount);
    var log := s.past.log;
    ReportsMore(log[|log| - 1].deltas, ds);
    var last := log[|log| - 1];
    assert log == log[..|log| - 1] + [last];
    IdleTail(s.meter, log[..|log| - 1], [last]);
    IdleTail(s.meter, log[..|log| - 1], [last.(deltas := last.deltas + ds)]);
    assert Streamed(log, ds) == log[..|log| - 1] + [last.(deltas := last.deltas + ds)];
    hide Balanced, OnDeltas, Reports;
  }

  lemma FailKeepsLedger(s: State, how: Ending)
    requires Ledger(s) && s.streamOpen && how != Completed
    ensures Ledger(Fail(s, how))
  {
    EndIsIdle(s.meter, s.past.log, how);
    hide Balanced, Ended;
  }

  // A round that ends otherwise than completed counts no more than it did.
  lemma EndIsIdle(m: Meter, log: seq<RoundLog>, how: Ending)
    requires log != [] && log[|log| - 1].ending == Unfinished && how != Completed
    ensures Balanced(m, Ended(log, how)) <==> Balanced(m, log)
  {
    var last := log[|log| - 1];
    assert log == log[..|log| - 1] + [last] && Ended(log, how) == log[..|log| - 1] + [last.(ending := how)];
    IdleTail(m, log[..|log| - 1], [last]);
    IdleTail(m, log[..|log| - 1], [last.(ending := how)]);
    hide Balanced;
  }

  lemma FinishRoundKeepsLedger(s: State, status: bool)
    requires Ledger(s) && s.streamOpen
    ensures Ledger(FinishRound(s, status))
  {
    if !status {
      FailKeepsLedger(s, Broken);
    } else if RoundIsVoid(s.buf) {
      FailKeepsLedger(s, Void);
    } else {
      var log, t := s.past.log, s.meter;
      var k := |log| - 1;
      var done := log[k].(ending := Completed);
      assert log[..k] + [log[k]] == log && log[..k] + [done] == Ended(log, Completed);
      IdleTail(t, log[..k], [log[k]]);
      if s.buf.usageSeen {
        CompletingFolds(t, log[..k], done);
      } else {
        IdleTail(t, log[..k], [done]);
      }
    }
  }

  lemma StreamStepKeepsLedger(s: State, e: StepEnv)
    requires Ledger(s) && s.streamOpen
    ensures Ledger(StreamStep(s, e))
  {
    FailKeepsLedger(s, Broken);
    ReceivedKeepsLedger(s, e.deltas, e.now);
    FinishRoundKeepsLedger(Received(s, e.deltas, e.now), e.status);
  }

  lemma StartKeepsLedger(s: State, e: StartEnv)
    requires Ledger(s) && Phases(s)
    ensures Ledger(StartTurn(s, e))
  {
    if !Busy(s.phase) {
      var u := s.(round := 0, talk := Greeted(s.talk, e));
      BeginRoundKeepsLedger(u, e.begin);
      var w := EnvResolved(u.(phase := Streaming, stage := u.stage.(awaiting := true)), e.job);
      BeginRoundKeepsLedger(w.(talk := Publish(w.talk)), e.begin);
    }
  }

  lemma StepKeepsLedger(s: State, e: StepEnv)
    requires Ledger(s) && Phases(s)
    ensures Ledger(StepTurn(s, e))
  {
    if s.stage.awaiting {
      var w := EnvResolved(s, e.job);
      BeginRoundKeepsLedger(w.(talk := Publish(w.talk)), e.begin);
    } else if s.phase == RunningTool {
      var c := s.(buf := s.buf.(calls := []), tools := s.tools.(index := 0));
      BeginRoundKeepsLedger(c, e.begin);
      BeginRoundKeepsLedger(c.(talk := Say(s.talk, [User(e.fanText, ImageIds(s.tools.images))])), e.begin);
    } else if s.streamOpen {
      StreamStepKeepsLedger(s, e);
    }
  }

  lemma CancelKeepsLedger(s: State)
    requires Ledger(s)
    ensures Ledger(CancelTurn(s))
  {
    if s.streamOpen {
      EndIsIdle(s.meter, s.past.log, Cancelled);
    }
    hide Balanced, Ended, CloseGroup;
  }

  lemma ModelKeepsLedger(s: State, model: string, vision: int)
    requires Ledger(s)
    ensures Ledger(ChangeModel(s, model, vision))
  {
  }

  lemma AttachKeepsLedger(s: State, accepted: bool)
    requires Ledger(s)
    ensures Ledger(Attach(s, accepted))
  {
  }

  lemma ApplyKeepsLedger(s: State, ev: Event)
    requires Ledger(s) && Phases(s)
    ensures Ledger(Apply(s, ev))
  {
    hide Ledger, StartTurn, StepTurn, CancelTurn, ChangeModel, Attach;
    match ev
    case Start(e) => StartKeepsLedger(s, e);
    case Step(e) => StepKeepsLedger(s, e);
    case Cancel => CancelKeepsLedger(s);
    case SetModel(m, v) => ModelKeepsLedger(s, m, v);
    case AttachImage(ok) => AttachKeepsLedger(s, ok);
  }

  lemma {:induction false} RunKeepsLedger(s: State, evs: seq<Event>)
    requires Ledger(s) && Shape(s)
    ensures Ledger(Run(s, evs))
    decreases |evs|
  {
    if evs != [] {
      RunKeepsLedger(s, evs[..|evs| - 1]);
      RunKeepsShape(s, evs[..|evs| - 1]);
      ApplyKeepsLedger(Run(s, evs[..|evs| - 1]), evs[|evs| - 1]);
    }
  }

  // Conservation, over every run: each total is the sum of the last reported
  // value over the completed, non-void rounds that reported it, and each
  // accessor answers -1 exactly when no such round exists.
  lemma LedgerIsConserved(s: State)
    requires Reachable(s)
    ensures Balanced(s.meter, s.past.log)
  {
    var model, prompt, job, deadline, evs :| s == Run(Init(model, prompt, job, deadline), evs);
    RunKeepsLedger(Init(model, prompt, job, deadline), evs);
  }

  lemma {:induction false} SumsAreNatural(log: seq<RoundLog>, c: Count, value: Count)
    ensures SumOver(log, c, value) >= 0
    decreases |log|
  {
    if log != [] {
      SumsAreNatural(log[..|log| - 1], c, value);
    }
  }

  // -1 is never a sum: an accessor is -1 if and only if no round reported it.
  lemma UnknownMeansNeverReported(s: State)
    requires Reachable(s)
    ensures SessionInput(s.meter.totals) == -1 <==> !Ever(s.past.log, PromptCount)
    ensures SessionOutput(s.meter.totals) == -1 <==> !Ever(s.past.log, CompletionCount)
    ensures SessionRead(s.meter.totals) == -1 <==> !Ever(s.past.log, CachedCount)
    ensures SessionWritten(s.meter.totals) == -1 <==> !Ever(s.past.log, WrittenCount)
    ensures SessionBase(s.meter.totals) == -1 <==> !Ever(s.past.log, CachedCount)
  {
    LedgerIsConserved(s);
    SumsAreNatural(s.past.log, PromptCount, PromptCount);
    SumsAreNatural(s.past.log, CompletionCount, CompletionCount);
    SumsAreNatural(s.past.log, CachedCount, CachedCount);
    SumsAreNatural(s.past.log, WrittenCount, WrittenCount);
    SumsAreNatural(s.past.log, CachedCount, PromptCount);
  }

  // The cache-read rate is a rate: reads never exceed their base when every
  // report of a cached count stays within its own prompt.
  lemma {:induction false} ReadsWithinBase(log: seq<RoundLog>)
    requires forall i :: 0 <= i < |log| && Reads(CachedCount, log[i]) ==>
      LastReport(log[i]).cached <= LastReport(log[i]).prompt
    ensures SumOver(log, CachedCount, CachedCount) <= SumOver(log, CachedCount, PromptCount)
    decreases |log|
  {
    if log != [] {
      ReadsWithinBase(log[..|log| - 1]);
    }
  }

  lemma CacheReadsWithinBase(s: State, log: seq<RoundLog>)
    requires Reachable(s) && log == s.past.log
    requires forall i :: 0 <= i < |log| && Reads(CachedCount, log[i]) ==>
      LastReport(log[i]).cached <= LastReport(log[i]).prompt
    ensures SessionRead(s.meter.totals) <= SessionBase(s.meter.totals)
  {
    LedgerIsConserved(s);
    ReadsWithinBase(log);
  }
}
