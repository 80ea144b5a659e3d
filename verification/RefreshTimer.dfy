// The background balance refresh (src/chat_app.c) and its fetch latches (src/credit.c).
// One provider, times in seconds; every reading of the clock is an input.
module RefreshTimer {
  import opened Common

  const INT_MIN := -0x8000_0000
  const INT_MAX := 0x7FFF_FFFF

  // The store's half: when the purse was last fetched (0: never), the rate latch,
  // and whether a fetch is running, perhaps on the second request of a chain.
  datatype Store = Store(fetchedAt: int, nextAllowedAt: real, inFlight: bool, second: bool)

  // How a fetch ended: its document landed, its reply refused, or it was dropped.
  datatype How = Landing | Refusal(status: int, retryAfter: Option<int>) | Dropped

  // The end of a fetch: the clock when its reply was read, and once it was dealt with.
  datatype Ended = Ended(read: real, at: real, how: How)

  // What has happened: the times the refresh fired, the deadlines asked for by 429
  // replies, for each started fetch its time and those asked for before it, and how
  // the fetches ended.
  datatype Past = Past(fires: seq<real>, asked: seq<real>, starts: seq<(real, seq<real>)>, ends: seq<Ended>)

  datatype State = State(retryAt: real, store: Store, clock: real, past: Past)

  // `ttlMs` is the parsed credits_ttl key (0: off), `minInterval` the provider's
  // own floor between fetches (0: none), `chained` a provider with two requests.
  datatype Config = Config(ttlMs: int, minInterval: real, chained: bool)

  predicate Sane(c: Config) {
    && (c.ttlMs == 0 || 1000 <= c.ttlMs <= INT_MAX)
    && 0.0 <= c.minInterval <= 2147483.0
  }

  function Ttl(c: Config): real { c.ttlMs as real / 1000.0 }

  const FRESH := State(0.0, Store(0, 0.0, false, false), 0.0, Past([], [], [], []))

  // ---- Conversion to int. ----

  // What converting x to a 32-bit int yields: x truncated when it is in range;
  // out of range the language does not say, and `wild` is what the machine leaves.
  function ToInt(x: real, wild: int): int {
    if INT_MIN as real - 1.0 < x < INT_MAX as real + 1.0 then (if x >= 0.0 then x.Floor else -((-x).Floor))
    else wild
  }

  function DueAt(c: Config, s: State): real {
    var at := if s.retryAt < s.store.nextAllowedAt then s.store.nextAllowedAt else s.retryAt;
    if s.store.fetchedAt > 0 && at < s.store.fetchedAt as real + Ttl(c) then s.store.fetchedAt as real + Ttl(c) else at
  }

  // timer_credits_refresh_ms: -1 never, 0 now. `able`: a provider with a balance
  // endpoint, and unbidden traffic allowed.
  function RefreshMs(c: Config, s: State, able: bool, now: real, wild: int): int {
    if !able || Ttl(c) <= 0.0 || s.store.inFlight then -1
    else
      var ms := ToInt((DueAt(c, s) - now) * 1000.0, wild);
      if ms > 0 then ms else 0
  }

  predicate Int32(x: int) { INT_MIN <= x <= INT_MAX }

  // The wait never sleeps past the deadline, on any machine, exactly when the
  // deadline is less than 2^31 + 1 ms in the past.
  lemma NeverLateIff(c: Config, s: State, now: real)
    requires Ttl(c) > 0.0 && !s.store.inFlight
    ensures (forall wild :: Int32(wild) ==> RefreshMs(c, s, true, now, wild) as real <= Left(c, s, now))
       <==> (now - DueAt(c, s)) * 1000.0 < INT_MAX as real + 2.0
  {
    var x := (DueAt(c, s) - now) * 1000.0;
    assert (now - DueAt(c, s)) * 1000.0 == -x;
    if -x < INT_MAX as real + 2.0 {
      forall wild | Int32(wild) ensures RefreshMs(c, s, true, now, wild) as real <= Left(c, s, now) {
        if x >= INT_MAX as real + 1.0 {
          assert wild as real <= INT_MAX as real;
        }
      }
    } else {
      assert Int32(1) && RefreshMs(c, s, true, now, 1) == 1;
      assert Left(c, s, now) == 0.0;
    }
  }

  // Milliseconds left, 0 when overdue.
  function Left(c: Config, s: State, now: real): real {
    if DueAt(c, s) > now then (DueAt(c, s) - now) * 1000.0 else 0.0
  }

  // "Due now" is never a millisecond early, on any machine, exactly when the
  // deadline is less than 2^31 ms ahead.
  lemma NeverEarlyIff(c: Config, s: State, now: real)
    requires Ttl(c) > 0.0 && !s.store.inFlight
    ensures (forall wild :: Int32(wild) && RefreshMs(c, s, true, now, wild) == 0 ==> (DueAt(c, s) - now) * 1000.0 < 1.0)
       <==> (DueAt(c, s) - now) * 1000.0 < INT_MAX as real + 1.0
  {
    var x := (DueAt(c, s) - now) * 1000.0;
    if x >= INT_MAX as real + 1.0 {
      assert Int32(INT_MIN) && RefreshMs(c, s, true, now, INT_MIN) == 0;
    }
  }

  // ---- Steps. ----

  // nm_credits_fetch_begin; `opens`: the endpoint, the base URL and the transport
  // let it start.
  function FetchBegin(s: State, now: real, opens: bool): State {
    if s.store.inFlight || now < s.store.nextAllowedAt || !opens then s.(clock := now)
    else
      s.(clock := now, store := s.store.(inFlight := true, second := false),
         past := s.past.(starts := s.past.starts + [(now, s.past.asked)]))
  }

  // A finished request: its document (with `more`: the second request of a chain
  // opens), or a failure with its status and Retry-After header.
  datatype Reply = Landed(more: bool) | Refused(status: int, retryAfter: Option<int>)

  function Seconds(retryAfter: Option<int>): int {
    if retryAfter.Some? && retryAfter.value > 0 then retryAfter.value else 60
  }

  // nm_credits_fetch_step past PENDING; the clock is read twice on success.
  function FetchStep(c: Config, s: State, now: real, later: real, r: Reply): State {
    if !s.store.inFlight then s.(clock := later)
    else match r
      case Landed(more) =>
        if c.chained && !s.store.second && more then s.(clock := later, store := s.store.(second := true))
        else
          s.(clock := later, store := Store(now.Floor, if c.minInterval > 0.0 then later + c.minInterval else s.store.nextAllowedAt, false, false),
             past := s.past.(ends := s.past.ends + [Ended(now, later, Landing)]))
      case Refused(status, retryAfter) =>
        if status == 429 then
          var until := later + Seconds(retryAfter) as real;
          s.(clock := later, store := s.store.(nextAllowedAt := until, inFlight := false, second := false),
             past := s.past.(asked := s.past.asked + [until], ends := s.past.ends + [Ended(now, later, Refusal(status, retryAfter))]))
        else
          s.(clock := later, store := s.store.(nextAllowedAt := if c.minInterval > 0.0 then later + c.minInterval else s.store.nextAllowedAt,
                                               inFlight := false, second := false),
             past := s.past.(ends := s.past.ends + [Ended(now, later, Refusal(status, retryAfter))]))
  }

  // timer_credits_refresh_fire: the next window is armed first.
  function Fire(c: Config, s: State, now: real, later: real, opens: bool): State {
    var armed := s.(retryAt := now + Ttl(c), clock := now, past := s.past.(fires := s.past.fires + [now]));
    FetchBegin(armed, later, opens)
  }

  datatype Event =
    | Tick(t0: real, t1: real, t2: real, able: bool, opens: bool, wild: int)
    | Begin(t0: real, bidden: bool)
    | Step(t0: real, t1: real, reply: Reply)
    | End(t0: real)

  function Apply(c: Config, s: State, e: Event): State {
    match e
    case Tick(t0, t1, t2, able, opens, wild) =>
      if RefreshMs(c, s, able, t0, wild) == 0 then Fire(c, s, t1, t2, opens) else s.(clock := t0)
    case Begin(t0, opens) => FetchBegin(s, t0, opens)
    case Step(t0, t1, reply) => FetchStep(c, s, t0, t1, reply)
    case End(t0) =>
      s.(clock := t0, store := s.store.(inFlight := false, second := false),
         past := if s.store.inFlight then s.past.(ends := s.past.ends + [Ended(t0, t0, Dropped)]) else s.past)
  }

  // The clock never runs back, a conversion leaves an int, and no reply asks for
  // more than `limit` seconds.
  predicate Plausible(s: State, e: Event, limit: int) {
    match e
    case Tick(t0, t1, t2, _, _, wild) => s.clock <= t0 <= t1 <= t2 && Int32(wild)
    case Begin(t0, _) => s.clock <= t0
    case Step(t0, t1, reply) => s.clock <= t0 <= t1 && (reply.Refused? && reply.status == 429 ==> Seconds(reply.retryAfter) <= limit)
    case End(t0) => s.clock <= t0
  }

  function Run(c: Config, es: seq<Event>): State {
    if es == [] then FRESH else Apply(c, Run(c, es[..|es| - 1]), es[|es| - 1])
  }

  predicate PlausibleRun(c: Config, es: seq<Event>, limit: int) {
    es == [] || (PlausibleRun(c, es[..|es| - 1], limit) && Plausible(Run(c, es[..|es| - 1]), es[|es| - 1], limit))
  }

  // ---- The refresh cannot spin. ----

  predicate Spaced(c: Config, fires: seq<real>) {
    forall i :: 0 <= i < |fires| - 1 ==> fires[i + 1] - fires[i] > Ttl(c) - 0.001
  }

  // What every run keeps: the retry gate is a TTL after the last fire, and no gate
  // is further ahead than the windows that set it.
  predicate Armed(c: Config, s: State) {
    && Spaced(c, s.past.fires)
    && (s.past.fires != [] ==> s.retryAt == s.past.fires[|s.past.fires| - 1] + Ttl(c))
    && s.retryAt <= s.clock + Ttl(c)
    && s.store.fetchedAt as real <= s.clock
    && s.store.nextAllowedAt <= s.clock + 2147483.0
    && s.clock >= 0.0
  }

  lemma ApplyKeepsArmed(c: Config, s: State, e: Event)
    requires Sane(c) && Armed(c, s) && Plausible(s, e, 2147483)
    ensures Armed(c, Apply(c, s, e))
  {
    if e.Tick? && RefreshMs(c, s, e.able, e.t0, e.wild) == 0 {
      assert (DueAt(c, s) - e.t0) * 1000.0 < INT_MAX as real + 1.0;
      NeverEarlyIff(c, s, e.t0);
      assert DueAt(c, s) - e.t0 < 0.001;
      assert s.past.fires != [] ==> e.t1 > s.retryAt - 0.001;
    }
  }

  lemma {:induction false} RefreshNeverSpins(c: Config, es: seq<Event>)
    requires Sane(c) && PlausibleRun(c, es, 2147483)
    ensures Armed(c, Run(c, es))
  {
    if es != [] {
      RefreshNeverSpins(c, es[..|es| - 1]);
      ApplyKeepsArmed(c, Run(c, es[..|es| - 1]), es[|es| - 1]);
    }
  }

  // A reply that asks for more than 2147483 s puts the deadline beyond what an
  // int of milliseconds holds, and the refresh may then fire twice at one instant.
  lemma HugeRetryAfterSpins(c: Config, secs: int) returns (es: seq<Event>)
    requires Sane(c) && c.ttlMs > 0 && secs > 2147483
    ensures PlausibleRun(c, es, secs)
    ensures Run(c, es).past.fires == [1.0, 1.0]
  {
    var first := Tick(1.0, 1.0, 1.0, true, true, 0);
    var reply := Step(1.0, 1.0, Refused(429, Some(secs)));
    var second := Tick(1.0, 1.0, 1.0, true, true, INT_MIN);
    var s1 := Apply(c, FRESH, first);
    assert s1.past.fires == [1.0];
    var s2 := Apply(c, s1, reply);
    assert s2.store.nextAllowedAt == 1.0 + secs as real;
    assert (DueAt(c, s2) - 1.0) * 1000.0 >= secs as real * 1000.0 >= INT_MAX as real + 1.0;
    es := [first, reply, second];
    RunOfThree(c, first, reply, second, secs);
  }

  lemma RunOneMore(c: Config, es: seq<Event>, e: Event, limit: int)
    ensures Run(c, es + [e]) == Apply(c, Run(c, es), e)
    ensures PlausibleRun(c, es + [e], limit) <==> PlausibleRun(c, es, limit) && Plausible(Run(c, es), e, limit)
  {
    assert (es + [e])[..|es|] == es;
  }

  lemma RunOfThree(c: Config, a: Event, b: Event, d: Event, limit: int)
    ensures Run(c, [a, b, d]) == Apply(c, Apply(c, Apply(c, FRESH, a), b), d)
    ensures Plausible(FRESH, a, limit) && Plausible(Apply(c, FRESH, a), b, limit) && Plausible(Apply(c, Apply(c, FRESH, a), b), d, limit)
      ==> PlausibleRun(c, [a, b, d], limit)
  {
    hide Apply, Plausible;
    RunOneMore(c, [], a, limit);
    assert [] + [a] == [a];
    RunOneMore(c, [a], b, limit);
    assert [a] + [b] == [a, b];
    RunOneMore(c, [a, b], d, limit);
    assert [a, b] + [d] == [a, b, d];
  }

  // Whatever starts, fails or is latched, fires are more than TTL - 1 ms apart in
  // every run exactly when no reply asks for more than 2147483 s.
  lemma SpacingHoldsIff(c: Config, limit: int)
    requires Sane(c) && c.ttlMs > 0
    ensures (forall es :: PlausibleRun(c, es, limit) ==> Spaced(c, Run(c, es).past.fires)) <==> limit <= 2147483
  {
    if limit <= 2147483 {
      forall es | PlausibleRun(c, es, limit) ensures Spaced(c, Run(c, es).past.fires) {
        LimitWidens(c, es, limit, 2147483);
        RefreshNeverSpins(c, es);
      }
    } else {
      var es := HugeRetryAfterSpins(c, limit);
      var fires := Run(c, es).past.fires;
      assert fires[1] - fires[0] == 0.0;
      assert !Spaced(c, fires);
    }
  }

  lemma {:induction false} LimitWidens(c: Config, es: seq<Event>, limit: int, wider: int)
    requires PlausibleRun(c, es, limit) && limit <= wider
    ensures PlausibleRun(c, es, wider)
  {
    if es != [] {
      LimitWidens(c, es[..|es| - 1], limit, wider);
    }
  }

  // ---- When a tick fires, by what has happened. ----

  // The second the last landing recorded.
  function LastLanding(ends: seq<Ended>): Option<int> {
    if ends == [] then None
    else if ends[|ends| - 1].how.Landing? then Some(ends[|ends| - 1].read.Floor)
    else LastLanding(ends[..|ends| - 1])
  }

  // Until when the last reply that says so holds every fetch back: as long as a 429
  // asks, a minute when it does not say, and the provider's own floor after any other.
  function HeldUntil(c: Config, ends: seq<Ended>): Option<real> {
    if ends == [] then None
    else
      var last, before := ends[|ends| - 1], HeldUntil(c, ends[..|ends| - 1]);
      match last.how
      case Dropped => before
      case Landing => if c.minInterval > 0.0 then Some(last.at + c.minInterval) else before
      case Refusal(status, retryAfter) =>
        if status == 429 then
          Some(last.at + (if retryAfter.Some? && retryAfter.value > 0 then retryAfter.value else 60) as real)
        else if c.minInterval > 0.0 then Some(last.at + c.minInterval)
        else before
  }

  // The times before which a tick does not fire: a TTL after the last fire, a TTL after
  // the last landing, and the end of the hold. A landing in the clock's first second
  // counts as none.
  function Gates(c: Config, p: Past): seq<real> {
    (if p.fires == [] then [] else [p.fires[|p.fires| - 1] + Ttl(c)])
    + (match LastLanding(p.ends) case None => [] case Some(sec) => if sec > 0 then [sec as real + Ttl(c)] else [])
    + (match HeldUntil(c, p.ends) case None => [] case Some(until) => [until])
  }

  // The fields are what the history says.
  predicate Recalls(c: Config, s: State) {
    && s.retryAt == (if s.past.fires == [] then 0.0 else s.past.fires[|s.past.fires| - 1] + Ttl(c))
    && s.store.fetchedAt == (match LastLanding(s.past.ends) case None => 0 case Some(sec) => sec)
    && s.store.nextAllowedAt == (match HeldUntil(c, s.past.ends) case None => 0.0 case Some(until) => until)
    && |s.past.starts| == |s.past.ends| + if s.store.inFlight then 1 else 0
  }

  lemma EndedMore(c: Config, ends: seq<Ended>, e: Ended)
    ensures LastLanding(ends + [e]) == if e.how.Landing? then Some(e.read.Floor) else LastLanding(ends)
    ensures e.how.Dropped? ==> HeldUntil(c, ends + [e]) == HeldUntil(c, ends)
    ensures e.how == Landing || (e.how.Refusal? && e.how.status != 429) ==>
      HeldUntil(c, ends + [e]) == if c.minInterval > 0.0 then Some(e.at + c.minInterval) else HeldUntil(c, ends)
    ensures e.how.Refusal? && e.how.status == 429 ==> HeldUntil(c, ends + [e]) == Some(e.at + Seconds(e.how.retryAfter) as real)
  {
    assert (ends + [e])[..|ends|] == ends;
  }

  lemma ApplyRecalls(c: Config, s: State, e: Event)
    requires Recalls(c, s)
    ensures Recalls(c, Apply(c, s, e))
  {
    hide LastLanding, HeldUntil;
    match e
    case Step(t0, t1, reply) =>
      var how := match reply case Landed(_) => Landing case Refused(status, retryAfter) => Refusal(status, retryAfter);
      EndedMore(c, s.past.ends, Ended(t0, t1, how));
    case End(t0) => EndedMore(c, s.past.ends, Ended(t0, t0, Dropped));
    case _ =>
  }

  lemma {:induction false} RunRecalls(c: Config, es: seq<Event>)
    ensures Recalls(c, Run(c, es))
  {
    if es != [] {
      RunRecalls(c, es[..|es| - 1]);
      hide Recalls, Apply;
      ApplyRecalls(c, Run(c, es[..|es| - 1]), es[|es| - 1]);
    }
  }

  predicate Passed(gates: seq<real>, now: real) { forall g :: g in gates ==> g < now + 0.001 }

  // Some gate, or the clock's start, is less than 2^31 + 1 ms in the past.
  predicate Recent(gates: seq<real>, now: real) { now < 2147483.649 || exists g :: g in gates && now - g < 2147483.649 }

  predicate Idle(p: Past) { |p.starts| == |p.ends| }

  lemma {:induction false} FiresAreReadings(c: Config, es: seq<Event>, limit: int)
    requires PlausibleRun(c, es, limit)
    ensures var s := Run(c, es); s.clock >= 0.0 && forall i :: 0 <= i < |s.past.fires| ==> s.past.fires[i] >= 0.0
  {
    if es != [] {
      FiresAreReadings(c, es[..|es| - 1], limit);
    }
  }

  lemma DueIsAGate(c: Config, s: State)
    requires Recalls(c, s) && (s.past.fires != [] ==> s.past.fires[|s.past.fires| - 1] >= 0.0) && Ttl(c) > 0.0
    ensures DueAt(c, s) >= 0.0 && (DueAt(c, s) == 0.0 || DueAt(c, s) in Gates(c, s.past))
    ensures forall g :: g in Gates(c, s.past) ==> g <= DueAt(c, s)
  {
    hide LastLanding, HeldUntil;
    var a: seq<real> := if s.past.fires == [] then [] else [s.past.fires[|s.past.fires| - 1] + Ttl(c)];
    var b: seq<real> := match LastLanding(s.past.ends) case None => [] case Some(sec) => if sec > 0 then [sec as real + Ttl(c)] else [];
    var d: seq<real> := match HeldUntil(c, s.past.ends) case None => [] case Some(until) => [until];
    assert Gates(c, s.past) == a + b + d;
    assert s.store.fetchedAt > 0 ==> b == [s.store.fetchedAt as real + Ttl(c)];
    assert s.store.fetchedAt <= 0 ==> b == [];
  }

  lemma DueIsLastGate(c: Config, s: State, now: real)
    requires Recalls(c, s) && Ttl(c) > 0.0 && now >= 0.0
    requires s.past.fires != [] ==> s.past.fires[|s.past.fires| - 1] >= 0.0
    ensures Passed(Gates(c, s.past), now) <==> DueAt(c, s) < now + 0.001
    ensures Recent(Gates(c, s.past), now) <==> now - DueAt(c, s) < 2147483.649
  {
    DueIsAGate(c, s);
    hide Gates, DueAt, Recalls;
  }

  // While no reply asks for more than 2147483 s, a tick fires exactly when the refresh
  // is on, no fetch is running and every gate has passed, to the millisecond; save that
  // after 24 idle days the wait is what the machine's conversion leaves.
  lemma TickFiresIff(c: Config, es: seq<Event>, e: Event)
    requires Sane(c) && PlausibleRun(c, es, 2147483) && e.Tick? && Plausible(Run(c, es), e, 2147483)
    ensures var p, q := Run(c, es).past, Apply(c, Run(c, es), e).past;
      if e.able && c.ttlMs > 0 && Idle(p) && Passed(Gates(c, p), e.t0) && (e.wild <= 0 || Recent(Gates(c, p), e.t0))
      then q.fires == p.fires + [e.t1] else q.fires == p.fires
  {
    var s := Run(c, es);
    RefreshNeverSpins(c, es);
    RunRecalls(c, es);
    FiresAreReadings(c, es, 2147483);
    hide Gates, Run, Passed, Recent, LastLanding, HeldUntil;
    if Ttl(c) > 0.0 {
      DueIsLastGate(c, s, e.t0);
      hide Recalls;
      assert DueAt(c, s) - e.t0 <= 2147483.0 + Ttl(c);
    }
  }

  // A fetch asked for starts exactly when none is running, no reply holds it back and
  // the machine lets it.
  lemma FetchStartsIff(c: Config, es: seq<Event>, now: real, opens: bool)
    requires now >= 0.0
    ensures var s := Run(c, es); var p, q := s.past, FetchBegin(s, now, opens).past; var held := HeldUntil(c, p.ends);
      if Idle(p) && opens && (held.Some? ==> now >= held.value) then |q.starts| == |p.starts| + 1 && q.starts[|p.starts|].0 == now
      else q.starts == p.starts
  {
    RunRecalls(c, es);
    hide Run, LastLanding, HeldUntil;
  }

  // A reply ends the fetch that is running, but for the first of the two documents of a
  // chain, which asks for the second.
  lemma ReplyEndsFetchIff(c: Config, s: State, now: real, later: real, r: Reply)
    requires s.store.inFlight
    ensures var p, t := s.past, FetchStep(c, s, now, later, r); var how := match r case Landed(_) => Landing case Refused(status, retryAfter) => Refusal(status, retryAfter);
      if r == Landed(true) && c.chained && !s.store.second
      then t.past == p && t.store.inFlight && t.store.second
      else t.past.ends == p.ends + [Ended(now, later, how)] && !t.store.inFlight
  {
  }

  // A full TTL, to the millisecond, lies between a landing and the next fire, whoever
  // began the fetch; a landing in the clock's first second is the one exception.
  lemma FireWaitsForLanding(c: Config, es: seq<Event>, e: Event)
    requires Sane(c) && PlausibleRun(c, es, 2147483) && e.Tick? && Plausible(Run(c, es), e, 2147483)
    ensures var p, q := Run(c, es).past, Apply(c, Run(c, es), e).past; var landed := LastLanding(p.ends);
      q.fires != p.fires && landed.Some? && landed.value > 0 ==>
        |q.fires| > 0 && q.fires[|q.fires| - 1] > landed.value as real + Ttl(c) - 0.001
  {
    TickFiresIff(c, es, e);
    var p := Run(c, es).past;
    hide Run, Apply, LastLanding, HeldUntil, Recent;
    match LastLanding(p.ends) {
      case Some(sec) => if sec > 0 { assert sec as real + Ttl(c) in Gates(c, p); }
      case None =>
    }
  }

  // Fetched by hand half a second after the clock's start, and again by the timer a
  // tenth of a second later.
  lemma FirstSecondIsForgotten(c: Config) returns (es: seq<Event>)
    requires Sane(c) && c.ttlMs > 0 && c.minInterval == 0.0
    ensures PlausibleRun(c, es, 0)
    ensures LastLanding(Run(c, es).past.ends) == Some(0) && Run(c, es).past.fires == [0.6]
  {
    var begin, reply, tick := Begin(0.5, true), Step(0.5, 0.5, Landed(false)), Tick(0.6, 0.6, 0.6, true, true, 0);
    var s1 := Apply(c, FRESH, begin);
    assert s1 == State(0.0, Store(0, 0.0, true, false), 0.5, Past([], [], [(0.5, [])], []));
    var s2 := Apply(c, s1, reply);
    assert s2 == State(0.0, Store(0, 0.0, false, false), 0.5, Past([], [], [(0.5, [])], [Ended(0.5, 0.5, Landing)]));
    assert (DueAt(c, s2) - 0.6) * 1000.0 == -600.0;
    assert RefreshMs(c, s2, true, 0.6, 0) == 0;
    var s3 := Apply(c, s2, tick);
    assert s3.past.ends == [Ended(0.5, 0.5, Landing)];
    es := [begin, reply, tick];
    RunOfThree(c, begin, reply, tick, 0);
  }

  // ---- The rate latch. ----

  // Every deadline a 429 asked for has passed, or is still latched; a running
  // fetch started after all of them.
  predicate Latched(s: State) {
    && (forall u :: u in s.past.asked ==> u <= s.clock || (u <= s.store.nextAllowedAt && !s.store.inFlight))
    && (forall p :: p in s.past.starts ==> forall u :: u in p.1 ==> u <= p.0)
  }

  lemma ApplyKeepsLatched(c: Config, s: State, e: Event, limit: int)
    requires Latched(s) && Plausible(s, e, limit)
    ensures Latched(Apply(c, s, e))
  {
  }

  // No fetch starts, on the timer or by hand, before the time the latest and every
  // earlier 429 asked for.
  lemma {:induction false} FetchWaitsForTheLatch(c: Config, es: seq<Event>, limit: int)
    requires PlausibleRun(c, es, limit)
    ensures Latched(Run(c, es))
  {
    if es != [] {
      FetchWaitsForTheLatch(c, es[..|es| - 1], limit);
      ApplyKeepsLatched(c, Run(c, es[..|es| - 1]), es[|es| - 1], limit);
    }
  }

  // ---- The program's own form. ----

  class Refresh {
    var retryAt: real
    var fetchedAt: int
    var nextAllowedAt: real
    var inFlight: bool
    var second: bool
    ghost var clock: real
    ghost var past: Past

    ghost function Contents(): State
      reads this
    {
      State(retryAt, Store(fetchedAt, nextAllowedAt, inFlight, second), clock, past)
    }

    constructor ()
      ensures Contents() == FRESH
    {
      retryAt, fetchedAt, nextAllowedAt, inFlight, second := 0.0, 0, 0.0, false, false;
      clock, past := 0.0, Past([], [], [], []);
    }

    method CreditsDue(c: Config, able: bool) returns (due: Option<real>)
      ensures due == if able && Ttl(c) > 0.0 then Some(DueAt(c, Contents())) else None
    {
      if !able {
        return None;
      }
      var ttl := Ttl(c);
      if ttl <= 0.0 {
        return None;
      }
      var at := retryAt;
      if at < nextAllowedAt {
        at := nextAllowedAt;
      }
      if fetchedAt > 0 {
        var freshUntil := fetchedAt as real + ttl;
        if at < freshUntil {
          at := freshUntil;
        }
      }
      due := Some(at);
    }

    method RefreshMsNow(c: Config, able: bool, now: real, wild: int) returns (ms: int)
      ensures ms == RefreshMs(c, Contents(), able, now, wild)
    {
      var due := CreditsDue(c, able);
      if due.None? || inFlight {
        return -1;
      }
      ms := ToInt((due.value - now) * 1000.0, wild);
      ms := if ms > 0 then ms else 0;
    }

    method Begin(now: real, opens: bool) returns (started: bool)
      modifies this
      ensures Contents() == FetchBegin(old(Contents()), now, opens)
      ensures started <==> !old(inFlight) && inFlight
    {
      clock := now;
      if inFlight {
        return false;
      }
      if now < nextAllowedAt {
        return false;
      }
      if !opens {
        return false;
      }
      inFlight, second, started := true, false, true;
      past := past.(starts := past.starts + [(now, past.asked)]);
    }

    method Step(c: Config, now: real, later: real, r: Reply)
      modifies this
      ensures Contents() == FetchStep(c, old(Contents()), now, later, r)
    {
      clock := later;
      if !inFlight {
        return;
      }
      match r
      case Landed(more) =>
        if c.chained && !second {
          if more {
            second := true;
            return;
          }
        }
        fetchedAt, inFlight, second := now.Floor, false, false;
        past := past.(ends := past.ends + [Ended(now, later, Landing)]);
        if c.minInterval > 0.0 {
          nextAllowedAt := later + c.minInterval;
        }
      case Refused(status, retryAfter) =>
        if status == 429 {
          var secs := if retryAfter.Some? then retryAfter.value else 0;
          if secs <= 0 {
            secs := 60;
          }
          nextAllowedAt := later + secs as real;
          past := past.(asked := past.asked + [nextAllowedAt]);
        } else if c.minInterval > 0.0 {
          nextAllowedAt := later + c.minInterval;
        }
        inFlight, second := false, false;
        past := past.(ends := past.ends + [Ended(now, later, Refusal(status, retryAfter))]);
    }

    method FireNow(c: Config, now: real, later: real, opens: bool)
      modifies this
      ensures Contents() == Fire(c, old(Contents()), now, later, opens)
    {
      retryAt, clock := now + Ttl(c), now;
      past := past.(fires := past.fires + [now]);
      var _ := Begin(later, opens);
    }

    // The refresh entry's turn in nm_chat_app_tick.
    method TickRefresh(c: Config, e: Event)
      requires e.Tick?
      modifies this
      ensures Contents() == Apply(c, old(Contents()), e)
    {
      var ms := RefreshMsNow(c, e.able, e.t0, e.wild);
      if ms == 0 {
        FireNow(c, e.t1, e.t2, e.opens);
      } else {
        clock := e.t0;
      }
    }
  }

  // nm_chat_app_tick_ms: the nearest of the armed entries (0 or more) and the
  // spinner's own frame (armed when positive); -1 when nothing is.
  method TickMs(table: seq<int>, spinner: int) returns (best: int)
    ensures best == -1 <==> spinner <= 0 && forall i :: 0 <= i < |table| ==> table[i] < 0
    ensures forall i :: 0 <= i < |table| && table[i] >= 0 ==> 0 <= best <= table[i]
    ensures spinner > 0 ==> 0 <= best <= spinner
    ensures best != -1 ==> best in table || best == spinner
  {
    best := -1;
    for i := 0 to |table|
      invariant best >= -1
      invariant best == -1 <==> forall j :: 0 <= j < i ==> table[j] < 0
      invariant forall j :: 0 <= j < i && table[j] >= 0 ==> 0 <= best <= table[j]
      invariant best != -1 ==> best in table
    {
      if table[i] >= 0 && (best < 0 || table[i] < best) {
        best := table[i];
      }
    }
    if spinner > 0 && (best < 0 || spinner < best) {
      best := spinner;
    }
  }
}
