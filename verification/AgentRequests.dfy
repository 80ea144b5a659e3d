// What any two requests of any run share: the transcript, the system prompt of a
// model, and the layout of each echoed field.
module AgentRequests {
  import opened Common
  import opened AgentMachine
  import opened AgentPrefix
  import opened Session

  // Frozen system prompt: between two accepted requests with no model change
  // between them, message 0 is the same string, whatever the catalog answered
  // and however the git stage resolved, timed out or was cancelled.
  lemma SystemPromptIsFrozen(s: State, sent: seq<Request>, i: nat, j: nat)
    requires Reachable(s) && sent == s.past.sent
    requires i < j < |sent| && sent[i].epoch == sent[j].epoch
    ensures sent[i].wire != [] && sent[j].wire != []
    ensures sent[i].wire[0].message == sent[j].wire[0].message
  {
    ReachableHistory(s);
    assert Repeats(sent[i].wire, s.talk.session) && Repeats(sent[j].wire, s.talk.session);
    assert SamePrompt(sent[i], sent[j]);
  }

  // The transcript of a request is a prefix of every later one's, the system
  // prompt aside.
  lemma TranscriptOnlyGrows(s: State, sent: seq<Request>, i: nat, j: nat, k: nat)
    requires Reachable(s) && sent == s.past.sent
    requires i <= j < |sent| && 1 <= k < |sent[i].wire|
    ensures |sent[i].wire| <= |sent[j].wire|
    ensures sent[i].wire[k].message == sent[j].wire[k].message
  {
    ReachableHistory(s);
    assert Repeats(sent[i].wire, s.talk.session) && Repeats(sent[j].wire, s.talk.session);
  }

  // Echo prefix stability: once a request carries the field, every later
  // request gives each message of its prefix the identical field.
  lemma EchoPrefixIsStable(s: State, f: Field, sent: seq<Request>, i: nat, j: nat, k: nat)
    requires Reachable(s) && sent == s.past.sent
    requires i <= j < |sent| && Carries(f, sent[i].wire)
    requires k < |sent[i].wire| && k < |sent[j].wire|
    ensures Carried(f, sent[j].wire[k]) == Carried(f, sent[i].wire[k])
  {
    ReachableHistory(s);
    var latch := LatchOf(f, s.latches);
    assert EchoKept(f, latch, sent);
    assert ComposedWith(f, latch.mode, sent[i].wire) && ComposedWith(f, latch.mode, sent[j].wire);
    assert Repeats(sent[i].wire, s.talk.session) && Repeats(sent[j].wire, s.talk.session);
  }

  // Two requests lay the field out alike on the messages they share.
  predicate SameLayout(f: Field, a: seq<WireMessage>, b: seq<WireMessage>) {
    forall k :: 0 <= k < |a| && k < |b| ==> Carried(f, a[k]) == Carried(f, b[k])
  }

  // So the layout of the shared prefix changes at most once in a conversation:
  // a change between i and j rules out any between j and l.
  lemma LayoutChangesAtMostOnce(s: State, f: Field, sent: seq<Request>, i: nat, j: nat, l: nat)
    requires Reachable(s) && sent == s.past.sent
    requires i < j < l < |sent|
    ensures SameLayout(f, sent[i].wire, sent[j].wire) || SameLayout(f, sent[j].wire, sent[l].wire)
  {
    if Carries(f, sent[i].wire) {
      forall k | 0 <= k < |sent[i].wire| && k < |sent[j].wire|
        ensures Carried(f, sent[i].wire[k]) == Carried(f, sent[j].wire[k])
      {
        EchoPrefixIsStable(s, f, sent, i, j, k);
      }
    } else if Carries(f, sent[j].wire) {
      forall k | 0 <= k < |sent[j].wire| && k < |sent[l].wire|
        ensures Carried(f, sent[j].wire[k]) == Carried(f, sent[l].wire[k])
      {
        EchoPrefixIsStable(s, f, sent, j, l, k);
      }
    }
  }

  // The whole statement the provider's prefix cache rests on: with the model
  // unchanged and neither latch closing between them, an earlier request is
  // literally a prefix of a later one.
  lemma RequestPrefixIsStable(s: State, sent: seq<Request>, i: nat, j: nat)
    requires Reachable(s) && sent == s.past.sent
    requires i < j < |sent| && sent[i].epoch == sent[j].epoch
    requires forall f :: Carries(f, sent[i].wire) || !Carries(f, sent[j].wire)
    ensures sent[i].wire <= sent[j].wire
  {
    SystemPromptIsFrozen(s, sent, i, j);
    ReachableHistory(s);
    var a, b := sent[i].wire, sent[j].wire;
    assert |a| <= |b|;
    forall k | 0 <= k < |a|
      ensures a[k] == b[k]
    {
      if k > 0 {
        TranscriptOnlyGrows(s, sent, i, j, k);
      }
      SameField(s, ReasoningField, sent, i, j, k);
      SameField(s, SignatureField, sent, i, j, k);
    }
    assert a == b[..|a|];
  }

  lemma SameField(s: State, f: Field, sent: seq<Request>, i: nat, j: nat, k: nat)
    requires Reachable(s) && sent == s.past.sent
    requires i < j < |sent| && (Carries(f, sent[i].wire) || !Carries(f, sent[j].wire))
    requires k < |sent[i].wire| && k < |sent[j].wire|
    ensures Carried(f, sent[j].wire[k]) == Carried(f, sent[i].wire[k])
  {
    if Carries(f, sent[i].wire) {
      EchoPrefixIsStable(s, f, sent, i, j, k);
    } else {
      assert Carried(f, sent[i].wire[k]).None? && Carried(f, sent[j].wire[k]).None?;
    }
  }

  // The messages that carry their trace: none, those with tool calls, or those and
  // every other with a trace.
  predicate Traced(mode: Echo, m: Message) {
    match mode
    case EchoOff => false
    case EchoTools => m.Assistant? && m.calls != []
    case EchoAll => m.Assistant? && (m.calls != [] || m.reasoning != "")
  }

  // The messages that carry their reasoning_details: never one that has none.
  predicate Detailed(mode: Echo, m: Message) {
    match mode
    case EchoOff => false
    case EchoTools => m.Assistant? && m.calls != [] && m.details != ""
    case EchoAll => m.Assistant? && m.details != ""
  }

  // The messages with their own trace and their own details, exactly where the modes say.
  predicate Echoed(wire: seq<WireMessage>, ms: seq<Message>, echo: Echo, signature: Echo) {
    && |wire| == |ms|
    && forall k :: 0 <= k < |ms| ==>
         && wire[k].message == ms[k]
         && wire[k].reasoning == (if Traced(echo, ms[k]) then Some(ms[k].reasoning) else None)
         && wire[k].details == (if Detailed(signature, ms[k]) then Some(ms[k].details) else None)
  }

  lemma ComposeEchoes(ms: seq<Message>, echo: Echo, signature: Echo)
    ensures Echoed(Compose(ms, echo, signature), ms, echo, signature)
  {
  }

  // An accepted request is the transcript echoed under the modes in force: the frozen
  // one of a field, or the configured one, which the first request that carries the
  // field freezes.
  lemma RequestEchoes(s: State, e: RoundEnv)
    requires s.round < e.cap && e.memory && e.opens
    ensures var r := BeginRound(s, e);
      var echo := if s.latches.reasoning.Frozen? then s.latches.reasoning.mode else e.echoKey;
      var signature := if s.latches.signature.Frozen? then s.latches.signature.mode else e.signatureKey;
      && |r.past.sent| == |s.past.sent| + 1 && r.past.sent[..|s.past.sent|] == s.past.sent
      && Echoed(r.past.sent[|s.past.sent|].wire, r.talk.session, echo, signature)
      && Closed(s.latches.reasoning, r.latches.reasoning, echo, exists m :: m in r.talk.session && Traced(echo, m))
      && Closed(s.latches.signature, r.latches.signature, signature, exists m :: m in r.talk.session && Detailed(signature, m))
  {
    var p := Prepare(s, e);
    var echo, signature := ModeInForce(s.latches.reasoning, e.echoKey), ModeInForce(s.latches.signature, e.signatureKey);
    ComposeEchoes(p.talk.session, echo, signature);
    CarriesIff(WireNow(p, e), p.talk.session, echo, signature);
    hide Echoed, Carries, Compose, Traced, Detailed, Reminder;
  }

  predicate Closed(was: Latch, now: Latch, mode: Echo, carried: bool) { now == if carried then Frozen(mode) else was }

  lemma CarriesIff(wire: seq<WireMessage>, ms: seq<Message>, echo: Echo, signature: Echo)
    requires Echoed(wire, ms, echo, signature)
    ensures Carries(ReasoningField, wire) <==> exists m :: m in ms && Traced(echo, m)
    ensures Carries(SignatureField, wire) <==> exists m :: m in ms && Detailed(signature, m)
  {
    hide Traced, Detailed;
    if k :| 0 <= k < |wire| && wire[k].reasoning.Some? {
      assert ms[k] in ms;
    }
    if k :| 0 <= k < |wire| && wire[k].details.Some? {
      assert ms[k] in ms;
    }
    if m :| m in ms && Traced(echo, m) {
      var k :| 0 <= k < |ms| && ms[k] == m;
      assert Carried(ReasoningField, wire[k]).Some?;
    }
    if m :| m in ms && Detailed(signature, m) {
      var k :| 0 <= k < |ms| && ms[k] == m;
      assert Carried(SignatureField, wire[k]).Some?;
    }
  }
}
