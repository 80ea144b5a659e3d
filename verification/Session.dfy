// The conversation transcript (src/session.c): an append-only sequence of
// messages whose message 0, the system prompt, may be replaced.
module Session {

  datatype ToolCall = ToolCall(id: string, name: string, args: string)

  // A NULL string of the source (an assistant message without content, trace
  // or details) is "" here.
  datatype Message =
    | System(prompt: string)
    | User(text: string, attached: seq<nat>)
    | Assistant(content: string, calls: seq<ToolCall>, reasoning: string, details: string, images: seq<nat>)
    | Tool(id: string, name: string, output: string)

  // nm_session_set_system: replace message 0, or insert one when it is missing.
  function SetSystem(ms: seq<Message>, prompt: string): seq<Message> {
    if ms != [] && ms[0].System? then ms[0 := System(prompt)] else [System(prompt)] + ms
  }

  // The messages `results` answer the leading calls of `calls`, in call order.
  predicate Answers(calls: seq<ToolCall>, results: seq<Message>) {
    && |results| <= |calls|
    && forall k :: 0 <= k < |results| ==>
         results[k].Tool? && results[k].id == calls[k].id && results[k].name == calls[k].name
  }

  // The number of messages the group that opens with `m` occupies.
  function GroupSize(m: Message): nat {
    if m.Assistant? then 1 + |m.calls| else 1
  }

  // The transcript opens with a complete group: a plain message, or a message
  // that calls tools followed at once by exactly one result per call.
  predicate LeadingGroup(ms: seq<Message>)
    requires ms != []
  {
    && !ms[0].Tool?
    && GroupSize(ms[0]) <= |ms|
    && (ms[0].Assistant? ==> Answers(ms[0].calls, ms[1..GroupSize(ms[0])]))
  }

  // The transcript is a run of complete groups.
  predicate Closed(ms: seq<Message>)
    decreases |ms|
  {
    ms == [] || (LeadingGroup(ms) && Closed(ms[GroupSize(ms[0])..]))
  }

  // The transcript ends in a group for `calls` that holds exactly `done` results.
  predicate OpenGroup(ms: seq<Message>, calls: seq<ToolCall>, done: nat) {
    && done <= |calls|
    && 0 < |calls|
    && done < |ms|
    && var h := |ms| - done - 1;
       && Closed(ms[..h])
       && ms[h].Assistant?
       && ms[h].calls == calls
       && Answers(calls, ms[h + 1..])
  }

  // A closed transcript can be extended by any closed one.
  lemma {:induction false} ClosedAppend(a: seq<Message>, b: seq<Message>)
    requires Closed(a) && Closed(b)
    ensures Closed(a + b)
    decreases |a|
  {
    if a == [] {
      assert a + b == b;
    } else {
      var n := GroupSize(a[0]);
      assert LeadingGroup(a + b) by {
        assert (a + b)[1..n] == a[1..n];
      }
      ClosedAppend(a[n..], b);
      assert (a + b)[n..] == a[n..] + b;
    }
  }

  // What the wire checks, message by message.
  lemma {:induction false} ClosedMeansAnswered(ms: seq<Message>, i: nat, k: nat)
    requires Closed(ms)
    requires i < |ms| && ms[i].Assistant? && k < |ms[i].calls|
    ensures i + 1 + k < |ms|
    ensures ms[i + 1 + k].Tool? && ms[i + 1 + k].id == ms[i].calls[k].id
    decreases |ms|
  {
    var n := GroupSize(ms[0]);
    forall j | 1 <= j < n
      ensures ms[j].Tool? && ms[j].id == ms[0].calls[j - 1].id
    {
      assert ms[j] == ms[1..n][j - 1];
    }
    if i >= n {
      assert ms[i] == ms[n..][i - n];
      ClosedMeansAnswered(ms[n..], i - n, k);
    }
  }

  // Conversely a tool result always belongs to a call: walk back over the
  // results before it and there is the assistant message that asked for it.
  lemma {:induction false} ClosedMeansAsked(ms: seq<Message>, i: nat) returns (call: nat)
    requires Closed(ms)
    requires i < |ms| && ms[i].Tool?
    ensures call < i && ms[call].Assistant? && i - call <= |ms[call].calls|
    ensures ms[call].calls[i - call - 1].id == ms[i].id
    decreases |ms|
  {
    var n := GroupSize(ms[0]);
    if i < n {
      assert ms[i] == ms[1..n][i - 1];
      call := 0;
    } else {
      assert ms[i] == ms[n..][i - n];
      var c := ClosedMeansAsked(ms[n..], i - n);
      assert ms[n + c] == ms[n..][c];
      call := n + c;
    }
  }

  // One message that neither calls tools nor answers a call keeps a
  // transcript closed.
  lemma PlainMessageKeepsClosed(ms: seq<Message>, m: Message)
    requires Closed(ms)
    requires !m.Tool? && (m.Assistant? ==> m.calls == [])
    ensures Closed(ms + [m])
  {
    assert [m][1..1] == [] && [m][1..] == [];
    assert Closed([m]);
    ClosedAppend(ms, [m]);
  }

  // A group with its last result in place is closed.
  lemma FullGroupCloses(ms: seq<Message>, calls: seq<ToolCall>)
    requires OpenGroup(ms, calls, |calls|)
    ensures Closed(ms)
  {
    var h := |ms| - |calls| - 1;
    var g := ms[h..];
    assert g[1..GroupSize(g[0])] == ms[h + 1..];
    assert g[GroupSize(g[0])..] == [];
    ClosedAppend(ms[..h], g);
    assert ms[..h] + g == ms;
  }

  // Replacing the system prompt moves no group.
  lemma SetSystemKeepsClosed(ms: seq<Message>, prompt: string)
    requires ms != [] && ms[0].System? && Closed(ms)
    ensures Closed(SetSystem(ms, prompt))
  {
    assert SetSystem(ms, prompt)[1..] == ms[1..];
  }

  lemma SetSystemKeepsOpen(ms: seq<Message>, prompt: string, calls: seq<ToolCall>, done: nat)
    requires ms != [] && ms[0].System? && OpenGroup(ms, calls, done)
    ensures OpenGroup(SetSystem(ms, prompt), calls, done)
  {
    var h := |ms| - done - 1;
    assert ms[..h][0] == ms[0];
    SetSystemKeepsClosed(ms[..h], prompt);
    assert SetSystem(ms, prompt)[..h] == SetSystem(ms[..h], prompt);
    assert SetSystem(ms, prompt)[h + 1..] == ms[h + 1..];
  }

  // Results for the next calls keep a group open, and move it forward.
  lemma ResultsExtendGroup(ms: seq<Message>, calls: seq<ToolCall>, done: nat, results: seq<Message>)
    requires OpenGroup(ms, calls, done)
    requires done + |results| <= |calls|
    requires Answers(calls[done..], results)
    ensures OpenGroup(ms + results, calls, done + |results|)
  {
    var h := |ms| - done - 1;
    var out := ms + results;
    assert out[..h] == ms[..h] && out[h] == ms[h];
    assert out[h + 1..] == ms[h + 1..] + results;
    forall k | 0 <= k < done + |results|
      ensures out[h + 1 + k].Tool? && out[h + 1 + k].id == calls[k].id && out[h + 1 + k].name == calls[k].name
    {
      if k < done {
        assert out[h + 1 + k] == ms[h + 1..][k];
      } else {
        assert out[h + 1 + k] == results[k - done] && calls[k] == calls[done..][k - done];
      }
    }
  }
}
