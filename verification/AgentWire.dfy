// The agent's requests with their images: what stands for each message on the wire,
// over every run, text, echoed fields and parts together.
module AgentWire {
  import opened Session
  import opened ImageWindow
  import opened AgentMachine
  import opened AgentGroups
  import opened AgentImages
  import AgentRequests
  import ImageRuns

  // The images the session holds, each attached with its frozen marker.
  function Attaches(n: nat, marker: nat -> string): seq<ImageRuns.Event> {
    if n == 0 then [] else Attaches(n - 1, marker) + [ImageRuns.Attach(marker(n - 1))]
  }

  function EventOf(a: Attempt): ImageRuns.Event {
    if a.end == Skipped then ImageRuns.Skip else ImageRuns.Compose(a.ms, a.window, a.end == Accepted)
  }

  // A history of attempts as a run of ImageRuns.
  function Script(attempts: seq<Attempt>, n: nat, marker: nat -> string): seq<ImageRuns.Event> {
    if attempts == [] then Attaches(n, marker)
    else Script(attempts[..|attempts| - 1], n, marker) + [EventOf(attempts[|attempts| - 1])]
  }

  function ChatOf(s: State, marker: nat -> string): ImageRuns.Chat {
    ImageRuns.Run(Script(s.past.attempts, s.talk.imageCount, marker))
  }

  // Request j of the run is attempt j.
  predicate Records(sent: ImageRuns.Sent, a: Attempt) {
    sent.end == a.end && (a.end != Skipped ==> sent.ms == a.ms && sent.window == a.window)
  }

  lemma {:induction false} AttachesRun(n: nat, marker: nat -> string)
    ensures ImageRuns.AllowedRun(Attaches(n, marker))
    ensures var c := ImageRuns.Run(Attaches(n, marker)); c.log == [] && |c.images.markers| == n
  {
    if n == 0 {
      ImageRuns.RunOfNothing();
    } else {
      AttachesRun(n - 1, marker);
      hide ImageRuns.Run, ImageRuns.AllowedRun;
      ImageRuns.OneMore(Attaches(n - 1, marker), ImageRuns.Attach(marker(n - 1)));
    }
  }

  lemma ScriptStep(c: ImageRuns.Chat, attempts: seq<Attempt>, a: Attempt, n: nat)
    requires Formed(c.images) && |c.images.markers| == n && |c.log| == |attempts|
    requires forall j :: 0 <= j < |attempts| ==> Records(c.log[j], attempts[j]) && IdsOf(c.log[j].ms) <= IdsOf(attempts[j].ms)
    requires forall j :: 0 <= j < |attempts| ==> IdsOf(attempts[j].ms) <= IdsOf(a.ms)
    requires Named(a.ms, n)
    ensures ImageRuns.Allowed(c, EventOf(a))
    ensures var d := ImageRuns.Apply(c, EventOf(a)); var all := attempts + [a];
      && |d.images.markers| == n && |d.log| == |all|
      && forall j :: 0 <= j < |all| ==> Records(d.log[j], all[j]) && IdsOf(d.log[j].ms) <= IdsOf(all[j].ms)
  {
    assert IdsOf([]) == {};
    hide IdsOf, Wire, Stamped;
  }

  lemma {:induction false} ScriptRuns(attempts: seq<Attempt>, session: seq<Message>, n: nat, marker: nat -> string)
    requires Growing(attempts, session) && Named(session, n)
    ensures ImageRuns.AllowedRun(Script(attempts, n, marker))
    ensures var c := ImageRuns.Run(Script(attempts, n, marker));
      && |c.images.markers| == n && |c.log| == |attempts|
      && forall j :: 0 <= j < |attempts| ==> Records(c.log[j], attempts[j]) && IdsOf(c.log[j].ms) <= IdsOf(attempts[j].ms)
  {
    if attempts == [] {
      AttachesRun(n, marker);
    } else {
      var before, a := attempts[..|attempts| - 1], attempts[|attempts| - 1];
      assert Named(a.ms, n);
      assert Growing(before, session);
      hide Named, IdsOf;
      ScriptRuns(before, session, n, marker);
      hide ImageRuns.Run, ImageRuns.AllowedRun;
      ScriptStep(ImageRuns.Run(Script(before, n, marker)), before, a, n);
      hide ImageRuns.Apply, ImageRuns.Allowed, EventOf;
      ImageRuns.OneMore(Script(before, n, marker), EventOf(a));
      assert before + [a] == attempts;
    }
  }

  // The attempt that was the k-th accepted.
  function Place(attempts: seq<Attempt>, k: nat): (p: nat)
    requires k < |Accepts(attempts)|
    ensures p < |attempts| && attempts[p].end == Accepted && attempts[p].ms == Accepts(attempts)[k]
  {
    var before := attempts[..|attempts| - 1];
    if k < |Accepts(before)| then Place(before, k) else |attempts| - 1
  }

  lemma {:induction false} PlacesGrow(attempts: seq<Attempt>, k: nat, l: nat)
    requires k <= l < |Accepts(attempts)|
    ensures Place(attempts, k) <= Place(attempts, l)
  {
    var before := attempts[..|attempts| - 1];
    if l < |Accepts(before)| {
      PlacesGrow(before, k, l);
    }
  }

  // Where the k-th accepted request stands among the attempts.
  function At(s: State, k: nat): nat
    requires Pictured(s) && k < |s.past.sent|
  {
    Place(s.past.attempts, k)
  }

  // The run of a reachable state's attempts, with the accepted ones where they stand.
  lemma ReachableChat(s: State, marker: nat -> string)
    requires Reachable(s)
    ensures Pictured(s) && ImageRuns.AllowedRun(Script(s.past.attempts, s.talk.imageCount, marker))
    ensures var c := ChatOf(s, marker);
      && ImageRuns.Kept(c) && |c.log| == |s.past.attempts|
      && forall j :: 0 <= j < |c.log| ==> Records(c.log[j], s.past.attempts[j])
  {
    ReachablePictured(s);
    hide ImageRuns.AllowedRun, ImageRuns.Run, ImageRuns.Kept, Script;
    ScriptRuns(s.past.attempts, s.talk.session, s.talk.imageCount, marker);
    ImageRuns.EveryRunKeeps(Script(s.past.attempts, s.talk.imageCount, marker));
  }

  lemma SentIsLogged(s: State, marker: nat -> string, k: nat)
    requires Reachable(s) && Pictured(s) && k < |s.past.sent|
    ensures var c := ChatOf(s, marker); var p := At(s, k);
      p < |c.log| && c.log[p].end == Accepted && c.log[p].ms == Transcript(s.past.sent[k]) && |c.log[p].wire| == |s.past.sent[k].wire|
  {
    ReachableChat(s, marker);
    hide ImageRuns.Run, Script, Reachable, ChatOf;
    assert Accepts(s.past.attempts)[k] == Transcripts(s.past.sent)[k];
    var c := ChatOf(s, marker);
    assert Records(c.log[At(s, k)], s.past.attempts[At(s, k)]);
  }

  // One message on the wire: its text, calls and echoed fields, and its content and
  // parts.
  datatype Body = Body(echo: AgentMachine.WireMessage, shown: ImageWindow.WireMessage)

  function Zip(wire: seq<AgentMachine.WireMessage>, shown: seq<ImageWindow.WireMessage>): (b: seq<Body>)
    requires |wire| == |shown|
    ensures |b| == |wire| && forall i :: 0 <= i < |b| ==> b[i] == Body(wire[i], shown[i])
  {
    seq(|wire|, i requires 0 <= i < |wire| => Body(wire[i], shown[i]))
  }

  // The k-th accepted request.
  ghost function Bodies(s: State, marker: nat -> string, k: nat): seq<Body>
    requires Reachable(s) && k < |s.past.sent|
  {
    ReachablePictured(s);
    SentIsLogged(s, marker, k);
    Zip(s.past.sent[k].wire, ChatOf(s, marker).log[At(s, k)].wire)
  }

  ghost predicate OneWindow(s: State, i: nat, j: nat)
    requires Pictured(s) && i < |s.past.sent| && j < |s.past.sent|
  {
    s.past.attempts[At(s, i)].window == s.past.attempts[At(s, j)].window
  }

  // The two requests as the chat logs them.
  lemma TwoLogged(s: State, marker: nat -> string, i: nat, j: nat)
    requires Reachable(s) && i <= j < |s.past.sent| && Pictured(s)
    ensures var c := ChatOf(s, marker); var p, q := At(s, i), At(s, j);
      && ImageRuns.Kept(c) && p <= q < |c.log| && c.log[p].end == c.log[q].end == Accepted
      && c.log[p].ms == Transcript(s.past.sent[i]) && c.log[q].ms == Transcript(s.past.sent[j])
      && |c.log[p].wire| == |s.past.sent[i].wire| && |c.log[q].wire| == |s.past.sent[j].wire|
      && c.log[p].window == s.past.attempts[p].window && c.log[q].window == s.past.attempts[q].window
  {
    var c := ChatOf(s, marker);
    ReachableChat(s, marker);
    SentIsLogged(s, marker, i);
    SentIsLogged(s, marker, j);
    hide ImageRuns.Kept, Reachable, ChatOf, Pictured;
    PlacesGrow(s.past.attempts, i, j);
    assert Records(c.log[At(s, i)], s.past.attempts[At(s, i)]) && Records(c.log[At(s, j)], s.past.attempts[At(s, j)]);
  }

  // A later request repeats each earlier message of an earlier one, position by
  // position; under one image window the only thing it may show differently is a
  // marker where an image's picture was.
  lemma LaterRequestsOnlyAge(s: State, marker: nat -> string, i: nat, j: nat, k: nat)
    requires Reachable(s) && i <= j < |s.past.sent| && 1 <= k < |s.past.sent[i].wire|
    requires Pictured(s) && OneWindow(s, i, j)
    ensures k < |s.past.sent[j].wire| && s.past.sent[j].wire[k].message == s.past.sent[i].wire[k].message
    ensures k < |Bodies(s, marker, i)| && k < |Bodies(s, marker, j)|
    ensures ImageRuns.OnlyAged(s.past.sent[i].wire[k].message, Bodies(s, marker, i)[k].shown, Bodies(s, marker, j)[k].shown)
  {
    AgentRequests.TranscriptOnlyGrows(s, s.past.sent, i, j, k);
    TwoLogged(s, marker, i, j);
    hide ImageRuns.Kept, Reachable, ChatOf, Pictured, ImageRuns.OnlyAged, At;
    ImageRuns.MessagesOnlyAge(ChatOf(s, marker), k, At(s, i), At(s, j));
  }

  // Every image of the earlier request is still live in the later, or had aged by the
  // earlier, message by message.
  predicate AllSteady(c: ImageRuns.Chat, p: nat, q: nat)
    requires p < |c.log| && q < |c.log|
  {
    forall k :: 0 <= k < |c.log[p].ms| ==> ImageRuns.Steady(c, k, p, q)
  }

  // What the provider's prefix cache rests on, parts included: with the model
  // unchanged, neither latch closing and no image aging between them, an earlier
  // request is literally a prefix of a later one.
  lemma WholeRequestPrefixIsStable(s: State, marker: nat -> string, i: nat, j: nat)
    requires Reachable(s) && Pictured(s) && i < j < |s.past.sent| && s.past.sent[i].epoch == s.past.sent[j].epoch
    requires forall f :: Carries(f, s.past.sent[i].wire) || !Carries(f, s.past.sent[j].wire)
    requires At(s, i) < |ChatOf(s, marker).log| && At(s, j) < |ChatOf(s, marker).log| && AllSteady(ChatOf(s, marker), At(s, i), At(s, j))
    ensures Bodies(s, marker, i) <= Bodies(s, marker, j)
  {
    var c, p, q := ChatOf(s, marker), At(s, i), At(s, j);
    AgentRequests.RequestPrefixIsStable(s, s.past.sent, i, j);
    TwoLogged(s, marker, i, j);
    hide ImageRuns.Kept, Reachable, ChatOf, Pictured, At, Carries, ImageRuns.Steady;
    var a, b := s.past.sent[i].wire, s.past.sent[j].wire;
    forall k | 0 <= k < |a| ensures c.log[p].wire[k] == c.log[q].wire[k] {
      assert a[k] == b[k] && c.log[p].ms[k] == a[k].message && c.log[q].ms[k] == b[k].message;
      ImageRuns.MessagesAreByteStable(c, k, p, q);
    }
    assert Zip(a, c.log[p].wire) == Zip(b, c.log[q].wire)[..|a|];
  }

  // Attempt f is the first that shows the image.
  predicate FirstShownBy(s: State, id: nat, f: nat) {
    && f < |s.past.attempts| && s.past.attempts[f].end != Skipped && id in IdsOf(s.past.attempts[f].ms)
    && forall j :: 0 <= j < f && s.past.attempts[j].end != Skipped ==> id !in IdsOf(s.past.attempts[j].ms)
  }

  lemma FirstShownIsLogged(s: State, c: ImageRuns.Chat, id: nat, f: nat)
    requires ImageRuns.Kept(c) && |c.log| == |s.past.attempts|
    requires forall j :: 0 <= j < |c.log| ==> Records(c.log[j], s.past.attempts[j])
    requires FirstShownBy(s, id, f)
    ensures ImageRuns.FirstShown(c, id, f)
  {
    assert forall j :: 0 <= j < |c.log| ==> Records(c.log[j], s.past.attempts[j]) && (c.log[j].end == Skipped ==> c.log[j].ms == []);
    hide ImageRuns.Carried, ImageRuns.Stamps;
  }

  // An image a user or a tool gave the agent is seen by the provider if and only if one
  // of the requests in its window opened.
  lemma ImageIsSeenIff(s: State, marker: nat -> string, id: nat, f: nat)
    requires Reachable(s) && FirstShownBy(s, id, f)
    ensures ImageRuns.Seen(ChatOf(s, marker), id) <==>
      exists j :: f <= j < |s.past.attempts| && s.past.attempts[j].end == Accepted
        && (s.past.attempts[j].window == 0 || j - f < s.past.attempts[j].window)
  {
    var c := ChatOf(s, marker);
    ReachableChat(s, marker);
    hide Reachable, Pictured, Script;
    FirstShownIsLogged(s, c, id, f);
    hide ImageRuns.Kept, ImageRuns.Seen, ImageRuns.FirstShown, FirstShownBy;
    ImageRuns.SeenIff(Script(s.past.attempts, s.talk.imageCount, marker), id, f);
  }
}
