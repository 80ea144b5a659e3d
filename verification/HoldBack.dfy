// The newline hold-back of src/chat_app.c: streamed text reaches the transcript
// as it arrives, except that a trailing run of newlines is held until something
// follows it, and is dropped when the stream ends. The fold over chunks comes first,
// then the two streams that share one transcript.
module HoldBack {

  predicate Newline(c: char) { c == '\n' || c == '\r' }

  // The length of the text without its trailing newline run.
  function BodyLen(s: string): (n: nat)
    ensures n <= |s|
    ensures n > 0 ==> !Newline(s[n - 1])
    ensures forall i :: n <= i < |s| ==> Newline(s[i])
  {
    if s == [] || !Newline(s[|s| - 1]) then |s| else BodyLen(s[..|s| - 1])
  }

  function Body(s: string): string { s[..BodyLen(s)] }

  // At most one line break.
  predicate Terminator(t: string) {
    || t == []
    || (|t| == 1 && Newline(t[0]))
    || (|t| == 2 && t[0] == '\r' && t[1] == '\n')
  }

  // What a stream may have forwarded of the text it received: the text without
  // its trailing newline run, plus at most one line terminator of that run.
  predicate Forwardable(received: string, forwarded: string) {
    var n, m := BodyLen(received), |forwarded|;
    && n <= m <= |received|
    && forwarded == received[..m]
    && Terminator(received[n..m])
    && (n == 0 ==> m == 0)
  }

  // The terminator a chunk's run starts with ("\r\n" counts as one break).
  function TermLen(tail: string): (n: nat)
    ensures n <= |tail|
    ensures (forall i :: 0 <= i < |tail| ==> Newline(tail[i])) ==> Terminator(tail[..n])
  {
    if tail == [] then 0 else if |tail| >= 2 && tail[0] == '\r' && tail[1] == '\n' then 2 else 1
  }

  // ---- one stream, as a fold over its chunks -------------------------------

  datatype Held = Held(forwarded: string, hold: string)

  // stream_text: one chunk.
  function Feed(h: Held, s: string): Held {
    var n := BodyLen(s);
    if n == 0 then Held(h.forwarded, h.hold + s)
    else
      var t := n + TermLen(s[n..]);
      Held(h.forwarded + h.hold + s[..t], s[t..])
  }

  function FeedAll(chunks: seq<string>): Held
    decreases |chunks|
  {
    if chunks == [] then Held("", "") else Feed(FeedAll(chunks[..|chunks| - 1]), chunks[|chunks| - 1])
  }

  function Joined(chunks: seq<string>): string
    decreases |chunks|
  {
    if chunks == [] then "" else Joined(chunks[..|chunks| - 1]) + chunks[|chunks| - 1]
  }

  // BodyLen is the only length with its properties.
  lemma BodyLenIs(s: string, n: nat)
    requires n <= |s| && (n > 0 ==> !Newline(s[n - 1]))
    requires forall i :: n <= i < |s| ==> Newline(s[i])
    ensures BodyLen(s) == n
  {
  }

  lemma FeedNewlines(h: Held, received: string, s: string)
    requires h.forwarded + h.hold == received && Forwardable(received, h.forwarded) && BodyLen(s) == 0
    ensures h.forwarded + (h.hold + s) == received + s && Forwardable(received + s, h.forwarded)
  {
    hide BodyLen, TermLen;
    var all := received + s;
    var n, m := BodyLen(received), |h.forwarded|;
    assert h.forwarded + (h.hold + s) == all;
    BodyLenIs(all, n);
    SameStart(received, s, n, m);
  }

  lemma SameStart(a: string, b: string, n: nat, m: nat)
    requires m <= |a|
    ensures (a + b)[..m] == a[..m] && (n <= m ==> (a + b)[n..m] == a[n..m])
  {
  }

  lemma FeedBody(h: Held, received: string, s: string, n: nat, t: nat)
    requires h.forwarded + h.hold == received
    requires 0 < n == BodyLen(s) && t == n + TermLen(s[n..])
    ensures h.forwarded + h.hold + s[..t] + s[t..] == received + s
    ensures Forwardable(received + s, h.forwarded + h.hold + s[..t])
  {
    hide BodyLen, TermLen;
    var all, m := received + s, |received| + n;
    BodyLenIs(all, m);
    assert received + s[..t] == all[..|received| + t];
    assert all[m..|received| + t] == s[n..][..t - n];
  }

  // The chunk that follows keeps what was forwarded forwardable.
  lemma FeedKeeps(h: Held, received: string, s: string)
    requires h.forwarded + h.hold == received && Forwardable(received, h.forwarded)
    ensures Feed(h, s).forwarded + Feed(h, s).hold == received + s
    ensures Forwardable(received + s, Feed(h, s).forwarded)
  {
    hide BodyLen, TermLen;
    var n := BodyLen(s);
    if n == 0 {
      FeedNewlines(h, received, s);
    } else {
      FeedBody(h, received, s, n, n + TermLen(s[n..]));
    }
  }

  // Conservation, for every chunking: nothing is lost, nothing is reordered, and
  // what has been forwarded is the text without its trailing run plus at most one
  // terminator.
  lemma {:induction false} EveryChunkingConserves(chunks: seq<string>)
    ensures FeedAll(chunks).forwarded + FeedAll(chunks).hold == Joined(chunks)
    ensures Forwardable(Joined(chunks), FeedAll(chunks).forwarded)
    decreases |chunks|
  {
    if chunks != [] {
      var k := |chunks| - 1;
      EveryChunkingConserves(chunks[..k]);
      FeedKeeps(FeedAll(chunks[..k]), Joined(chunks[..k]), chunks[k]);
    }
  }

  // So two chunkings of one text, both ended, differ by a terminator at most.
  lemma ChunkingsDifferByATerminator(a: seq<string>, b: seq<string>)
    requires Joined(a) == Joined(b)
    ensures var n := BodyLen(Joined(a));
      var f, g := FeedAll(a).forwarded, FeedAll(b).forwarded;
      && n <= |f| && n <= |g| && f[..n] == g[..n] == Body(Joined(a))
      && Terminator(f[n..]) && Terminator(g[n..])
  {
    EveryChunkingConserves(a);
    EveryChunkingConserves(b);
    BodyAndTerminator(Joined(a), FeedAll(a).forwarded);
    BodyAndTerminator(Joined(a), FeedAll(b).forwarded);
  }

  lemma BodyAndTerminator(received: string, f: string)
    requires Forwardable(received, f)
    ensures BodyLen(received) <= |f| && f[..BodyLen(received)] == Body(received) && Terminator(f[BodyLen(received)..])
  {
    hide BodyLen, TermLen;
    assert f[BodyLen(received)..] == received[BodyLen(received)..|f|];
  }

  predicate AllNewlines(s: string) { forall i :: 0 <= i < |s| ==> s[i] == '\n' || s[i] == '\r' }

  // Chunk k is the last that has anything but newlines, and b is where its own end in it.
  predicate LastBody(chunks: seq<string>, k: nat, b: nat) {
    && k < |chunks| && 0 < b <= |chunks[k]| && !Newline(chunks[k][b - 1]) && AllNewlines(chunks[k][b..])
    && forall i :: k < i < |chunks| ==> AllNewlines(chunks[i])
  }

  // The length of one line break at b: the end, a CR LF, or either alone.
  function BreakAt(s: string, b: nat): nat {
    if b >= |s| then 0 else if s[b] == '\r' && b + 1 < |s| && s[b + 1] == '\n' then 2 else 1
  }

  lemma BodyEndsAt(s: string, b: nat)
    requires b <= |s| && (b > 0 ==> !Newline(s[b - 1])) && AllNewlines(s[b..])
    ensures BodyLen(s) == b && (b > 0 ==> b + TermLen(s[b..]) == b + BreakAt(s, b) <= |s|)
  {
    forall i | b <= i < |s| ensures Newline(s[i]) {
      assert s[i] == s[b..][i - b];
    }
    BodyLenIs(s, b);
  }

  // Exactly what is forwarded of any chunking: all before the last chunk with a body,
  // that body, and the first line break of the run after it; before any body, nothing.
  lemma {:induction false} ForwardedIs(chunks: seq<string>)
    ensures (forall i :: 0 <= i < |chunks| ==> AllNewlines(chunks[i])) ==> FeedAll(chunks).forwarded == ""
    ensures forall k: nat, b: nat :: LastBody(chunks, k, b) ==>
      FeedAll(chunks).forwarded == Joined(chunks[..k]) + chunks[k][..b + BreakAt(chunks[k], b)]
    decreases |chunks|
  {
    hide BodyLen, TermLen, AllNewlines, FeedAll;
    if chunks == [] {
      NothingFed();
    } else {
      ForwardedIs(chunks[..|chunks| - 1]);
      EveryChunkingConserves(chunks[..|chunks| - 1]);
      NewlinesAreHeld(chunks);
      forall k: nat, b: nat | LastBody(chunks, k, b)
        ensures FeedAll(chunks).forwarded == Joined(chunks[..k]) + chunks[k][..b + BreakAt(chunks[k], b)]
      {
        LastBodyForwards(chunks, k, b);
      }
    }
  }

  lemma NothingFed()
    ensures FeedAll([]).forwarded == "" && forall k: nat, b: nat :: !LastBody([], k, b)
  {
  }

  lemma NewlinesAreHeld(chunks: seq<string>)
    requires chunks != []
    ensures AllNewlines(chunks[|chunks| - 1]) ==> FeedAll(chunks).forwarded == FeedAll(chunks[..|chunks| - 1]).forwarded
  {
    if AllNewlines(chunks[|chunks| - 1]) {
      assert chunks[|chunks| - 1][0..] == chunks[|chunks| - 1];
      BodyEndsAt(chunks[|chunks| - 1], 0);
    }
    hide BodyLen, TermLen, AllNewlines;
  }

  lemma LastBodyForwards(chunks: seq<string>, k: nat, b: nat)
    requires LastBody(chunks, k, b)
    requires var n := |chunks| - 1; var init := chunks[..n];
      && FeedAll(init).forwarded + FeedAll(init).hold == Joined(init)
      && (AllNewlines(chunks[n]) ==> FeedAll(chunks).forwarded == FeedAll(init).forwarded)
      && (forall k: nat, b: nat :: LastBody(init, k, b) ==> FeedAll(init).forwarded == Joined(init[..k]) + init[k][..b + BreakAt(init[k], b)])
    ensures FeedAll(chunks).forwarded == Joined(chunks[..k]) + chunks[k][..b + BreakAt(chunks[k], b)]
  {
    var n := |chunks| - 1;
    if k == n {
      BodyEndsAt(chunks[n], b);
      hide BodyLen, TermLen, AllNewlines, BreakAt;
    } else {
      assert chunks[..n][..k] == chunks[..k] && chunks[..n][k] == chunks[k];
      assert LastBody(chunks[..n], k, b);
    }
  }

  // ---- the application: two streams, separators ----------------------------

  datatype Stream = Content | Reasoning

  // What reaches the transcript.
  datatype Out = Text(stream: Stream, bytes: string) | End(stream: Stream) | Blank

  predicate Speaks(o: Out) { o.Text? && exists i :: 0 <= i < |o.bytes| && !Newline(o.bytes[i]) }

  // Between two separator rows something other than newlines was forwarded; and a
  // separator is owed exactly when that is so since the last one.
  predicate Separated(out: seq<Out>) {
    forall i, j :: 0 <= i < j < |out| && out[i] == Blank && out[j] == Blank ==>
      exists k :: i < k < j && Speaks(out[k])
  }

  predicate Owed(out: seq<Out>) {
    exists k :: 0 <= k < |out| && Speaks(out[k]) && forall j :: k < j < |out| ==> out[j] != Blank
  }

  // The concatenation of what one stream forwarded since it last ended.
  function Since(out: seq<Out>, s: Stream): string
    decreases |out|
  {
    if out == [] || out[|out| - 1] == End(s) then ""
    else if out[|out| - 1].Text? && out[|out| - 1].stream == s then Since(out[..|out| - 1], s) + out[|out| - 1].bytes
    else Since(out[..|out| - 1], s)
  }

  lemma SinceMore(out: seq<Out>, s: Stream, bytes: string)
    ensures forall o :: Since(out + [Text(s, bytes)], o) == Since(out, o) + if o == s then bytes else ""
  {
    var more := out + [Text(s, bytes)];
    assert more[..|out|] == out && more[|out|] == Text(s, bytes);
    forall o | o != s ensures Since(more, o) == Since(out, o) + "" {
      assert Since(out, o) + "" == Since(out, o);
    }
  }

  // Forwarded then held is what the stream received.
  predicate Adds(out: seq<Out>, s: Stream, held: string, received: string) {
    Since(out, s) + held == received && Forwardable(received, Since(out, s))
  }

  lemma BlankAdds(out: seq<Out>, s: Stream, held: string, received: string)
    requires Adds(out, s, held, received)
    ensures Adds(out + [Blank], s, held, received)
  {
    assert (out + [Blank])[..|out|] == out;
    hide Forwardable;
  }

  lemma EndAdds(out: seq<Out>, ended: Stream, s: Stream, held: string, received: string)
    requires Adds(out, s, held, received)
    ensures if s == ended then Adds(out + [End(ended)], s, "", "") else Adds(out + [End(ended)], s, held, received)
  {
    assert (out + [End(ended)])[..|out|] == out;
  }

  // A body, and before it the run that was held, if any.
  function Pieces(s: Stream, held: string, body: string): seq<Out> {
    (if held == "" then [] else [Text(s, held)]) + [Text(s, body)]
  }

  lemma PiecesAreSent(was: seq<Out>, s: Stream, held: string, body: string)
    ensures (if held == "" then was else was + [Text(s, held)]) + [Text(s, body)] == was + Pieces(s, held, body)
  {
    if held != "" {
      assert was + [Text(s, held)] + [Text(s, body)] == was + ([Text(s, held)] + [Text(s, body)]);
    }
  }

  // What one chunk sends.
  function Spoken(s: Stream, held: string, text: string): seq<Out> {
    var n := BodyLen(text);
    if n == 0 then [] else Pieces(s, held, text[..n + TermLen(text[n..])])
  }

  lemma ChunkIs(h: Held, s: Stream, text: string)
    ensures var n := BodyLen(text);
      if n == 0 then Feed(h, text) == Held(h.forwarded, h.hold + text) && Spoken(s, h.hold, text) == []
      else
        var t := n + TermLen(text[n..]);
        Feed(h, text) == Held(h.forwarded + h.hold + text[..t], text[t..]) && Spoken(s, h.hold, text) == Pieces(s, h.hold, text[..t])
  {
  }

  // The chunk's own stream, and the other, add up after it.
  lemma ChunkAdds(was: seq<Out>, now: seq<Out>, s: Stream, held: string, received: string, text: string)
    requires Adds(was, s, held, received) && Since(now, s) == Feed(Held(Since(was, s), held), text).forwarded
    ensures Adds(now, s, Feed(Held(Since(was, s), held), text).hold, received + text)
  {
    hide Since, Feed, Forwardable;
    FeedKeeps(Held(Since(was, s), held), received, text);
  }

  lemma OtherAdds(was: seq<Out>, now: seq<Out>, s: Stream, held: string, received: string)
    requires Adds(was, s, held, received) && Since(now, s) == Since(was, s)
    ensures Adds(now, s, held, received)
  {
    hide Since, Forwardable;
  }

  // What closing an open trace sends.
  function Closing(reasoningOpen: bool, pendingSep: bool): seq<Out> {
    if !reasoningOpen then [] else [End(Reasoning)] + if pendingSep then [Blank] else []
  }

  class ChatApp {
    var hold: map<Stream, string>
    var pendingSep: bool
    var reasoningOpen: bool
    ghost var out: seq<Out>
    ghost var received: map<Stream, string>   // since the stream last ended

    ghost predicate StreamOk(s: Stream)
      reads this
    {
      s in hold && s in received && Adds(out, s, hold[s], received[s])
    }

    ghost predicate Valid()
      reads this
    {
      StreamOk(Content) && StreamOk(Reasoning) && Separated(out) && (pendingSep <==> Owed(out))
    }

    constructor ()
      ensures Valid() && out == [] && !reasoningOpen
      ensures received == map[Content := "", Reasoning := ""]
    {
      hold, pendingSep, reasoningOpen := map[Content := "", Reasoning := ""], false, false;
      out, received := [], map[Content := "", Reasoning := ""];
    }

    // emit_separator: one blank row per owed separator.
    method EmitSeparator()
      requires Valid()
      modifies this`pendingSep, this`out
      ensures Valid() && !pendingSep
      ensures out == if old(pendingSep) then old(out) + [Blank] else old(out)
    {
      hide Separated, Owed, Adds;
      if !pendingSep {
        return;
      }
      BlankKeeps(out);
      BlankAdds(out, Content, hold[Content], received[Content]);
      BlankAdds(out, Reasoning, hold[Reasoning], received[Reasoning]);
      pendingSep := false;
      out := out + [Blank];
    }

    // tui_msg_stream_end and hold_discard: the stream is over.
    method EndStream(s: Stream)
      requires Valid()
      modifies this`out, this`hold, this`received
      ensures Valid() && out == old(out) + [End(s)]
      ensures received == old(received)[s := ""] && hold == old(hold)[s := ""]
    {
      hide Separated, Owed, Adds;
      QuietKeeps(out, End(s));
      EndAdds(out, s, Content, hold[Content], received[Content]);
      EndAdds(out, s, Reasoning, hold[Reasoning], received[Reasoning]);
      out := out + [End(s)];
      hold := hold[s := ""];
      received := received[s := ""];
    }

    // Where stream_text splits a chunk: body, then one terminator, then the run.
    method Split(text: string) returns (body: nat, term: nat)
      ensures body == BodyLen(text) && term == TermLen(text[body..])
    {
      var tail := 0;
      while tail < |text| && Newline(text[|text| - 1 - tail])
        invariant tail <= |text|
        invariant forall i :: |text| - tail <= i < |text| ==> Newline(text[i])
      {
        tail := tail + 1;
      }
      body := |text| - tail;
      BodyLenIs(text, body);
      term := 0;
      if tail > 0 {
        term := if tail >= 2 && text[body] == '\r' && text[body + 1] == '\n' then 2 else 1;
      }
    }

    // stream_text, with hold_flush and hold_append.
    method StreamText(s: Stream, text: string)
      requires Valid()
      modifies this
      ensures Valid()
      ensures received == old(received)[s := old(received)[s] + text]
      ensures reasoningOpen == (old(reasoningOpen) || (s == Reasoning && text != ""))
      ensures forall o :: o != s ==> Since(out, o) == Since(old(out), o)
      ensures Since(out, s) == Feed(Held(Since(old(out), s), old(hold)[s]), text).forwarded
      ensures hold == old(hold)[s := Feed(Held(Since(old(out), s), old(hold)[s]), text).hold]
      ensures out == old(out) + Spoken(s, old(hold)[s], text)
      ensures pendingSep == (old(pendingSep) || BodyLen(text) > 0)
    {
      hide Separated, Owed, Adds, Forwardable, Speaks, BodyLen, TermLen, Since, Pieces, Feed, Spoken;
      ghost var was, other := out, if s == Content then Reasoning else Content;
      ChunkIs(Held(Since(out, s), hold[s]), s, text);
      assert was + [] == was;
      if |text| == 0 {
        assert received[s] + text == received[s] && hold[s] + text == hold[s];
        return;
      }
      if s == Reasoning {
        reasoningOpen := true;
      }
      var body, term := Split(text);
      if body == 0 {
        hold := hold[s := hold[s] + text];      // nothing but newlines: all held
      } else {
        Interior(s, text, body + term);
      }
      received := received[s := received[s] + text];
      ChunkAdds(was, out, s, old(hold)[s], old(received)[s], text);
      OtherAdds(was, out, other, old(hold)[other], old(received)[other]);
    }

    // The chunk has a body: what was held goes out first, and the rest of its run
    // is held in turn.
    method Interior(s: Stream, text: string, sent: nat)
      requires Valid() && 0 < BodyLen(text) <= sent <= |text|
      modifies this`out, this`hold, this`pendingSep
      ensures Separated(out) && pendingSep && Owed(out)
      ensures out == old(out) + Pieces(s, old(hold)[s], text[..sent])
      ensures Since(out, s) == Since(old(out), s) + old(hold)[s] + text[..sent]
      ensures hold == old(hold)[s := text[sent..]]
      ensures forall o :: o != s ==> Since(out, o) == Since(old(out), o)
    {
      hide Separated, Owed, Forwardable, Speaks, BodyLen, Since, Pieces;
      PiecesAreSent(out, s, hold[s], text[..sent]);
      FlushHeld(s);
      BodySpeaks(s, text, sent);
      Speak(s, text[..sent]);
      hold := hold[s := text[sent..]];
    }

    // hold_flush, which sends nothing when nothing is held.
    method FlushHeld(s: Stream)
      requires Valid()
      modifies this`out
      ensures Separated(out) && (pendingSep <==> Owed(out))
      ensures Since(out, s) == Since(old(out), s) + hold[s]
      ensures forall o :: o != s ==> Since(out, o) == Since(old(out), o)
      ensures out == if hold[s] == "" then old(out) else old(out) + [Text(s, hold[s])]
    {
      hide Separated, Owed, Forwardable, Speaks;
      if hold[s] == "" {
        assert Since(out, s) + hold[s] == Since(out, s);
        return;
      }
      HeldIsQuiet(s, received[s], Since(out, s), hold[s]);
      Flush(s);
    }

    // hold_flush: the held run is interior now.
    method Flush(s: Stream)
      requires s in hold
      requires Separated(out) && (pendingSep <==> Owed(out))
      requires !Speaks(Text(s, hold[s]))
      modifies this`out
      ensures out == old(out) + [Text(s, hold[s])]
      ensures Separated(out) && (pendingSep <==> Owed(out))
      ensures Since(out, s) == Since(old(out), s) + hold[s]
      ensures forall o :: o != s ==> Since(out, o) == Since(old(out), o)
    {
      hide Separated, Owed, Forwardable, Speaks;
      QuietKeeps(out, Text(s, hold[s]));
      SinceMore(out, s, hold[s]);
      hide Since;
      out := out + [Text(s, hold[s])];
    }

    // The message that carries the chunk's body.
    method Speak(s: Stream, bytes: string)
      requires Separated(out) && (pendingSep <==> Owed(out))
      requires Speaks(Text(s, bytes))
      modifies this`out, this`pendingSep
      ensures out == old(out) + [Text(s, bytes)] && pendingSep
      ensures Separated(out) && Owed(out)
      ensures Since(out, s) == Since(old(out), s) + bytes
      ensures forall o :: o != s ==> Since(out, o) == Since(old(out), o)
    {
      hide Separated, Owed, Forwardable, Speaks;
      SpokenKeeps(out, Text(s, bytes));
      SinceMore(out, s, bytes);
      hide Since;
      out := out + [Text(s, bytes)];
      pendingSep := true;
    }

    // close_reasoning_phase: content, or an image, follows.
    method CloseReasoningPhase()
      requires Valid()
      modifies this
      ensures Valid() && !reasoningOpen
      ensures out == old(out) + Closing(old(reasoningOpen), old(pendingSep))
      ensures received == if old(reasoningOpen) then old(received)[Reasoning := ""] else old(received)
      ensures hold == if old(reasoningOpen) then old(hold)[Reasoning := ""] else old(hold)
    {
      hide Separated, Owed, Adds;
      ghost var was := out;
      if !reasoningOpen {
        assert was + [] == was;
        return;
      }
      reasoningOpen := false;
      EndStream(Reasoning);
      EmitSeparator();
      assert was + [End(Reasoning)] + [Blank] == was + ([End(Reasoning)] + [Blank]);
      assert was + ([End(Reasoning)] + []) == was + [End(Reasoning)];
    }

    // stream_end_all: a turn or round boundary.
    method StreamEndAll()
      requires Valid()
      modifies this
      ensures Valid() && !reasoningOpen && !pendingSep
      ensures received[Content] == "" && received[Reasoning] == ""
      ensures out == old(out) + [End(Content)] + [End(Reasoning)] + if old(pendingSep) then [Blank] else []
    {
      hide Separated, Owed, Adds;
      reasoningOpen := false;
      EndStream(Content);
      EndStream(Reasoning);
      EmitSeparator();
    }

    // nm_chat_app_on_delta for text.
    method OnDelta(s: Stream, text: string)
      requires Valid()
      modifies this
      ensures Valid()
      ensures received[s] == old(received)[s] + text
      ensures s == Content && text != "" ==> !reasoningOpen
      ensures s == Reasoning ==> received[Content] == old(received)[Content]
      ensures var closes := s == Content && text != "" && old(reasoningOpen);
        out == old(out) + Closing(closes, old(pendingSep)) + Spoken(s, old(hold)[s], text)
    {
      hide Separated, Owed, Forwardable, Speaks;
      assert out + [] + [] == out && out + [] == out;
      if |text| == 0 {
        return;
      }
      if s == Content {
        CloseReasoningPhase();
      }
      StreamText(s, text);
    }
  }

  // A held run is newlines, nothing else; a chunk with a body is not.
  lemma HeldIsQuiet(s: Stream, received: string, forwarded: string, held: string)
    requires Forwardable(received, forwarded) && forwarded + held == received
    ensures !Speaks(Text(s, held))
  {
    assert forall i :: 0 <= i < |held| ==> held[i] == received[|forwarded| + i];
  }

  lemma BodySpeaks(s: Stream, text: string, n: nat)
    requires 0 < BodyLen(text) <= n <= |text|
    ensures Speaks(Text(s, text[..n]))
  {
    assert text[..n][BodyLen(text) - 1] == text[BodyLen(text) - 1];
  }

  lemma QuietKeeps(out: seq<Out>, o: Out)
    requires Separated(out) && o != Blank && !Speaks(o)
    ensures Separated(out + [o]) && (Owed(out + [o]) <==> Owed(out))
    ensures (out + [o])[..|out|] == out
  {
    QuietKeepsOwed(out, o);
    OpenKeepsSeparated(out, o);
  }

  lemma QuietKeepsOwed(out: seq<Out>, o: Out)
    requires o != Blank && !Speaks(o)
    ensures Owed(out + [o]) <==> Owed(out)
  {
    var all := out + [o];
    if Owed(out) {
      var k :| 0 <= k < |out| && Speaks(out[k]) && forall j :: k < j < |out| ==> out[j] != Blank;
      assert Speaks(all[k]);
    }
    if Owed(all) {
      var k :| 0 <= k < |all| && Speaks(all[k]) && forall j :: k < j < |all| ==> all[j] != Blank;
      assert Speaks(out[k]) && forall j :: k < j < |out| ==> out[j] == all[j];
    }
  }

  lemma OpenKeepsSeparated(out: seq<Out>, o: Out)
    requires Separated(out) && o != Blank
    ensures Separated(out + [o])
  {
    hide Speaks;
    var all := out + [o];
    assert all[|out|] == o && forall i :: 0 <= i < |out| ==> all[i] == out[i];
    forall i, j | 0 <= i < j < |all| && all[i] == Blank && all[j] == Blank
      ensures exists k :: i < k < j && Speaks(all[k])
    {
      assert j < |out| && out[i] == Blank && out[j] == Blank;
      var k :| i < k < j && Speaks(out[k]);
      assert all[k] == out[k];
    }
  }

  lemma SpokenKeeps(out: seq<Out>, o: Out)
    requires Separated(out) && Speaks(o)
    ensures Separated(out + [o]) && Owed(out + [o])
    ensures (out + [o])[..|out|] == out
  {
    var all := out + [o];
    var last := |out|;
    assert all[last] == o && |all| == last + 1;
    OpenKeepsSeparated(out, o);
  }

  lemma BlankKeeps(out: seq<Out>)
    requires Separated(out) && Owed(out)
    ensures Separated(out + [Blank]) && !Owed(out + [Blank])
    ensures (out + [Blank])[..|out|] == out
  {
    var all := out + [Blank];
    var said :| 0 <= said < |out| && Speaks(out[said]) && forall j :: said < j < |out| ==> out[j] != Blank;
    assert all[|out|] == Blank;
    forall i, j | 0 <= i < j < |all| && all[i] == Blank && all[j] == Blank
      ensures exists k :: i < k < j && Speaks(all[k])
    {
      if j < |out| {
        var k :| i < k < j && Speaks(out[k]);
        assert Speaks(all[k]);
      } else {
        assert i < said < j && Speaks(all[said]);
      }
    }
  }
}
