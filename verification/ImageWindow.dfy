// Which of a chat's images each request carries (src/session.c, src/agent.c): an image
// rides a window of requests, and after that its marker stands in for it.
module ImageWindow {
  import opened Common
  import opened Session

  // How a request ended: not composed for want of memory, composed and its stream not
  // opened, or accepted.
  datatype Outcome = Skipped | Unopened | Accepted

  // One part of a request: an image's bytes, or its marker. Both are frozen when
  // the image is attached.
  datatype Part = Picture(id: nat) | Marker(id: nat)

  datatype WireMessage = WireMessage(content: string, parts: seq<Part>)

  // Per image its marker text and the request it first rode (0: none yet); and how
  // many requests were composed.
  datatype Images = Images(markers: seq<string>, first: seq<nat>, request: nat)

  predicate Formed(im: Images) {
    |im.first| == |im.markers| && forall i :: 0 <= i < |im.first| ==> im.first[i] <= im.request
  }

  // nm_session_image_live; a window of 0 is no window.
  predicate Live(im: Images, id: nat, window: nat) {
    && id < |im.first|
    && (window == 0 || im.first[id] == 0 || im.request - im.first[id] < window)
  }

  function Ids(m: Message): seq<nat> {
    match m
    case User(_, attached) => attached
    case Assistant(_, _, _, _, images) => images
    case _ => []
  }

  function Content(m: Message): string {
    match m
    case System(prompt) => prompt
    case User(text, _) => text
    case Assistant(content, _, _, _, _) => content
    case Tool(_, _, output) => output
  }

  // The parts of the message's first n images: of an assistant's only the live ones.
  function Parts(im: Images, m: Message, window: nat, n: nat): seq<Part>
    requires n <= |Ids(m)|
  {
    if n == 0 then []
    else
      var id := Ids(m)[n - 1];
      Parts(im, m, window, n - 1)
      + (if Live(im, id, window) then [Picture(id)]
         else if m.Assistant? || id >= |im.first| then [] else [Marker(id)])
  }

  function Spaced(a: string, b: string): string { if a == "" then b else if b == "" then a else a + " " + b }

  // The markers of the first n images that are no longer live.
  function Markers(im: Images, ids: seq<nat>, window: nat, n: nat): string
    requires n <= |ids| && |im.first| == |im.markers|
  {
    if n == 0 then ""
    else
      var id := ids[n - 1];
      var before := Markers(im, ids, window, n - 1);
      if Live(im, id, window) || id >= |im.markers| then before else Spaced(before, im.markers[id])
  }

  function WireOf(im: Images, m: Message, window: nat): WireMessage
    requires |im.first| == |im.markers|
  {
    WireMessage(if m.Assistant? then Spaced(m.content, Markers(im, m.images, window, |m.images|)) else Content(m),
                Parts(im, m, window, |Ids(m)|))
  }

  function Wire(im: Images, ms: seq<Message>, window: nat): seq<WireMessage>
    requires |im.first| == |im.markers|
  {
    seq(|ms|, i requires 0 <= i < |ms| => WireOf(im, ms[i], window))
  }

  function SetOf(ids: seq<nat>): set<nat> { set id | id in ids }

  function IdsOf(ms: seq<Message>): set<nat> { set i, id | 0 <= i < |ms| && id in Ids(ms[i]) :: id }

  // The images after a request that shows these: each one's first ride is stamped.
  function Stamped(im: Images, shown: set<nat>): (r: Images)
    ensures |r.first| == |im.first|
  {
    im.(first := seq(|im.first|, id requires 0 <= id < |im.first| =>
      if im.first[id] == 0 && id in shown then im.request else im.first[id]))
  }

  lemma StampedMore(im: Images, a: set<nat>, b: set<nat>)
    ensures Stamped(Stamped(im, a), b) == Stamped(im, a + b)
  {
    assert Stamped(Stamped(im, a), b).first == Stamped(im, a + b).first;
  }

  // The two choose alike for every image of the message.
  predicate Alike(a: Images, b: Images, m: Message, window: nat) {
    && |a.first| == |a.markers| && |b.first| == |b.markers|
    && forall id :: id in Ids(m) ==>
         && (id < |a.markers| <==> id < |b.markers|) && (id < |a.markers| ==> a.markers[id] == b.markers[id])
         && (Live(a, id, window) <==> Live(b, id, window))
  }

  // A ride's stamp changes no choice in the request that makes it.
  lemma StampIsStill(im: Images, shown: set<nat>, m: Message, window: nat)
    requires Formed(im) && im.request > 0
    ensures Formed(Stamped(im, shown)) && Alike(im, Stamped(im, shown), m, window)
  {
  }

  lemma {:induction false} AlikeUpTo(a: Images, b: Images, m: Message, window: nat, n: nat)
    requires Alike(a, b, m, window) && n <= |Ids(m)|
    ensures Parts(a, m, window, n) == Parts(b, m, window, n) && Markers(a, Ids(m), window, n) == Markers(b, Ids(m), window, n)
  {
    if n > 0 {
      AlikeUpTo(a, b, m, window, n - 1);
      assert Ids(m)[n - 1] in Ids(m);
    }
  }

  lemma AlikeOnWire(a: Images, b: Images, m: Message, window: nat)
    requires Alike(a, b, m, window)
    ensures WireOf(a, m, window) == WireOf(b, m, window)
  {
    AlikeUpTo(a, b, m, window, |Ids(m)|);
    hide Alike, Parts, Markers;
  }

  function AfterAttach(im: Images, marker: string): Images {
    Images(im.markers + [marker], im.first + [0], im.request)
  }

  // Stamping one image of a message, or passing it over.
  lemma StampNothing(im: Images, id: nat)
    requires id >= |im.first| || im.first[id] != 0
    ensures Stamped(im, {id}) == im
  {
    assert Stamped(im, {id}).first == im.first;
  }

  // ---- The program's store, and the loops of begin_round. ----

  class Store {
    var markers: seq<string>
    var first: seq<nat>
    var request: nat

    ghost function View(): Images
      reads this
    {
      Images(markers, first, request)
    }

    constructor ()
      ensures View() == Images([], [], 0)
    {
      markers, first, request := [], [], 0;
    }

    method Attach(marker: string)
      modifies this
      ensures View() == AfterAttach(old(View()), marker)
    {
      markers, first := markers + [marker], first + [0];
    }

    // nm_session_next_request.
    method NextRequest()
      modifies this
      ensures View() == old(View()).(request := old(request) + 1)
    {
      request := request + 1;
    }

    // nm_session_image_live.
    method IsLive(id: nat, window: nat) returns (live: bool)
      requires Formed(View())
      ensures live <==> Live(View(), id, window)
    {
      if id >= |first| {
        return false;
      }
      if window == 0 || first[id] == 0 {
        return true;
      }
      live := request - first[id] < window;
    }

    // nm_session_image_part: the live part, stamped on its first ride, or the marker.
    method PartOf(id: nat, window: nat) returns (part: Part)
      requires Formed(View()) && request > 0 && id < |first|
      modifies this
      ensures part == if Live(old(View()), id, window) then Picture(id) else Marker(id)
      ensures View() == Stamped(old(View()), {id})
    {
      ghost var before := View();
      var live := IsLive(id, window);
      if live {
        if first[id] == 0 {
          first := first[id := if request > 0 then request else 1];
        }
        part := Picture(id);
      } else {
        part := Marker(id);
      }
      assert first == Stamped(before, {id}).first;
    }

    // One message's image parts.
    method PartsOf(m: Message, window: nat) returns (parts: seq<Part>)
      requires Formed(View()) && request > 0
      modifies this
      ensures parts == Parts(old(View()), m, window, |Ids(m)|)
      ensures View() == Stamped(old(View()), SetOf(Ids(m)))
    {
      ghost var im := View();
      var ids := Ids(m);
      parts := [];
      assert Stamped(im, {}).first == im.first;
      assert SetOf(ids[..0]) == {};
      for k := 0 to |ids|
        invariant View() == Stamped(im, SetOf(ids[..k]))
        invariant parts == Parts(im, m, window, k)
      {
        ghost var seen := SetOf(ids[..k]);
        ghost var now := View();
        assert SetOf(ids[..k + 1]) == seen + {ids[k]};
        StampedMore(im, seen, {ids[k]});
        StampIsStill(im, seen, m, window);
        assert ids[k] in Ids(m);
        if ids[k] >= |first| {
          StampNothing(now, ids[k]);
          continue;
        }
        if m.Assistant? {
          var live := IsLive(ids[k], window);
          if !live {
            StampNothing(now, ids[k]);
            continue;
          }
        }
        var part := PartOf(ids[k], window);
        parts := parts + [part];
      }
      assert ids[..|ids|] == ids;
    }

    // The derived content of an assistant message: its markers after its own text.
    method Derived(m: Message, window: nat) returns (content: string)
      requires Formed(View()) && m.Assistant?
      ensures content == Spaced(m.content, Markers(View(), m.images, window, |m.images|))
    {
      var acc := "";
      for k := 0 to |m.images|
        invariant acc == Markers(View(), m.images, window, k)
      {
        var live := IsLive(m.images[k], window);
        if live || m.images[k] >= |markers| || markers[m.images[k]] == "" {
          continue;
        }
        if acc != "" {
          acc := acc + " ";
        }
        acc := acc + markers[m.images[k]];
      }
      if acc == "" {
        return m.content;
      }
      content := if m.content != "" then m.content + " " + acc else acc;
    }

    // One request's messages, in order.
    method Compose(ms: seq<Message>, window: nat) returns (wire: seq<WireMessage>)
      requires Formed(View())
      modifies this
      ensures var im := old(View()).(request := old(request) + 1);
        wire == Wire(im, ms, window) && View() == Stamped(im, IdsOf(ms))
    {
      NextRequest();
      ghost var im := View();
      wire := [];
      assert Stamped(im, {}).first == im.first;
      assert IdsOf(ms[..0]) == {};
      for i := 0 to |ms|
        invariant View() == Stamped(im, IdsOf(ms[..i]))
        invariant wire == Wire(im, ms[..i], window)
      {
        ghost var seen, now := IdsOf(ms[..i]), View();
        OneMoreMessage(im, ms[..i], ms[i], window);
        assert ms[..i + 1] == ms[..i] + [ms[i]];
        StampIsStill(im, seen, ms[i], window);
        AlikeOnWire(im, now, ms[i], window);
        var parts := PartsOf(ms[i], window);
        StampIsStill(now, SetOf(Ids(ms[i])), ms[i], window);
        AlikeOnWire(now, View(), ms[i], window);
        StampedMore(im, seen, SetOf(Ids(ms[i])));
        var content := Content(ms[i]);
        if ms[i].Assistant? {
          content := Derived(ms[i], window);
        }
        wire := wire + [WireMessage(content, parts)];
      }
      assert ms[..|ms|] == ms;
    }
  }

  lemma OneMoreMessage(im: Images, ms: seq<Message>, m: Message, window: nat)
    requires |im.first| == |im.markers|
    ensures Wire(im, ms + [m], window) == Wire(im, ms, window) + [WireOf(im, m, window)]
    ensures IdsOf(ms + [m]) == IdsOf(ms) + SetOf(Ids(m))
  {
    var more := ms + [m];
    assert more[|ms|] == m && forall i :: 0 <= i < |ms| ==> more[i] == ms[i];
    assert forall id :: id in Ids(m) ==> id in Ids(more[|ms|]);
    assert forall i, id :: 0 <= i < |ms| && id in Ids(ms[i]) ==> id in Ids(more[i]);
  }

  // ---- What every message says. ----

  // Strings with a space between them.
  function Joined(ss: seq<string>): string
    decreases |ss|
  {
    if ss == [] then "" else if |ss| == 1 then ss[0] else Joined(ss[..|ss| - 1]) + " " + ss[|ss| - 1]
  }

  // The image has ridden as many requests as the window has.
  predicate Aged(im: Images, id: nat, window: nat) {
    id < |im.first| && window > 0 && im.first[id] > 0 && im.request >= im.first[id] + window
  }

  // The markers of the aged images, in order.
  function AgedMarkers(im: Images, ids: seq<nat>, window: nat): seq<string>
    requires |im.first| == |im.markers|
  {
    if ids == [] then []
    else
      var id := ids[|ids| - 1];
      AgedMarkers(im, ids[..|ids| - 1], window) + if Aged(im, id, window) && im.markers[id] != "" then [im.markers[id]] else []
  }

  predicate AllSay(ss: seq<string>) { forall i :: 0 <= i < |ss| ==> ss[i] != "" }

  lemma {:induction false} JoinedSays(ss: seq<string>)
    requires AllSay(ss)
    ensures Joined(ss) == "" <==> ss == []
  {
  }

  lemma {:induction false} MarkersAreJoined(im: Images, ids: seq<nat>, window: nat, n: nat)
    requires n <= |ids| && |im.first| == |im.markers|
    ensures AllSay(AgedMarkers(im, ids[..n], window)) && Markers(im, ids, window, n) == Joined(AgedMarkers(im, ids[..n], window))
  {
    if n > 0 {
      assert ids[..n][..n - 1] == ids[..n - 1] && ids[..n][n - 1] == ids[n - 1];
      var id, before := ids[n - 1], AgedMarkers(im, ids[..n - 1], window);
      MarkersAreJoined(im, ids, window, n - 1);
      assert Aged(im, id, window) <==> id < |im.first| && !Live(im, id, window);
      var told := Aged(im, id, window) && im.markers[id] != "";
      assert AgedMarkers(im, ids[..n], window) == if told then before + [im.markers[id]] else before;
      JoinedSays(before);
      if told {
        JoinedMore(before, im.markers[id]);
      }
    }
  }

  lemma JoinedMore(ss: seq<string>, s: string)
    ensures Joined(ss + [s]) == if ss == [] then s else Joined(ss) + " " + s
  {
    assert (ss + [s])[..|ss|] == ss;
  }

  lemma {:induction false} JoinedBefore(s: string, ss: seq<string>)
    requires AllSay(ss) && s != ""
    ensures Joined([s] + ss) == Spaced(s, Joined(ss))
    decreases |ss|
  {
    if ss == [] {
      assert [s] + ss == [s];
    } else {
      var init, last := ss[..|ss| - 1], ss[|ss| - 1];
      JoinedBefore(s, init);
      JoinedSays(init);
      JoinedSays(ss);
      JoinedMore(init, last);
      JoinedMore([s] + init, last);
      assert init + [last] == ss && [s] + init + [last] == [s] + ss;
      hide Joined;
      Assoc(s + " ", Joined(init) + " ", last);
      Assoc(s + " ", Joined(init), " ");
    }
  }

  // What a message says on the wire: its own text, and after an assistant's the markers
  // of its aged images, in order, a space before each.
  lemma WireSays(im: Images, m: Message, window: nat)
    requires |im.first| == |im.markers|
    ensures m.System? ==> WireOf(im, m, window).content == m.prompt
    ensures m.User? ==> WireOf(im, m, window).content == m.text
    ensures m.Tool? ==> WireOf(im, m, window).content == m.output
    ensures m.Assistant? ==>
      WireOf(im, m, window).content == Joined((if m.content == "" then [] else [m.content]) + AgedMarkers(im, m.images, window))
  {
    if m.Assistant? {
      MarkersAreJoined(im, m.images, window, |m.images|);
      assert m.images[..|m.images|] == m.images;
      var aged := AgedMarkers(im, m.images, window);
      assert [] + aged == aged;
      if m.content != "" {
        JoinedBefore(m.content, aged);
      }
    }
  }

  // One part for each image, in order; an aged image of an assistant has none.
  function Riding(im: Images, ids: seq<nat>, window: nat, assistant: bool): seq<Part> {
    if ids == [] then []
    else
      (if !Aged(im, ids[0], window) then [Picture(ids[0])] else if assistant then [] else [Marker(ids[0])])
      + Riding(im, ids[1..], window, assistant)
  }

  lemma {:induction false} RidingMore(im: Images, ids: seq<nat>, id: nat, window: nat, assistant: bool)
    ensures Riding(im, ids + [id], window, assistant) == Riding(im, ids, window, assistant) + Riding(im, [id], window, assistant)
  {
    if ids == [] {
      assert ids + [id] == [id];
    } else {
      RidingMore(im, ids[1..], id, window, assistant);
      assert (ids + [id])[1..] == ids[1..] + [id];
    }
  }

  lemma {:induction false} PartsAreRiding(im: Images, m: Message, window: nat, n: nat)
    requires n <= |Ids(m)| && forall id :: id in Ids(m) ==> id < |im.first|
    ensures Parts(im, m, window, n) == Riding(im, Ids(m)[..n], window, m.Assistant?)
  {
    if n > 0 {
      var ids := Ids(m);
      PartsAreRiding(im, m, window, n - 1);
      RidingMore(im, ids[..n - 1], ids[n - 1], window, m.Assistant?);
      assert ids[..n] == ids[..n - 1] + [ids[n - 1]] && ids[n - 1] in ids;
      assert Aged(im, ids[n - 1], window) <==> !Live(im, ids[n - 1], window);
    }
  }

  // What a message shows on the wire: each of its images, or its marker, in order.
  lemma WireShows(im: Images, m: Message, window: nat)
    requires |im.first| == |im.markers| && forall id :: id in Ids(m) ==> id < |im.first|
    ensures WireOf(im, m, window).parts == Riding(im, Ids(m), window, m.Assistant?)
  {
    PartsAreRiding(im, m, window, |Ids(m)|);
    assert Ids(m)[..|Ids(m)|] == Ids(m);
  }
}
