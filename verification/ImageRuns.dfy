// A chat's images over all its requests (src/session.c, src/agent.c).
module ImageRuns {
  import opened Session
  import opened ImageWindow

  // A request: the window in force, its messages, what stood for each, and its end.
  datatype Sent = Sent(window: nat, ms: seq<Message>, wire: seq<WireMessage>, end: Outcome)

  datatype Chat = Chat(images: Images, log: seq<Sent>)

  datatype Event = Attach(marker: string) | Skip | Compose(ms: seq<Message>, window: nat, opens: bool)

  const EMPTY := Chat(Images([], [], 0), [])

  // A request names only images that are attached, and every image an earlier one
  // showed: the transcript only grows.
  predicate Allowed(c: Chat, e: Event) {
    e.Compose? ==>
      && Resolved(c.images, e.ms)
      && (forall j :: 0 <= j < |c.log| ==> IdsOf(c.log[j].ms) <= IdsOf(e.ms))
  }

  function Apply(c: Chat, e: Event): Chat
    requires Formed(c.images)
  {
    var im := c.images.(request := c.images.request + 1);
    match e
    case Attach(marker) => c.(images := AfterAttach(c.images, marker))
    case Skip => Chat(im, c.log + [Sent(0, [], [], Skipped)])
    case Compose(ms, window, opens) =>
      Chat(Stamped(im, IdsOf(ms)), c.log + [Sent(window, ms, Wire(im, ms, window), if opens then Accepted else Unopened)])
  }

  function Run(es: seq<Event>): (c: Chat)
    ensures Formed(c.images)
  {
    if es == [] then EMPTY else Apply(Run(es[..|es| - 1]), es[|es| - 1])
  }

  predicate AllowedRun(es: seq<Event>) {
    es == [] || (AllowedRun(es[..|es| - 1]) && Allowed(Run(es[..|es| - 1]), es[|es| - 1]))
  }

  // Request j shows the image.
  predicate Shows(c: Chat, j: nat, id: nat) { j < |c.log| && id in IdsOf(c.log[j].ms) }

  // The images as they were when request j was composed, as far as its messages go.
  function AsOf(im: Images, j: nat): Images { im.(request := j + 1) }

  predicate Resolved(im: Images, ms: seq<Message>) { forall id :: id in IdsOf(ms) ==> id < |im.markers| }

  predicate Counts(c: Chat) {
    && c.images.request == |c.log|
    && (forall j :: 0 <= j < |c.log| ==> |c.log[j].wire| == |c.log[j].ms|)
    && (forall j, k :: 0 <= j <= k < |c.log| && c.log[k].end != Skipped ==> IdsOf(c.log[j].ms) <= IdsOf(c.log[k].ms))
    && (forall j :: 0 <= j < |c.log| ==> Resolved(c.images, c.log[j].ms))
    && (forall j :: 0 <= j < |c.log| && c.log[j].end == Skipped ==> c.log[j].ms == [])
  }

  // An image's stamp is the number of the first request that shows it.
  predicate Stamps(c: Chat) {
    forall id :: 0 <= id < |c.images.first| ==> FirstRide(c, id, c.images.first[id])
  }

  predicate FirstRide(c: Chat, id: nat, first: nat) {
    if first == 0 then forall j :: 0 <= j < |c.log| ==> !Shows(c, j, id)
    else Shows(c, first - 1, id) && forall j :: 0 <= j < first - 1 ==> !Shows(c, j, id)
  }

  // What request j carried is what its images' first rides say.
  predicate Carried(c: Chat)
    requires Formed(c.images)
  {
    forall j :: 0 <= j < |c.log| ==> c.log[j].wire == Wire(AsOf(c.images, j), c.log[j].ms, c.log[j].window)
  }

  predicate Kept(c: Chat) { Formed(c.images) && Counts(c) && Stamps(c) && Carried(c) }

  lemma AttachKeepsStamps(c: Chat, marker: string)
    requires Kept(c)
    ensures Stamps(Apply(c, Attach(marker)))
  {
    var d := Apply(c, Attach(marker));
    assert forall j, id :: Shows(d, j, id) <==> Shows(c, j, id);
    hide IdsOf, Carried;
    forall id | 0 <= id < |d.images.first| ensures FirstRide(d, id, d.images.first[id]) {
      assert id < |c.images.first| ==> FirstRide(c, id, c.images.first[id]);
    }
  }

  // Images that choose alike for every message carry alike.
  lemma AlikeWires(a: Images, b: Images, ms: seq<Message>, window: nat)
    requires |a.first| == |a.markers| && |b.first| == |b.markers|
    requires forall i :: 0 <= i < |ms| ==> Alike(a, b, ms[i], window)
    ensures Wire(a, ms, window) == Wire(b, ms, window)
  {
    hide Alike, WireOf;
    forall i | 0 <= i < |ms| ensures WireOf(a, ms[i], window) == WireOf(b, ms[i], window) {
      AlikeOnWire(a, b, ms[i], window);
    }
  }

  // The images a request showed have their stamps.
  lemma RiddenIsStamped(c: Chat, j: nat, i: nat)
    requires Counts(c) && Stamps(c) && j < |c.log| && i < |c.log[j].ms| && |c.images.first| == |c.images.markers|
    ensures forall id :: id in Ids(c.log[j].ms[i]) ==> id < |c.images.first| && 0 < c.images.first[id] <= j + 1
  {
    forall id | id in Ids(c.log[j].ms[i]) ensures id < |c.images.first| && 0 < c.images.first[id] <= j + 1 {
      assert Shows(c, j, id);
      assert FirstRide(c, id, c.images.first[id]);
    }
  }

  // A change of the images that keeps every stamp made keeps what was carried.
  lemma SameIsCarried(c: Chat, im: Images, j: nat)
    requires Kept(c) && j < |c.log| && Formed(im) && c.images.markers <= im.markers
    requires forall id :: 0 <= id < |c.images.first| && c.images.first[id] != 0 ==> im.first[id] == c.images.first[id]
    ensures c.log[j].wire == Wire(AsOf(im, j), c.log[j].ms, c.log[j].window)
  {
    var ms := c.log[j].ms;
    forall i | 0 <= i < |ms| ensures Alike(AsOf(c.images, j), AsOf(im, j), ms[i], c.log[j].window) {
      RiddenIsStamped(c, j, i);
    }
    hide Alike, Wire;
    AlikeWires(AsOf(c.images, j), AsOf(im, j), ms, c.log[j].window);
  }

  lemma AttachKeeps(c: Chat, marker: string)
    requires Kept(c)
    ensures Kept(Apply(c, Attach(marker)))
  {
    var d := Apply(c, Attach(marker));
    AttachKeepsStamps(c, marker);
    assert Counts(d) by {
      assert forall j, id :: Shows(d, j, id) <==> Shows(c, j, id);
    }
    hide Stamps, Wire, Counts;
    forall j | 0 <= j < |c.log| ensures d.log[j].wire == Wire(AsOf(d.images, j), d.log[j].ms, d.log[j].window) {
      SameIsCarried(c, d.images, j);
    }
  }

  lemma SkipKeeps(c: Chat)
    requires Kept(c)
    ensures Kept(Apply(c, Skip))
  {
    var d := Apply(c, Skip);
    assert forall j, id :: Shows(d, j, id) <==> Shows(c, j, id);
    forall id | 0 <= id < |d.images.first| ensures FirstRide(d, id, d.images.first[id]) {
      assert FirstRide(c, id, c.images.first[id]);
    }
    hide IdsOf, WireOf, Stamps, FirstRide;
    assert Wire(AsOf(d.images, |c.log|), [], 0) == [];
    assert forall j :: AsOf(d.images, j) == AsOf(c.images, j);
  }

  lemma ComposeKeepsStamps(c: Chat, ms: seq<Message>, window: nat, opens: bool)
    requires Kept(c) && Allowed(c, Compose(ms, window, opens))
    ensures Counts(Apply(c, Compose(ms, window, opens))) && Stamps(Apply(c, Compose(ms, window, opens)))
  {
    var d := Apply(c, Compose(ms, window, opens));
    hide IdsOf, WireOf, Carried, Ids, FirstRide;
    forall id | 0 <= id < |d.images.first| ensures FirstRide(d, id, d.images.first[id]) {
      RideAfter(c, d, ms, id);
    }
  }

  lemma RideAfter(c: Chat, d: Chat, ms: seq<Message>, id: nat)
    requires |d.log| == |c.log| + 1 && d.log[..|c.log|] == c.log && d.log[|c.log|].ms == ms
    requires id < |c.images.first| && FirstRide(c, id, c.images.first[id]) && c.images.request == |c.log|
    ensures FirstRide(d, id, if c.images.first[id] == 0 && id in IdsOf(ms) then c.images.request + 1 else c.images.first[id])
  {
    hide IdsOf;
    var n := |c.log|;
    forall j | 0 <= j < n ensures Shows(d, j, id) <==> Shows(c, j, id) {
      assert d.log[j] == d.log[..n][j];
    }
    assert Shows(d, n, id) <==> id in IdsOf(ms);
  }

  lemma NewRequestIs(c: Chat, ms: seq<Message>, window: nat, opens: bool)
    requires Kept(c)
    ensures var d := Apply(c, Compose(ms, window, opens));
      d.log[|c.log|].wire == Wire(AsOf(d.images, |c.log|), ms, window)
  {
    var im := c.images.(request := c.images.request + 1);
    var after := Stamped(im, IdsOf(ms));
    forall i | 0 <= i < |ms| ensures Alike(im, after, ms[i], window) {
      StampIsStill(im, IdsOf(ms), ms[i], window);
    }
    hide Alike, Wire;
    AlikeWires(im, after, ms, window);
  }

  lemma ComposeIs(c: Chat, ms: seq<Message>, window: nat, opens: bool)
    requires Formed(c.images)
    ensures var d := Apply(c, Compose(ms, window, opens));
      && Formed(d.images) && d.images.markers == c.images.markers && |d.log| == |c.log| + 1 && d.log[..|c.log|] == c.log
      && d.log[|c.log|].ms == ms && d.log[|c.log|].window == window
      && forall id :: 0 <= id < |c.images.first| && c.images.first[id] != 0 ==> d.images.first[id] == c.images.first[id]
  {
    hide Wire, IdsOf;
  }

  lemma ComposeKeeps(c: Chat, ms: seq<Message>, window: nat, opens: bool)
    requires Kept(c) && Allowed(c, Compose(ms, window, opens))
    ensures Kept(Apply(c, Compose(ms, window, opens)))
  {
    var d := Apply(c, Compose(ms, window, opens));
    ComposeKeepsStamps(c, ms, window, opens);
    NewRequestIs(c, ms, window, opens);
    ComposeIs(c, ms, window, opens);
    hide Stamps, Wire, Counts, Allowed, Apply, Formed;
    forall j | 0 <= j < |d.log| ensures d.log[j].wire == Wire(AsOf(d.images, j), d.log[j].ms, d.log[j].window) {
      if j < |c.log| {
        assert d.log[j] == d.log[..|c.log|][j];
        SameIsCarried(c, d.images, j);
      }
    }
  }

  lemma StepKeeps(c: Chat, e: Event)
    requires Kept(c) && Allowed(c, e)
    ensures Kept(Apply(c, e))
  {
    hide Kept, Allowed, Apply;
    match e
    case Attach(marker) => AttachKeeps(c, marker);
    case Skip => SkipKeeps(c);
    case Compose(ms, window, opens) => ComposeKeeps(c, ms, window, opens);
  }

  lemma {:induction false} EveryRunKeeps(es: seq<Event>)
    requires AllowedRun(es)
    ensures Kept(Run(es))
  {
    if es != [] {
      EveryRunKeeps(es[..|es| - 1]);
      StepKeeps(Run(es[..|es| - 1]), es[|es| - 1]);
      hide Kept, Apply;
    }
  }

  // ---- What the requests carried. ----

  lemma {:induction false} PartsAre(im: Images, m: Message, window: nat, n: nat, id: nat)
    requires n <= |Ids(m)|
    ensures Picture(id) in Parts(im, m, window, n) <==> id in Ids(m)[..n] && Live(im, id, window)
    ensures Marker(id) in Parts(im, m, window, n) <==> !m.Assistant? && id in Ids(m)[..n] && id < |im.first| && !Live(im, id, window)
    ensures !m.Assistant? && (forall k :: k in Ids(m) ==> k < |im.first|) ==> |Parts(im, m, window, n)| == n
  {
    if n > 0 {
      PartsAre(im, m, window, n - 1, id);
      assert Ids(m)[..n] == Ids(m)[..n - 1] + [Ids(m)[n - 1]];
      assert Ids(m)[n - 1] in Ids(m);
    }
  }

  // f is the first request that shows the image.
  predicate FirstShown(c: Chat, id: nat, f: nat) { Shows(c, f, id) && forall j :: 0 <= j < f ==> !Shows(c, j, id) }

  // Request j is within the window of an image that request f first shows.
  predicate InWindow(c: Chat, f: nat, j: nat)
    requires j < |c.log|
  {
    c.log[j].window == 0 || j - f < c.log[j].window
  }

  lemma LiveIsInWindow(c: Chat, j: nat, id: nat, f: nat)
    requires Kept(c) && Shows(c, j, id) && FirstShown(c, id, f)
    ensures f <= j && id < |c.images.first|
    ensures Live(AsOf(c.images, j), id, c.log[j].window) <==> InWindow(c, f, j)
  {
    assert id < |c.images.first| by {
      assert Resolved(c.images, c.log[j].ms);
    }
    assert FirstRide(c, id, c.images.first[id]);
    assert c.images.first[id] - 1 == f;
  }

  lemma {:induction false} PartsOfRequest(c: Chat, j: nat, i: nat, id: nat)
    requires Kept(c) && j < |c.log| && i < |c.log[j].ms|
    ensures i < |c.log[j].wire|
    ensures var m := c.log[j].ms[i]; var live := Live(AsOf(c.images, j), id, c.log[j].window);
      && (Picture(id) in c.log[j].wire[i].parts <==> id in Ids(m) && live)
      && (Marker(id) in c.log[j].wire[i].parts <==> !m.Assistant? && id in Ids(m) && !live)
      && (m.User? ==> |c.log[j].wire[i].parts| == |Ids(m)| && c.log[j].wire[i].content == m.text)
  {
    var m := c.log[j].ms[i];
    RiddenIsStamped(c, j, i);
    PartsAre(AsOf(c.images, j), m, c.log[j].window, |Ids(m)|, id);
    assert Ids(m)[..|Ids(m)|] == Ids(m);
    hide Parts, Stamps, Live, Markers;
    assert c.log[j].wire == Wire(AsOf(c.images, j), c.log[j].ms, c.log[j].window);
  }

  // In every run: an image is carried by the request that first shows it and by those
  // that follow within the window in force, its marker by the others (in an assistant
  // message the marker is text); a user message never changes its shape or its text.
  lemma ImagesRideTheirWindow(es: seq<Event>, j: nat, i: nat, id: nat, f: nat)
    requires AllowedRun(es) && j < |Run(es).log| && i < |Run(es).log[j].ms|
    requires id in Ids(Run(es).log[j].ms[i]) && FirstShown(Run(es), id, f)
    ensures var c := Run(es); var m := c.log[j].ms[i];
      && i < |c.log[j].wire| && f <= j && (Picture(id) in c.log[j].wire[i].parts <==> InWindow(c, f, j))
      && (Marker(id) in c.log[j].wire[i].parts <==> !m.Assistant? && !InWindow(c, f, j))
      && (m.User? ==> |c.log[j].wire[i].parts| == |Ids(m)| && c.log[j].wire[i].content == m.text)
  {
    var c := Run(es);
    EveryRunKeeps(es);
    assert Shows(c, j, id);
    hide Run, Kept, FirstShown, InWindow, Live;
    LiveIsInWindow(c, j, id, f);
    PartsOfRequest(c, j, i, id);
  }

  // The message is shown alike by two requests under one window: its images are all
  // still live in the later, or all aged in the earlier.
  predicate Steady(c: Chat, i: nat, j: nat, k: nat)
    requires j < |c.log| && k < |c.log| && i < |c.log[j].ms|
  {
    && c.log[j].window == c.log[k].window
    && ((forall id :: id in Ids(c.log[j].ms[i]) ==> Live(AsOf(c.images, k), id, c.log[k].window))
        || (forall id :: id in Ids(c.log[j].ms[i]) ==> !Live(AsOf(c.images, j), id, c.log[j].window)))
  }

  // Such a message is the same to the byte in both.
  lemma MessagesAreByteStable(c: Chat, i: nat, j: nat, k: nat)
    requires Kept(c) && j <= k < |c.log| && i < |c.log[j].ms| && i < |c.log[k].ms| && c.log[j].ms[i] == c.log[k].ms[i]
    requires Steady(c, i, j, k)
    ensures i < |c.log[j].wire| && i < |c.log[k].wire| && c.log[j].wire[i] == c.log[k].wire[i]
  {
    var m := c.log[j].ms[i];
    RiddenIsStamped(c, j, i);
    assert Alike(AsOf(c.images, j), AsOf(c.images, k), m, c.log[j].window);
    AlikeOnWire(AsOf(c.images, j), AsOf(c.images, k), m, c.log[j].window);
    hide Stamps, Alike, WireOf, Steady;
  }

  lemma {:induction false} PartAt(im: Images, m: Message, window: nat, n: nat, p: nat)
    requires p < n <= |Ids(m)| && !m.Assistant? && forall k :: k in Ids(m) ==> k < |im.first|
    ensures |Parts(im, m, window, n)| == n
    ensures Parts(im, m, window, n)[p] == if Live(im, Ids(m)[p], window) then Picture(Ids(m)[p]) else Marker(Ids(m)[p])
  {
    assert Ids(m)[n - 1] in Ids(m);
    PartsAre(im, m, window, n - 1, 0);
    if p < n - 1 {
      PartAt(im, m, window, n - 1, p);
    }
  }

  // What a later request under the same window may show differently in a message: a
  // picture's marker where the picture was.
  predicate OnlyAged(m: Message, a: WireMessage, b: WireMessage) {
    && (forall id :: id in Ids(m) && Picture(id) in b.parts ==> Picture(id) in a.parts)
    && (!m.Assistant? ==> a.content == b.content && PartsAged(Ids(m), a.parts, b.parts))
  }

  predicate PartsAged(ids: seq<nat>, a: seq<Part>, b: seq<Part>) {
    && |a| == |b| == |ids|
    && forall p :: 0 <= p < |ids| ==> b[p] == a[p] || (a[p] == Picture(ids[p]) && b[p] == Marker(ids[p]))
  }

  lemma PartsOnlyAge(a: Images, b: Images, m: Message, window: nat)
    requires !m.Assistant? && forall id :: id in Ids(m) ==> id < |a.first| && id < |b.first| && (Live(b, id, window) ==> Live(a, id, window))
    ensures PartsAged(Ids(m), Parts(a, m, window, |Ids(m)|), Parts(b, m, window, |Ids(m)|))
  {
    var n := |Ids(m)|;
    forall p | 0 <= p < n
      ensures |Parts(a, m, window, n)| == |Parts(b, m, window, n)| == n
      ensures Parts(b, m, window, n)[p] == Parts(a, m, window, n)[p]
           || (Parts(a, m, window, n)[p] == Picture(Ids(m)[p]) && Parts(b, m, window, n)[p] == Marker(Ids(m)[p]))
    {
      PartAt(a, m, window, n, p);
      PartAt(b, m, window, n, p);
    }
    PartsAre(a, m, window, n, 0);
    PartsAre(b, m, window, n, 0);
    hide Parts, Live;
  }

  lemma MessagesOnlyAge(c: Chat, i: nat, j: nat, k: nat)
    requires Kept(c) && j <= k < |c.log| && i < |c.log[j].ms| && i < |c.log[k].ms| && c.log[j].ms[i] == c.log[k].ms[i]
    requires c.log[j].window == c.log[k].window
    ensures i < |c.log[j].wire| && i < |c.log[k].wire| && OnlyAged(c.log[j].ms[i], c.log[j].wire[i], c.log[k].wire[i])
  {
    var m := c.log[j].ms[i];
    var a, b := AsOf(c.images, j), AsOf(c.images, k);
    RiddenIsStamped(c, j, i);
    assert forall id :: id in Ids(m) && Live(b, id, c.log[j].window) ==> Live(a, id, c.log[j].window);
    assert c.log[j].wire[i] == WireOf(a, m, c.log[j].window) && c.log[k].wire[i] == WireOf(b, m, c.log[j].window);
    hide Parts, Stamps, Live, Markers, Carried, Counts, PartsAged;
    forall id ensures Picture(id) in c.log[k].wire[i].parts ==> Picture(id) in c.log[j].wire[i].parts {
      PartsOfRequest(c, j, i, id);
      PartsOfRequest(c, k, i, id);
    }
    if !m.Assistant? {
      PartsOnlyAge(a, b, m, c.log[j].window);
    }
  }

  // ---- Whether the provider ever sees an image. ----

  predicate Carries(c: Chat, j: nat, id: nat) {
    j < |c.log| && exists i :: 0 <= i < |c.log[j].wire| && Picture(id) in c.log[j].wire[i].parts
  }

  predicate Seen(c: Chat, id: nat) { exists j :: 0 <= j < |c.log| && c.log[j].end == Accepted && Carries(c, j, id) }

  lemma CarriesIff(c: Chat, j: nat, id: nat, f: nat)
    requires Kept(c) && j < |c.log| && FirstShown(c, id, f)
    ensures Carries(c, j, id) <==> Shows(c, j, id) && InWindow(c, f, j)
  {
    forall i | 0 <= i < |c.log[j].wire|
      ensures Picture(id) in c.log[j].wire[i].parts <==> id in Ids(c.log[j].ms[i]) && Live(AsOf(c.images, j), id, c.log[j].window)
    {
      PartsOfRequest(c, j, i, id);
    }
    if Shows(c, j, id) {
      LiveIsInWindow(c, j, id, f);
    }
    hide Live, InWindow, FirstShown, Stamps, Carried;
  }

  // Once shown, an image is shown by every later request that was composed.
  lemma ShownOn(c: Chat, f: nat, j: nat, id: nat)
    requires Counts(c) && Shows(c, f, id) && f <= j < |c.log| && c.log[j].end != Skipped
    ensures Shows(c, j, id)
  {
  }

  // The provider is shown an image exactly when the stream of one of the requests in
  // its window opened; the stamp is made when a request is composed, not when it
  // goes out.
  lemma SeenIff(es: seq<Event>, id: nat, f: nat)
    requires AllowedRun(es) && FirstShown(Run(es), id, f)
    ensures Seen(Run(es), id) <==>
      exists j :: f <= j < |Run(es).log| && Run(es).log[j].end == Accepted && InWindow(Run(es), f, j)
  {
    EveryRunKeeps(es);
    var c := Run(es);
    forall j | 0 <= j < |c.log| && c.log[j].end == Accepted
      ensures Carries(c, j, id) <==> f <= j && InWindow(c, f, j)
    {
      CarriesIff(c, j, id, f);
      if f <= j {
        ShownOn(c, f, j, id);
      }
    }
    hide Run, Kept, Carries, InWindow;
  }

  lemma OneMore(es: seq<Event>, e: Event)
    ensures Run(es + [e]) == Apply(Run(es), e)
    ensures AllowedRun(es + [e]) <==> AllowedRun(es) && Allowed(Run(es), e)
  {
    assert (es + [e])[..|es|] == es;
  }

  function UnopenedFirst(marker: string, text: string): seq<Event> {
    [Attach(marker)] + [Compose([User(text, [0])], 1, false)] + [Compose([User(text, [0])], 1, true)]
  }

  // A chat of one message, after a request that did not open and one that did.
  lemma UnopenedRun(marker: string, text: string)
    ensures AllowedRun(UnopenedFirst(marker, text))
    ensures var c := Run(UnopenedFirst(marker, text)); var ms := [User(text, [0])];
      |c.log| == 2 && c.log[0].ms == c.log[1].ms == ms && c.log[0].window == c.log[1].window == 1
      && c.log[0].end == Outcome.Unopened && c.log[1].end == Accepted
  {
    var ms := [User(text, [0])];
    var a := [Attach(marker)];
    assert [] + a == a;
    assert IdsOf(ms) == {0} by {
      assert 0 in Ids(ms[0]);
    }
    OneMore([], Attach(marker));
    OneMore(a, Compose(ms, 1, false));
    OneMore(a + [Compose(ms, 1, false)], Compose(ms, 1, true));
    RunOfNothing();
    hide Run, AllowedRun, Wire, Stamped, IdsOf;
  }

  lemma RunOfNothing()
    ensures Run([]) == EMPTY && AllowedRun([])
  {
  }

  // With the built-in window of one, an attached image whose first request does not
  // open is never seen: the request that does open carries its marker.
  lemma AnUnopenedRequestAgesAnImage(marker: string, text: string)
    ensures var c := Run(UnopenedFirst(marker, text));
      |c.log| == 2 && FirstShown(c, 0, 0) && c.log[1].end == Accepted && Shows(c, 1, 0) && !Seen(c, 0)
  {
    UnopenedRun(marker, text);
    var c := Run(UnopenedFirst(marker, text));
    assert 0 in Ids(c.log[0].ms[0]) && 0 in Ids(c.log[1].ms[0]);
    assert Shows(c, 0, 0) && Shows(c, 1, 0);
    hide Run, AllowedRun, UnopenedFirst, Seen, Shows;
    SeenIff(UnopenedFirst(marker, text), 0, 0);
  }
}
