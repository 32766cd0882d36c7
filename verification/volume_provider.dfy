/** The host-side editor provider (src/volumeProvider.ts): the collection of
    open webview panels keyed by resource, the change fan-out, the message
    handlers, and the quote escaping of the settings embedded in the page.
    Panels are opaque ids; a resource is identified by its string form
    (`uri.toString()`); everything posted to a panel is appended to a log. */
module VolumeProvider {
  import opened Strings
  import opened Optional

  type PanelId = nat

  // ---------------------------------------------------------------------
  // WebviewCollection
  // ---------------------------------------------------------------------

  /** One member of the collection. `handle` is the entry's identity: two
      entries with the same resource and panel are still different objects. */
  datatype Entry = Entry(handle: nat, resource: string, panel: PanelId)

  /** The entries in insertion order (the iteration order of a JavaScript
      `Set`), and the identity the next entry will get. */
  datatype WebviewCollection = WebviewCollection(entries: seq<Entry>, nextHandle: nat)

  /** Every entry has an identity of its own, issued before `nextHandle`. */
  ghost predicate Valid(c: WebviewCollection)
  {
    && (forall i :: 0 <= i < |c.entries| ==> c.entries[i].handle < c.nextHandle)
    && (forall i, j :: 0 <= i < j < |c.entries| ==> c.entries[i].handle != c.entries[j].handle)
  }

  function EmptyCollection(): (c: WebviewCollection)
    ensures Valid(c) && c.entries == []
  {
    WebviewCollection([], 0)
  }

  /** The (resource, panel) pairs the collection holds, one per entry. */
  function PairsOf(entries: seq<Entry>): seq<(string, PanelId)>
  {
    seq(|entries|, i requires 0 <= i < |entries| => (entries[i].resource, entries[i].panel))
  }

  lemma {:induction false} PairsOfCons(entries: seq<Entry>)
    requires entries != []
    ensures PairsOf(entries) == [(entries[0].resource, entries[0].panel)] + PairsOf(entries[1..])
  {
  }

  /** The panels of the entries whose resource is `key`, in collection order. */
  function Matching(entries: seq<Entry>, key: string): seq<PanelId>
  {
    if entries == [] then []
    else if entries[0].resource == key then [entries[0].panel] + Matching(entries[1..], key)
    else Matching(entries[1..], key)
  }

  /** `Matching` holds each panel as often as the entries pair it with `key`. */
  lemma {:induction false} MatchingCounts(entries: seq<Entry>, key: string, p: PanelId)
    ensures multiset(Matching(entries, key))[p] == multiset(PairsOf(entries))[(key, p)]
  {
    if entries != [] {
      MatchingCounts(entries[1..], key, p);
      PairsOfCons(entries);
    }
  }

  /** `get(uri)`: every panel registered under `key`, as often as it was
      registered, and no other panel. */
  function Get(c: WebviewCollection, key: string): (panels: seq<PanelId>)
    ensures forall p :: multiset(panels)[p] == multiset(PairsOf(c.entries))[(key, p)]
    ensures forall p :: p in panels <==>
      exists i :: 0 <= i < |c.entries| && c.entries[i].resource == key && c.entries[i].panel == p
  {
    var panels := Matching(c.entries, key);
    GetSpec(c.entries, key);
    panels
  }

  lemma {:induction false} GetSpec(entries: seq<Entry>, key: string)
    ensures forall p :: multiset(Matching(entries, key))[p] == multiset(PairsOf(entries))[(key, p)]
    ensures forall p :: p in Matching(entries, key) <==>
      exists i :: 0 <= i < |entries| && entries[i].resource == key && entries[i].panel == p
  {
    var panels := Matching(entries, key);
    var pairs := PairsOf(entries);
    forall p ensures multiset(panels)[p] == multiset(pairs)[(key, p)] {
      MatchingCounts(entries, key, p);
    }
    forall p ensures p in panels <==>
      exists i :: 0 <= i < |entries| && entries[i].resource == key && entries[i].panel == p
    {
      MatchingCounts(entries, key, p);
      assert p in panels <==> multiset(panels)[p] > 0;
      assert (key, p) in pairs <==> multiset(pairs)[(key, p)] > 0;
      if (key, p) in pairs {
        var i :| 0 <= i < |pairs| && pairs[i] == (key, p);
        assert entries[i].resource == key && entries[i].panel == p;
      }
      if exists i :: 0 <= i < |entries| && entries[i].resource == key && entries[i].panel == p {
        var i :| 0 <= i < |entries| && entries[i].resource == key && entries[i].panel == p;
        assert pairs[i] == (key, p);
      }
    }
  }

  lemma {:induction false} MatchingAppend(a: seq<Entry>, b: seq<Entry>, key: string)
    ensures Matching(a + b, key) == Matching(a, key) + Matching(b, key)
  {
    if a == [] {
      assert a + b == b;
    } else {
      var ab := a + b;
      assert ab[0] == a[0] && ab[1..] == a[1..] + b;
      var x, y, z := Matching(a[1..], key), Matching(b, key), Matching(ab[1..], key);
      MatchingAppend(a[1..], b, key);
      assert z == x + y;
      if a[0].resource == key {
        var p := [a[0].panel];
        assert p + (x + y) == (p + x) + y;
      }
    }
  }

  /** The result of `add`: the new collection and the identity of the entry
      it created, which the panel's dispose listener keeps. */
  datatype Added = Added(webviews: WebviewCollection, handle: nat)

  /** `add(uri, panel)`: a fresh entry at the end of the collection. */
  function Add(c: WebviewCollection, key: string, panel: PanelId): (r: Added)
    requires Valid(c)
    ensures Valid(r.webviews)
    ensures r.webviews.entries == c.entries + [Entry(r.handle, key, panel)]
    ensures forall i :: 0 <= i < |c.entries| ==> c.entries[i].handle != r.handle
  {
    Added(WebviewCollection(c.entries + [Entry(c.nextHandle, key, panel)], c.nextHandle + 1), c.nextHandle)
  }

  /** After `add(uri, panel)`, `get(uri)` yields what it yielded before and
      then `panel`; other resources are unaffected. */
  lemma {:induction false} GetAfterAdd(c: WebviewCollection, key: string, panel: PanelId, other: string)
    requires Valid(c)
    ensures Get(Add(c, key, panel).webviews, key) == Get(c, key) + [panel]
    ensures other != key ==> Get(Add(c, key, panel).webviews, other) == Get(c, other)
  {
    var e := Entry(c.nextHandle, key, panel);
    MatchingAppend(c.entries, [e], key);
    MatchingAppend(c.entries, [e], other);
  }

  /** Adding the same resource and panel twice registers the panel twice. */
  lemma {:induction false} AddTwice(c: WebviewCollection, key: string, panel: PanelId)
    requires Valid(c)
    ensures var twice := Add(Add(c, key, panel).webviews, key, panel).webviews;
      multiset(Get(twice, key))[panel] == multiset(Get(c, key))[panel] + 2
  {
    var once := Add(c, key, panel).webviews;
    GetAfterAdd(c, key, panel, key);
    GetAfterAdd(once, key, panel, key);
  }

  /** The entries other than the one with identity `handle`. */
  function WithoutHandle(entries: seq<Entry>, handle: nat): seq<Entry>
  {
    if entries == [] then []
    else if entries[0].handle == handle then WithoutHandle(entries[1..], handle)
    else [entries[0]] + WithoutHandle(entries[1..], handle)
  }

  /** The panel's dispose listener: delete the entry that `add` created for
      it, and nothing else. */
  function Remove(c: WebviewCollection, handle: nat): (r: WebviewCollection)
    requires Valid(c)
    ensures Valid(r)
    ensures r.nextHandle == c.nextHandle
    ensures forall i :: 0 <= i < |r.entries| ==> r.entries[i].handle != handle
  {
    var rest := WithoutHandle(c.entries, handle);
    WithoutHandleSubset(c.entries, handle);
    WithoutHandleDistinct(c.entries, handle);
    assert forall i :: 0 <= i < |rest| ==> rest[i] in rest;
    c.(entries := rest)
  }

  /** Dropping entries keeps only entries that were there, and none with the
      dropped identity. */
  lemma {:induction false} WithoutHandleSubset(entries: seq<Entry>, handle: nat)
    ensures forall e :: e in WithoutHandle(entries, handle) ==> e in entries && e.handle != handle
  {
    if entries != [] {
      WithoutHandleSubset(entries[1..], handle);
    }
  }

  /** Dropping entries keeps the remaining identities distinct. */
  lemma {:induction false} WithoutHandleDistinct(entries: seq<Entry>, handle: nat)
    requires forall i, j :: 0 <= i < j < |entries| ==> entries[i].handle != entries[j].handle
    ensures forall i, j :: 0 <= i < j < |WithoutHandle(entries, handle)| ==>
      WithoutHandle(entries, handle)[i].handle != WithoutHandle(entries, handle)[j].handle
  {
    if entries != [] {
      var tail := entries[1..];
      assert forall i :: 0 <= i < |tail| ==> tail[i] == entries[i + 1];
      WithoutHandleDistinct(tail, handle);
      var kept := WithoutHandle(tail, handle);
      if entries[0].handle != handle {
        var rest := [entries[0]] + kept;
        assert WithoutHandle(entries, handle) == rest;
        WithoutHandleSubset(tail, handle);
        forall j | 1 <= j < |rest| ensures rest[0].handle != rest[j].handle {
          assert rest[j] == kept[j - 1];
          assert rest[j] in tail;
          var m :| 0 <= m < |tail| && tail[m] == rest[j];
          assert entries[m + 1] == rest[j];
        }
        forall i, j | 0 <= i < j < |rest| ensures rest[i].handle != rest[j].handle {
          if i > 0 {
            assert rest[i] == kept[i - 1] && rest[j] == kept[j - 1];
            assert kept[i - 1].handle != kept[j - 1].handle;
          }
        }
      } else {
        assert WithoutHandle(entries, handle) == kept;
      }
    }
  }

  lemma {:induction false} WithoutHandleAppend(a: seq<Entry>, b: seq<Entry>, handle: nat)
    ensures WithoutHandle(a + b, handle) == WithoutHandle(a, handle) + WithoutHandle(b, handle)
  {
    if a == [] {
      assert a + b == b;
    } else {
      var ab := a + b;
      assert ab[0] == a[0] && ab[1..] == a[1..] + b;
      var x, y, z := WithoutHandle(a[1..], handle), WithoutHandle(b, handle), WithoutHandle(ab[1..], handle);
      WithoutHandleAppend(a[1..], b, handle);
      assert z == x + y;
      if a[0].handle != handle {
        assert [a[0]] + (x + y) == ([a[0]] + x) + y;
      }
    }
  }

  lemma {:induction false} WithoutAbsentHandle(entries: seq<Entry>, handle: nat)
    requires forall i :: 0 <= i < |entries| ==> entries[i].handle != handle
    ensures WithoutHandle(entries, handle) == entries
  {
    if entries != [] {
      WithoutAbsentHandle(entries[1..], handle);
    }
  }

  /** Removing the entry at position `i` takes exactly that entry out and
      keeps the others in order. */
  lemma {:induction false} RemoveDeletesOneEntry(c: WebviewCollection, i: nat)
    requires Valid(c) && i < |c.entries|
    ensures Remove(c, c.entries[i].handle).entries == c.entries[..i] + c.entries[i + 1..]
  {
    var h := c.entries[i].handle;
    var before, after := c.entries[..i], c.entries[i + 1..];
    assert c.entries == before + [c.entries[i]] + after;
    forall k | 0 <= k < |before| ensures before[k].handle != h {
      assert before[k] == c.entries[k];
    }
    forall k | 0 <= k < |after| ensures after[k].handle != h {
      assert after[k] == c.entries[i + 1 + k];
    }
    WithoutHandleAround(before, c.entries[i], after);
  }

  /** Deleting the one entry with its identity from around it. */
  lemma {:induction false} WithoutHandleAround(before: seq<Entry>, e: Entry, after: seq<Entry>)
    requires forall k :: 0 <= k < |before| ==> before[k].handle != e.handle
    requires forall k :: 0 <= k < |after| ==> after[k].handle != e.handle
    ensures WithoutHandle(before + [e] + after, e.handle) == before + after
  {
    var h := e.handle;
    WithoutAbsentHandle(before, h);
    WithoutAbsentHandle(after, h);
    assert WithoutHandle([e], h) == [];
    WithoutHandleAppend(before, [e], h);
    WithoutHandleAppend(before + [e], after, h);
  }

  /** When a panel closes, `get` loses exactly the panel of the closed entry
      under that entry's resource and is unchanged for every other resource. */
  lemma {:induction false} GetAfterRemove(c: WebviewCollection, i: nat, key: string)
    requires Valid(c) && i < |c.entries|
    ensures var after := Get(Remove(c, c.entries[i].handle), key);
      if key == c.entries[i].resource then
        multiset(Get(c, key)) == multiset(after) + multiset{c.entries[i].panel}
      else
        Get(c, key) == after
  {
    RemoveDeletesOneEntry(c, i);
    var e := c.entries[i];
    MatchingWithoutOne(c.entries, i, key);
    var both := Matching(c.entries[..i], key);
    var later := Matching(c.entries[i + 1..], key);
    if key == e.resource {
      assert Matching([e], key) == [e.panel];
      assert multiset(both + [e.panel] + later) == multiset(both + later) + multiset{e.panel};
    } else {
      assert Matching([e], key) == [];
      assert both + [] + later == both + later;
    }
  }

  /** The panels matching `key` split around position `i`. */
  lemma {:induction false} MatchingWithoutOne(entries: seq<Entry>, i: nat, key: string)
    requires i < |entries|
    ensures Matching(entries, key)
      == Matching(entries[..i], key) + Matching([entries[i]], key) + Matching(entries[i + 1..], key)
    ensures Matching(entries[..i] + entries[i + 1..], key)
      == Matching(entries[..i], key) + Matching(entries[i + 1..], key)
  {
    var before, e, rest := entries[..i], entries[i], entries[i + 1..];
    assert entries == before + [e] + rest;
    MatchingAppend(before + [e], rest, key);
    MatchingAppend(before, [e], key);
    MatchingAppend(before, rest, key);
  }

  // ---------------------------------------------------------------------
  // Messages
  // ---------------------------------------------------------------------

  /** A message body: absent, the empty object `{}`, or some other payload. */
  datatype Body = NoBody | EmptyObject | Payload(text: string)

  /** What the host posts to a panel: a `{type, body}` envelope, or the bare
      string the file watcher sends. */
  datatype Outgoing = Envelope(kind: string, body: Body) | Bare(text: string)

  datatype Post = Post(panel: PanelId, message: Outgoing)

  /** A message from a panel; `requestId` may be missing. */
  datatype Incoming = Incoming(kind: string, requestId: Option<int>, body: Body)

  /** A call of a stored response callback with the response body. */
  datatype Invocation = Invocation(callback: nat, argument: Body)

  /** The provider's state: the panel collection, the response callbacks by
      request id, and the logs of posted messages and callback calls. */
  datatype Provider = Provider(
    webviews: WebviewCollection,
    callbacks: map<int, nat>,
    posts: seq<Post>,
    invocations: seq<Invocation>)

  ghost predicate ValidProvider(s: Provider)
  {
    Valid(s.webviews)
  }

  const InitMessage := Envelope("init", EmptyObject)
  const UpdateMessage := Envelope("update", NoBody)
  const RefreshMessage := Bare("modelRefresh")

  /** `postMessage(panel, type, body)`: one `{type, body}` envelope to one
      panel. */
  function PostMessage(s: Provider, panel: PanelId, kind: string, body: Body): (r: Provider)
    ensures r.posts == s.posts + [Post(panel, Envelope(kind, body))]
    ensures r.webviews == s.webviews && r.callbacks == s.callbacks && r.invocations == s.invocations
  {
    s.(posts := s.posts + [Post(panel, Envelope(kind, body))])
  }

  /** `onMessage`: a `response` calls the callback stored under its request
      id, if there is one; a missing id, an unknown id, or any other type does
      nothing. Nothing is posted. */
  function OnMessage(s: Provider, message: Incoming): (r: Provider)
    ensures r.webviews == s.webviews && r.callbacks == s.callbacks && r.posts == s.posts
    ensures |s.invocations| <= |r.invocations| <= |s.invocations| + 1
    ensures r.invocations[..|s.invocations|] == s.invocations
    ensures |r.invocations| == |s.invocations| + 1 <==>
      message.kind == "response" && message.requestId.Some? && message.requestId.value in s.callbacks
    ensures |r.invocations| == |s.invocations| + 1 ==>
      r.invocations[|s.invocations|] == Invocation(s.callbacks[message.requestId.value], message.body)
  {
    if message.kind == "response" then
      match message.requestId
      case None => s
      case Some(id) =>
        if id in s.callbacks then
          s.(invocations := s.invocations + [Invocation(s.callbacks[id], message.body)])
        else s
    else s
  }

  /** The second listener of a panel: `ready` is answered with
      `{type: "init", body: {}}` to that panel, every time. */
  function OnReady(s: Provider, panel: PanelId, message: Incoming): (r: Provider)
    ensures r.webviews == s.webviews && r.callbacks == s.callbacks && r.invocations == s.invocations
    ensures message.kind == "ready" ==> r.posts == s.posts + [Post(panel, InitMessage)]
    ensures message.kind != "ready" ==> r.posts == s.posts
  {
    if message.kind == "ready" then PostMessage(s, panel, "init", EmptyObject) else s
  }

  /** A message from `panel` reaches both of its listeners, `onMessage`
      first, then the `ready` handler. */
  function Receive(s: Provider, panel: PanelId, message: Incoming): (r: Provider)
    ensures r.webviews == s.webviews && r.callbacks == s.callbacks
    ensures r.posts == s.posts + (if message.kind == "ready" then [Post(panel, InitMessage)] else [])
    ensures |r.invocations| == |s.invocations| + 1 <==>
      message.kind == "response" && message.requestId.Some? && message.requestId.value in s.callbacks
    ensures |s.invocations| <= |r.invocations| <= |s.invocations| + 1
    ensures r.invocations[..|s.invocations|] == s.invocations
    ensures |r.invocations| == |s.invocations| + 1 ==>
      r.invocations[|s.invocations|] == Invocation(s.callbacks[message.requestId.value], message.body)
  {
    OnReady(OnMessage(s, message), panel, message)
  }

  /** The change listener installed by `openCustomDocument`: one `update`
      envelope to each panel registered under the document's resource. */
  function FanOutChange(s: Provider, key: string): (r: Provider)
    ensures r.webviews == s.webviews && r.callbacks == s.callbacks && r.invocations == s.invocations
    ensures |r.posts| == |s.posts| + |Get(s.webviews, key)|
    ensures r.posts[..|s.posts|] == s.posts
    ensures forall k :: |s.posts| <= k < |r.posts| ==>
      r.posts[k] == Post(Get(s.webviews, key)[k - |s.posts|], UpdateMessage)
  {
    var panels := Get(s.webviews, key);
    s.(posts := s.posts + UpdatesTo(panels))
  }

  function UpdatesTo(panels: seq<PanelId>): (posts: seq<Post>)
    ensures |posts| == |panels|
    ensures forall k :: 0 <= k < |panels| ==> posts[k] == Post(panels[k], UpdateMessage)
  {
    seq(|panels|, k requires 0 <= k < |panels| => Post(panels[k], UpdateMessage))
  }

  /** A change reaches each panel once per registration under the document's
      resource, and reaches no panel registered only elsewhere. */
  lemma {:induction false} FanOutReachesRegisteredPanels(s: Provider, key: string, panel: PanelId)
    ensures var added := multiset(FanOutChange(s, key).posts) - multiset(s.posts);
      added[Post(panel, UpdateMessage)] == multiset(PairsOf(s.webviews.entries))[(key, panel)]
    ensures forall p :: Post(p, UpdateMessage) in FanOutChange(s, key).posts[|s.posts|..] <==>
      exists i :: 0 <= i < |s.webviews.entries| && s.webviews.entries[i].resource == key && s.webviews.entries[i].panel == p
  {
    var panels := Get(s.webviews, key);
    var ups := UpdatesTo(panels);
    assert FanOutChange(s, key).posts == s.posts + ups;
    assert FanOutChange(s, key).posts[|s.posts|..] == ups;
    UpdatesCount(panels, panel);
    forall p ensures Post(p, UpdateMessage) in ups <==> p in panels {
      if p in panels {
        var k :| 0 <= k < |panels| && panels[k] == p;
        assert ups[k] == Post(p, UpdateMessage);
      }
    }
  }

  lemma {:induction false} UpdatesCount(panels: seq<PanelId>, panel: PanelId)
    ensures multiset(UpdatesTo(panels))[Post(panel, UpdateMessage)] == multiset(panels)[panel]
  {
    if panels != [] {
      var tail := panels[1..];
      UpdatesCount(tail, panel);
      var ups := UpdatesTo(panels);
      assert ups == [ups[0]] + UpdatesTo(tail);
      assert multiset(ups) == multiset{ups[0]} + multiset(UpdatesTo(tail));
      assert panels == [panels[0]] + tail;
      assert multiset(panels) == multiset{panels[0]} + multiset(tail);
    }
  }

  /** The file watcher's change listener: the bare string `modelRefresh` to
      the panel it was created for. */
  function FileChanged(s: Provider, panel: PanelId): (r: Provider)
    ensures r.posts == s.posts + [Post(panel, RefreshMessage)]
    ensures r.webviews == s.webviews && r.callbacks == s.callbacks && r.invocations == s.invocations
  {
    s.(posts := s.posts + [Post(panel, RefreshMessage)])
  }

  // ---------------------------------------------------------------------
  // Sessions
  // ---------------------------------------------------------------------

  /** Something that happens to the provider: a panel opened on a resource
      (`resolveCustomEditor`), the panel of entry `handle` closed, a message
      from a panel, a document change, a file-watcher signal. */
  datatype Event =
    | Opened(key: string, panel: PanelId)
    | Closed(handle: nat)
    | Received(from: PanelId, message: Incoming)
    | Changed(key: string)
    | Watched(panel: PanelId)

  function Apply(s: Provider, e: Event): (r: Provider)
    requires ValidProvider(s)
    ensures ValidProvider(r)
  {
    match e
    case Opened(key, panel) => s.(webviews := Add(s.webviews, key, panel).webviews)
    case Closed(handle) => s.(webviews := Remove(s.webviews, handle))
    case Received(from, message) => Receive(s, from, message)
    case Changed(key) => FanOutChange(s, key)
    case Watched(panel) => FileChanged(s, panel)
  }

  function ApplyAll(s: Provider, events: seq<Event>): (r: Provider)
    requires ValidProvider(s)
    ensures ValidProvider(r)
    decreases |events|
  {
    if events == [] then s else ApplyAll(Apply(s, events[0]), events[1..])
  }

  /** How many `ready` messages `panel` sends in a sequence of events. */
  function ReadyCount(events: seq<Event>, panel: PanelId): nat
  {
    if events == [] then 0
    else
      (if events[0].Received? && events[0].from == panel && events[0].message.kind == "ready" then 1 else 0)
      + ReadyCount(events[1..], panel)
  }

  /** No de-duplication: every `ready` from a panel adds exactly one `init`
      post to that panel, and nothing else posts `init`. */
  lemma {:induction false} InitPerReady(s: Provider, events: seq<Event>, panel: PanelId)
    requires ValidProvider(s)
    ensures multiset(ApplyAll(s, events).posts)[Post(panel, InitMessage)]
      == multiset(s.posts)[Post(panel, InitMessage)] + ReadyCount(events, panel)
    decreases |events|
  {
    if events != [] {
      var next := Apply(s, events[0]);
      InitPerReady(next, events[1..], panel);
      InitPerStep(s, events[0], panel);
    }
  }

  lemma {:induction false} InitPerStep(s: Provider, e: Event, panel: PanelId)
    requires ValidProvider(s)
    ensures multiset(Apply(s, e).posts)[Post(panel, InitMessage)]
      == multiset(s.posts)[Post(panel, InitMessage)]
        + (if e.Received? && e.from == panel && e.message.kind == "ready" then 1 else 0)
  {
    match e
    case Changed(key) =>
      var ups := UpdatesTo(Get(s.webviews, key));
      assert Apply(s, e).posts == s.posts + ups;
      assert Post(panel, InitMessage) !in ups;
    case _ =>
  }

  /** The callback table is never changed by events, and each message calls
      at most one callback, so a sequence of events calls at most as many
      callbacks as it carries `response` messages. */
  lemma {:induction false} CallbacksAtMostOncePerResponse(s: Provider, events: seq<Event>)
    requires ValidProvider(s)
    ensures ApplyAll(s, events).callbacks == s.callbacks
    ensures |ApplyAll(s, events).invocations| <= |s.invocations| + ResponseCount(events)
    decreases |events|
  {
    if events != [] {
      CallbacksAtMostOncePerResponse(Apply(s, events[0]), events[1..]);
    }
  }

  /** With the callback table empty, as the provider creates it and leaves
      it, no message ever calls a callback. */
  lemma {:induction false} NoCallbacksNoInvocations(s: Provider, events: seq<Event>)
    requires ValidProvider(s) && s.callbacks == map[]
    ensures ApplyAll(s, events).invocations == s.invocations
    decreases |events|
  {
    if events != [] {
      var next := Apply(s, events[0]);
      assert next.callbacks == s.callbacks && next.invocations == s.invocations;
      NoCallbacksNoInvocations(next, events[1..]);
    }
  }

  function ResponseCount(events: seq<Event>): nat
  {
    if events == [] then 0
    else
      (if events[0].Received? && events[0].message.kind == "response" then 1 else 0)
      + ResponseCount(events[1..])
  }

  // ---------------------------------------------------------------------
  // Settings embedded in the page
  // ---------------------------------------------------------------------

  /** Every `"` replaced by `&quot;` (the global `replace` in `getSettings`). */
  function EscapeQuotes(s: string): (r: string)
    ensures '"' !in r
  {
    if s == [] then []
    else if s[0] == '"' then "&quot;" + EscapeQuotes(s[1..])
    else [s[0]] + EscapeQuotes(s[1..])
  }

  /** Each quote grows by the five extra characters of `&quot;`; everything
      else is kept. */
  lemma {:induction false} EscapeLength(s: string)
    ensures |EscapeQuotes(s)| == |s| + 5 * multiset(s)['"']
  {
    if s != [] {
      EscapeLength(s[1..]);
      assert s == [s[0]] + s[1..];
    }
  }

  /** What an HTML reader makes of `&quot;` in an attribute value. */
  function UnescapeQuotes(t: string): string
  {
    if t == [] then []
    else if |t| >= 6 && t[..6] == "&quot;" then ['"'] + UnescapeQuotes(t[6..])
    else [t[0]] + UnescapeQuotes(t[1..])
  }

  /** For text without `&`, reading the escaped text back gives the text. */
  lemma {:induction false} EscapeRoundTrip(s: string)
    requires '&' !in s
    ensures UnescapeQuotes(EscapeQuotes(s)) == s
  {
    if s != [] {
      EscapeRoundTrip(s[1..]);
      var t := EscapeQuotes(s);
      var tail := EscapeQuotes(s[1..]);
      if s[0] == '"' {
        assert t == "&quot;" + tail;
        assert t[..6] == "&quot;" && t[6..] == tail;
        assert UnescapeQuotes(t) == ['"'] + UnescapeQuotes(tail);
      } else {
        assert t == [s[0]] + tail;
        assert t[1..] == tail;
        assert t[0] != '&';
        assert |t| >= 6 ==> t[..6][0] != '&';
        assert UnescapeQuotes(t) == [s[0]] + UnescapeQuotes(tail);
      }
      assert s == [s[0]] + s[1..];
    }
  }

  const MetaPrefix := "<meta id=\"vscode-volume-data\" data-settings=\""
  const MetaSuffix := "\">"

  /** The `<meta>` element carrying the serialized settings: the fixed
      opening up to the attribute's quote, the escaped settings with no quote
      left in them, and the closing quote and bracket. */
  function SettingsMeta(json: string): (meta: string)
    ensures |meta| == |MetaPrefix| + |json| + 5 * multiset(json)['"'] + |MetaSuffix|
    ensures meta[..|MetaPrefix|] == MetaPrefix
    ensures meta[|meta| - |MetaSuffix|..] == MetaSuffix
    ensures '"' !in meta[|MetaPrefix|..|meta| - |MetaSuffix|]
  {
    var escaped := EscapeQuotes(json);
    EscapeLength(json);
    var meta := MetaPrefix + escaped + MetaSuffix;
    assert meta[|MetaPrefix|..|meta| - |MetaSuffix|] == escaped;
    meta
  }

  /** The attribute value, read from just after its opening quote up to the
      next quote, is the whole escaped text: quotes inside the settings cannot
      end the attribute early. Without `&` in the settings, decoding it gives
      the settings back. */
  lemma {:induction false} SettingsAttributeIntact(json: string)
    ensures PrefixWithout(SettingsMeta(json)[|MetaPrefix|..], '"') == EscapeQuotes(json)
    ensures '&' !in json ==> UnescapeQuotes(PrefixWithout(SettingsMeta(json)[|MetaPrefix|..], '"')) == json
  {
    var escaped := EscapeQuotes(json);
    var rest := SettingsMeta(json)[|MetaPrefix|..];
    assert rest == escaped + MetaSuffix;
    PrefixWithoutUpTo(escaped, MetaSuffix, '"');
    if '&' !in json {
      EscapeRoundTrip(json);
    }
  }

  lemma {:induction false} PrefixWithoutUpTo(a: string, b: string, c: char)
    requires c !in a && b != [] && b[0] == c
    ensures PrefixWithout(a + b, c) == a
  {
    if a == [] {
      assert a + b == b;
    } else {
      var ab := a + b;
      assert ab[0] == a[0] && a[0] != c && ab[1..] == a[1..] + b;
      assert a == [a[0]] + a[1..];
      PrefixWithoutUpTo(a[1..], b, c);
    }
  }
}
