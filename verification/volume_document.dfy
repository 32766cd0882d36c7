/** The document object behind one opened volume file
    (src/volumeDocument.ts): a two-state lifecycle (live, disposed) over a list
    of owned disposables. Side effects on the outside world (firing the
    dispose event, releasing a disposable) are recorded in an effect log. */
module VolumeDocument {

  /** Something the document owns and must release: its two event emitters,
      or any other resource handed to `_register`. */
  datatype Disposable = DidDisposeEmitter | DidChangeEmitter | Resource(id: nat)

  /** What a call does to the outside world, in order. */
  datatype Effect = FireDidDispose | Release(item: Disposable)

  datatype Document = Document(uri: string, isDisposed: bool, disposables: seq<Disposable>)

  /** Result of `_register`: the new document, its effects and the value
      handed back to the caller. */
  datatype Registration = Registration(doc: Document, effects: seq<Effect>, returned: Disposable)

  /** Result of one `dispose()` call. */
  datatype Disposal = Disposal(doc: Document, effects: seq<Effect>)

  /** Releasing every element of a list, front to back (`disposeAll`). */
  function DisposeAll(items: seq<Disposable>): (effects: seq<Effect>)
    ensures Released(effects) == items
    ensures FireCount(effects) == 0
  {
    if items == [] then []
    else
      ReleasedAppend([Release(items[0])], DisposeAll(items[1..]));
      FireCountAppend([Release(items[0])], DisposeAll(items[1..]));
      [Release(items[0])] + DisposeAll(items[1..])
  }

  /** `_register`: a live document keeps the item, a disposed one releases it
      at once; either way the item is handed back. */
  function Register(doc: Document, item: Disposable): (r: Registration)
    ensures r.returned == item
    ensures r.doc.uri == doc.uri && r.doc.isDisposed == doc.isDisposed
    ensures !doc.isDisposed ==> r.doc.disposables == doc.disposables + [item] && r.effects == []
    ensures doc.isDisposed ==> r.doc == doc && Released(r.effects) == [item]
    ensures FireCount(r.effects) == 0
  {
    if !doc.isDisposed then
      Registration(doc.(disposables := doc.disposables + [item]), [], item)
    else
      Registration(doc, [Release(item)], item)
  }

  /** The constructor: the dispose and change emitters are registered while
      the document is live, so both end up in its list. */
  function Create(uri: string): (doc: Document)
    ensures doc.uri == uri && !doc.isDisposed
    ensures doc.disposables == [DidDisposeEmitter, DidChangeEmitter]
  {
    var empty := Document(uri, false, []);
    var withDispose := Register(empty, DidDisposeEmitter).doc;
    Register(withDispose, DidChangeEmitter).doc
  }

  /** `dispose()`: fire the dispose event first; then, only if the document
      was still live, mark it disposed and release everything it owns. */
  function Dispose(doc: Document): (r: Disposal)
    ensures r.doc.isDisposed && r.doc.uri == doc.uri
    ensures |r.effects| >= 1 && r.effects[0] == FireDidDispose
    ensures FireCount(r.effects) == 1
    ensures Released(r.effects) == (if doc.isDisposed then [] else doc.disposables)
  {
    var fired := [FireDidDispose];
    if doc.isDisposed then
      Disposal(doc, fired)
    else
      var cleanup := DisposeAll(doc.disposables);
      ReleasedAppend(fired, cleanup);
      FireCountAppend(fired, cleanup);
      Disposal(doc.(isDisposed := true), fired + cleanup)
  }

  /** The items released in an effect log, in order. */
  function Released(effects: seq<Effect>): seq<Disposable>
  {
    if effects == [] then []
    else (if effects[0].Release? then [effects[0].item] else []) + Released(effects[1..])
  }

  /** How many times an effect log fires the dispose event. */
  function FireCount(effects: seq<Effect>): nat
  {
    if effects == [] then 0
    else (if effects[0] == FireDidDispose then 1 else 0) + FireCount(effects[1..])
  }

  lemma {:induction false} ReleasedAppend(a: seq<Effect>, b: seq<Effect>)
    ensures Released(a + b) == Released(a) + Released(b)
  {
    if a != [] {
      ReleasedAppend(a[1..], b);
      assert (a + b)[1..] == a[1..] + b;
    } else {
      assert a + b == b;
    }
  }

  lemma {:induction false} FireCountAppend(a: seq<Effect>, b: seq<Effect>)
    ensures FireCount(a + b) == FireCount(a) + FireCount(b)
  {
    if a != [] {
      FireCountAppend(a[1..], b);
      assert (a + b)[1..] == a[1..] + b;
    } else {
      assert a + b == b;
    }
  }

  /** A second `dispose()` only fires the event again: nothing is released. */
  lemma {:induction false} DisposeTwice(doc: Document)
    ensures Dispose(Dispose(doc).doc).effects == [FireDidDispose]
    ensures Dispose(Dispose(doc).doc).doc == Dispose(doc).doc
  {
  }

  /** The first `dispose()` of a new document fires the event and then
      releases both of its emitters. */
  lemma {:induction false} DisposeNewDocument(uri: string)
    ensures Dispose(Create(uri)).effects
      == [FireDidDispose, Release(DidDisposeEmitter), Release(DidChangeEmitter)]
  {
    assert DisposeAll([DidDisposeEmitter, DidChangeEmitter])
      == [Release(DidDisposeEmitter)] + DisposeAll([DidChangeEmitter]);
  }

  /** A call made on the document from outside. */
  datatype Call = DisposeCall | RegisterCall(item: Disposable)

  datatype Outcome = Outcome(doc: Document, effects: seq<Effect>)

  function Step(doc: Document, call: Call): Outcome
  {
    match call
    case DisposeCall => var r := Dispose(doc); Outcome(r.doc, r.effects)
    case RegisterCall(item) => var r := Register(doc, item); Outcome(r.doc, r.effects)
  }

  /** The document and the effect log after a sequence of calls. */
  function Run(doc: Document, calls: seq<Call>): Outcome
    decreases |calls|
  {
    if calls == [] then Outcome(doc, [])
    else
      var first := Step(doc, calls[0]);
      var rest := Run(first.doc, calls[1..]);
      Outcome(rest.doc, first.effects + rest.effects)
  }

  /** Running two call sequences one after the other is running their
      concatenation. */
  lemma {:induction false} RunAppend(doc: Document, a: seq<Call>, b: seq<Call>)
    ensures Run(doc, a + b).doc == Run(Run(doc, a).doc, b).doc
    ensures Run(doc, a + b).effects == Run(doc, a).effects + Run(Run(doc, a).doc, b).effects
    decreases |a|
  {
    if a == [] {
      assert a + b == b;
    } else {
      var first := Step(doc, a[0]);
      assert (a + b)[0] == a[0];
      assert (a + b)[1..] == a[1..] + b;
      RunAppend(first.doc, a[1..], b);
    }
  }

  /** Once disposed, a document stays disposed whatever is called next. */
  lemma {:induction false} DisposedIsFinal(doc: Document, calls: seq<Call>)
    requires doc.isDisposed
    ensures Run(doc, calls).doc.isDisposed
    decreases |calls|
  {
    if calls != [] {
      DisposedIsFinal(Step(doc, calls[0]).doc, calls[1..]);
    }
  }

  /** `isDisposed` never goes back: if it holds after a prefix of the calls, it
      holds after all of them. */
  lemma {:induction false} DisposedIsMonotone(doc: Document, calls: seq<Call>, k: nat)
    requires k <= |calls|
    requires Run(doc, calls[..k]).doc.isDisposed
    ensures Run(doc, calls).doc.isDisposed
  {
    assert calls == calls[..k] + calls[k..];
    RunAppend(doc, calls[..k], calls[k..]);
    DisposedIsFinal(Run(doc, calls[..k]).doc, calls[k..]);
  }

  /** How many `dispose()` calls a sequence holds. */
  function DisposeCalls(calls: seq<Call>): nat
  {
    if calls == [] then 0
    else (if calls[0] == DisposeCall then 1 else 0) + DisposeCalls(calls[1..])
  }

  /** The items a sequence hands to `_register`, in order. */
  function RegisteredItems(calls: seq<Call>): seq<Disposable>
  {
    if calls == [] then []
    else (if calls[0].RegisterCall? then [calls[0].item] else []) + RegisteredItems(calls[1..])
  }

  /** Every `dispose()` call fires the event, repeated calls included. */
  lemma {:induction false} EveryDisposeFires(doc: Document, calls: seq<Call>)
    ensures FireCount(Run(doc, calls).effects) == DisposeCalls(calls)
    decreases |calls|
  {
    if calls != [] {
      var first := Step(doc, calls[0]);
      EveryDisposeFires(first.doc, calls[1..]);
      FireCountAppend(first.effects, Run(first.doc, calls[1..]).effects);
    }
  }

  /** What a document still has to release: its list while live, nothing once
      disposed. */
  function Pending(doc: Document): seq<Disposable>
  {
    if doc.isDisposed then [] else doc.disposables
  }

  /** Nothing is lost and nothing is released twice: over any sequence of
      calls, what was pending at the start plus what was registered equals
      what was released plus what is still pending, counted with
      multiplicity. */
  lemma {:induction false} ReleaseConservation(doc: Document, calls: seq<Call>)
    ensures multiset(Released(Run(doc, calls).effects)) + multiset(Pending(Run(doc, calls).doc))
      == multiset(Pending(doc)) + multiset(RegisteredItems(calls))
    decreases |calls|
  {
    if calls != [] {
      var first := Step(doc, calls[0]);
      var rest := Run(first.doc, calls[1..]);
      var registered := if calls[0].RegisterCall? then [calls[0].item] else [];
      assert RegisteredItems(calls) == registered + RegisteredItems(calls[1..]);
      assert Run(doc, calls) == Outcome(rest.doc, first.effects + rest.effects);
      ReleaseConservation(first.doc, calls[1..]);
      ReleasedAppend(first.effects, rest.effects);
      StepConservation(doc, calls[0]);
      var a, b := multiset(Released(first.effects)), multiset(Released(rest.effects));
      var p0, p1, p2 := multiset(Pending(doc)), multiset(Pending(first.doc)), multiset(Pending(rest.doc));
      var r0, r1 := multiset(registered), multiset(RegisteredItems(calls[1..]));
      MultisetChain(a, b, p0, p1, p2, r0, r1);
    }
  }

  lemma {:induction false} MultisetChain<T>(a: multiset<T>, b: multiset<T>, p0: multiset<T>, p1: multiset<T>,
                         p2: multiset<T>, r0: multiset<T>, r1: multiset<T>)
    requires b + p2 == p1 + r1 && a + p1 == p0 + r0
    ensures (a + b) + p2 == p0 + (r0 + r1)
  {
    calc {
      (a + b) + p2;
      a + (p1 + r1);
      (p0 + r0) + r1;
    }
  }

  /** One call of the conservation law. */
  lemma {:induction false} StepConservation(doc: Document, call: Call)
    ensures var out := Step(doc, call);
      multiset(Released(out.effects)) + multiset(Pending(out.doc))
        == multiset(Pending(doc)) + multiset(if call.RegisterCall? then [call.item] else [])
  {
  }

  /** For a new document and calls that never re-register an emitter, each
      emitter is released exactly once if `dispose()` was called at all, and
      never otherwise: the cleanup ran at most once. */
  lemma {:induction false} EmittersReleasedOnce(uri: string, calls: seq<Call>)
    requires RegisterCall(DidDisposeEmitter) !in calls && RegisterCall(DidChangeEmitter) !in calls
    ensures var out := Run(Create(uri), calls);
      && multiset(Released(out.effects))[DidDisposeEmitter] == (if DisposeCall in calls then 1 else 0)
      && multiset(Released(out.effects))[DidChangeEmitter] == (if DisposeCall in calls then 1 else 0)
  {
    var doc := Create(uri);
    var out := Run(doc, calls);
    var released := multiset(Released(out.effects));
    var registered := multiset(RegisteredItems(calls));
    ReleaseConservation(doc, calls);
    NotRegistered(calls, DidDisposeEmitter);
    NotRegistered(calls, DidChangeEmitter);
    assert registered[DidDisposeEmitter] == 0 && registered[DidChangeEmitter] == 0;
    var start := multiset(Pending(doc));
    assert start[DidDisposeEmitter] == 1 && start[DidChangeEmitter] == 1;
    var left := multiset(Pending(out.doc));
    assert released + left == start + registered;
    if DisposeCall in calls {
      DisposedAfterDisposeCall(doc, calls);
      assert left == multiset{};
      assert released == start + registered;
      assert released[DidDisposeEmitter] == 1 && released[DidChangeEmitter] == 1;
    } else {
      NeverDisposed(doc, calls);
      assert released == multiset{};
      assert released[DidDisposeEmitter] == 0 && released[DidChangeEmitter] == 0;
    }
  }

  /** A sequence that contains a `dispose()` call leaves the document
      disposed. */
  lemma {:induction false} DisposedAfterDisposeCall(doc: Document, calls: seq<Call>)
    requires DisposeCall in calls
    ensures Run(doc, calls).doc.isDisposed
  {
    var k :| 0 <= k < |calls| && calls[k] == DisposeCall;
    RunAppend(doc, calls[..k], [DisposeCall]);
    assert calls[..k] + [DisposeCall] == calls[..k + 1];
    DisposedIsMonotone(doc, calls, k + 1);
  }

  lemma {:induction false} NotRegistered(calls: seq<Call>, item: Disposable)
    requires RegisterCall(item) !in calls
    ensures item !in RegisteredItems(calls)
  {
    if calls != [] {
      NotRegistered(calls[1..], item);
    }
  }

  /** Without a `dispose()` call a live document stays live and releases
      nothing. */
  lemma {:induction false} NeverDisposed(doc: Document, calls: seq<Call>)
    requires !doc.isDisposed && DisposeCall !in calls
    ensures !Run(doc, calls).doc.isDisposed
    ensures Released(Run(doc, calls).effects) == []
    decreases |calls|
  {
    if calls != [] {
      var first := Step(doc, calls[0]);
      NeverDisposed(first.doc, calls[1..]);
      ReleasedAppend(first.effects, Run(first.doc, calls[1..]).effects);
    }
  }
}
